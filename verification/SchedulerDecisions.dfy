/** What the scheduler decides, on its lists and priorities alone: when check_prior preempts and
    whom, what runs next, where a preempted query goes on, and who ages. */
module SchedulerDecisions {
  import opened Recency
  import opened SchedulerModel
  import opened SchedulerInvariant
  import opened SchedulerSteps
  import opened SchedulerRuns

  // ---------------------------------------------------------------- check_prior

  ghost predicate AllTaken(s: State) {
    s.workers != [] && forall w :: 0 <= w < |s.workers| ==> s.workers[w] != Libre
  }

  /** Some query in execution has a worse priority than the first that is ready. */
  ghost predicate WorseRuns(s: State) {
    s.ready != [] && exists q :: q in s.exec && P(s.prio, q) > P(s.prio, s.ready[0])
  }

  ghost predicate NobodyTold(s: State) {
    forall w :: 0 <= w < |s.workers| ==> !Told(s.workers[w])
  }

  lemma {:induction false} VictimIsWorst(s: State, i: nat, best: nat)
    requires best < |s.exec| && best < i && NobodyTold(s)
    requires forall j :: 0 <= j < i && j < |s.exec| ==> P(s.prio, s.exec[j]) <= P(s.prio, s.exec[best])
    ensures forall q :: q in s.exec ==> P(s.prio, q) <= P(s.prio, s.exec[Victima(s, i, best)])
    decreases |s.exec| - i
  {
    if i < |s.exec| {
      var worse := P(s.prio, s.exec[i]) > P(s.prio, s.exec[best]);
      VictimIsWorst(s, i + 1, if worse then i else best);
    }
  }

  /** The Worker is told, and check_prior waits for it on the caller's behalf. */
  ghost predicate Preempts(s: State, r: State, caller: Caller) {
    && r.check.Desalojando? && r.check.caller == caller && r.signalAsign
    && var w := r.check.worker;
      && w < |s.workers| && s.workers[w].Atendiendo?
      && r.workers == s.workers[w := Atendiendo(s.workers[w].query, true)]
      && s.workers[w].query in s.exec
      && forall q :: q in s.exec ==> P(s.prio, q) <= P(s.prio, s.workers[w].query)
  }

  lemma CheckedExact(s: State, caller: Caller)
    requires Paired(s) && NobodyTold(s) && s.check == Abierto && !CheckPrior(s).Cae?
    ensures var r := Checked(s, caller);
      if AllTaken(s) && WorseRuns(s) then Preempts(s, r, caller) else r == Resume(s, caller)
  {
    if s.exec != [] {
      VictimIsWorst(s, 1, 0);
      assert s.exec[Victima(s, 1, 0)] in s.exec;
    }
    hide Victima;
  }

  /** For whom check_prior is called. */
  function CallerOf(s: State, a: Step): Caller
    requires Enabled(s, a) && (a.ArrivalChecks? || a.AgeChecks?)
  {
    if a.ArrivalChecks? then DeLlegada(s.llegada.query) else DeEdad(s.aging[a.i].query)
  }

  /** The state check_prior looks at. */
  function AtCheck(s: State, a: Step): State
    requires Enabled(s, a) && (a.ArrivalChecks? || a.AgeChecks?)
  {
    if a.ArrivalChecks? then s.(llegada := EnConsulta(s.llegada.query)) else s.(aging := RemoveAt(s.aging, a.i))
  }

  lemma CallsCheck(s: State, a: Step)
    requires Inv(s) && Enabled(s, a) && (a.ArrivalChecks? || a.AgeChecks?)
    ensures var s1 := AtCheck(s, a);
      && Next(s, a) == Checked(s1, CallerOf(s, a)) && s1.check == Abierto && s.plan == PRIORIDADES
      && Paired(s1) && NobodyTold(s1) && !CheckPrior(s1).Cae?
      && (AllTaken(s1) <==> AllTaken(s)) && (WorseRuns(s1) <==> WorseRuns(s))
  {
    hide Inv, RemoveAt;
    SplitInv(s);
    hide Listed, Errored, Tokens, Signalling, AgingSound;
    SameCheck(s, AtCheck(s, a));
    hide CheckPrior;
  }

  /** check_prior preempts exactly when every Worker is taken and somebody in execution has a worse
      priority than the first ready query; the Worker told is one that runs the worst.  An arrival
      and an aging thread have it decide alike. */
  lemma PreemptsIff(s: State, a: Step)
    requires Inv(s) && Enabled(s, a) && (a.ArrivalChecks? || a.AgeChecks?)
    ensures var r := Next(s, a);
      && (r.check.Desalojando? <==> AllTaken(s) && WorseRuns(s))
      && (r.check.Desalojando? ==> Preempts(s, r, CallerOf(s, a)))
      && (!r.check.Desalojando? ==> r.check == Abierto && r.workers == s.workers)
      && r.ready == s.ready && r.exec == s.exec && r.prio == s.prio
  {
    hide Inv, Enabled, Next, Checked, CheckPrior, Paired, NobodyTold, AllTaken, WorseRuns;
    CallsCheck(s, a);
    CheckedExact(AtCheck(s, a), CallerOf(s, a));
    CheckedLists(AtCheck(s, a), CallerOf(s, a));
  }

  lemma CheckedLists(s: State, caller: Caller)
    ensures var r := Checked(s, caller); r.ready == s.ready && r.exec == s.exec && r.prio == s.prio
  {
    hide CheckPrior, AgingOf;
  }

  /** After a check that preempts nobody the caller goes on: the arrival announces its query, the
      aging thread sleeps again unless its query has reached 0. */
  lemma GoesOnIff(s: State, a: Step)
    requires Inv(s) && Enabled(s, a) && (a.ArrivalChecks? || a.AgeChecks?) && !(AllTaken(s) && WorseRuns(s))
    ensures a.ArrivalChecks? ==> Next(s, a) == s.(llegada := PorAvisar(s.llegada.query))
    ensures a.AgeChecks? ==>
      var q := s.aging[a.i].query;
      Next(s, a) == s.(aging := s.aging[..a.i] + s.aging[a.i + 1..]
        + if s.edad && P(s.prio, q) != 0 then [Dormido(q)] else [])
  {
    hide Inv, Next, Checked, CheckPrior, Paired, NobodyTold, AllTaken, WorseRuns;
    CallsCheck(s, a);
    CheckedExact(AtCheck(s, a), CallerOf(s, a));
  }

  /** Under PRIORIDADES an arriving query is on the list first, and waits for its check_prior: nothing
      else moves the arrival on. */
  lemma ArrivalInserted(s: State, q: nat, p: int, k: nat)
    requires Enabled(s, QueryArrives(q, p, k)) && s.plan == PRIORIDADES
    ensures var r := Next(s, QueryArrives(q, p, k)); r.llegada == EnLista(q) && q in r.ready && P(r.prio, q) == p
  {
    assert InsertAt(s.ready, k, q)[k] == q;
  }

  lemma ArrivalWaits(s: State, a: Step)
    requires Inv(s) && s.llegada.EnLista? && Enabled(s, a) && !a.ArrivalChecks?
    ensures Next(s, a).llegada == s.llegada
  {
    SplitInv(s);
    hide Inv, Listed, Errored, Tokens, Signalling, AgingSound, Paired, Preempting, Priorities, AgingOf, InsertAt;
    hide CheckPrior, Without, RemoveAt;
  }

  /** And so does an aging thread that has lowered its query's priority. */
  lemma ThreadWaits(s: State, a: Step, q: nat)
    requires PorConsultar(q) in s.aging && Enabled(s, a) && !(a.AgeChecks? && s.aging[a.i] == PorConsultar(q))
    ensures PorConsultar(q) in Next(s, a).aging
  {
    hide CheckPrior, InsertAt, Without, AgingOf;
    var j :| 0 <= j < |s.aging| && s.aging[j] == PorConsultar(q);
    match a
    case Ages(i, k) => OtherThread(s, i, j, PorConsultar(s.aging[i].query));
    case AgeChecks(i) => OtherThread(s, i, j, s.aging[i]);
    case _ =>
  }

  lemma OtherThread(s: State, i: nat, j: nat, x: Aging)
    requires i < |s.aging| && j < |s.aging| && i != j
    ensures s.aging[j] in RemoveAt(s.aging, i) && s.aging[j] in s.aging[i := x]
  {
    assert RemoveAt(s.aging, i)[if j < i then j else j - 1] == s.aging[j];
    assert s.aging[i := x][j] == s.aging[j];
  }

  // ---------------------------------------------------------------- what runs next

  /** Under PRIORIDADES the query taken off the list has the best priority in it. */
  lemma BestIsNext(s: State)
    requires Inv(s) && Enabled(s, Pops) && s.plan == PRIORIDADES
    ensures var r := Next(s, Pops);
      && r.disp.EnMano? && r.disp.query in s.ready && r.disp.query !in r.ready
      && (forall q :: q in s.ready ==> P(s.prio, r.disp.query) <= P(s.prio, q))
      && forall q :: q in s.ready && q != r.disp.query ==> q in r.ready
  {
    hide Inv;
    SplitInv(s);
    TailKeeps(s.ready);
    forall q | q in s.ready
      ensures P(s.prio, s.ready[0]) <= P(s.prio, q)
    {
      HeadIsLeast(s.prio, s.ready, q);
    }
  }

  /** The queries that arrive, in order. */
  function Arrivals(steps: seq<Step>): seq<nat> {
    if steps == [] then []
    else (if steps[0].QueryArrives? then [steps[0].query] else []) + Arrivals(steps[1..])
  }

  /** The queries the dispatcher takes, in order. */
  ghost function Taken(s: State, steps: seq<Step>): seq<nat>
    requires Possible(s, steps)
    decreases |steps|
  {
    if steps == [] then []
    else (if steps[0] == Pops then [Next(s, Pops).disp.query] else []) + Taken(Next(s, steps[0]), steps[1..])
  }

  lemma FifoStep(s: State, a: Step)
    requires Inv(s) && Enabled(s, a) && s.plan == FIFO
    ensures Next(s, a).plan == FIFO && (a == Pops ==> Next(s, a).disp.EnMano?)
    ensures s.ready + (if a.QueryArrives? then [a.query] else []) ==
      (if a == Pops then [Next(s, a).disp.query] else []) + Next(s, a).ready
  {
    hide Inv;
    SplitInv(s);
    hide Listed, Errored, Tokens, Signalling, AgingSound, Paired, Preempting, Priorities;
    if a.QueryArrives? {
      assert s.ready[..|s.ready|] == s.ready && s.ready[|s.ready|..] == [];
    }
  }

  /** Under FIFO queries are taken in the order they arrived in, and none is lost. */
  lemma {:induction false} FifoOrder(s: State, steps: seq<Step>)
    requires Inv(s) && s.plan == FIFO && Possible(s, steps)
    ensures s.ready + Arrivals(steps) == Taken(s, steps) + After(s, steps).ready
    decreases |steps|
  {
    hide Inv, Next, Enabled, Permitted;
    if steps != [] {
      var r := Next(s, steps[0]);
      FifoStep(s, steps[0]);
      StepKeepsInv(s, steps[0]);
      FifoOrder(r, steps[1..]);
      var came := if steps[0].QueryArrives? then [steps[0].query] else [];
      var went := if steps[0] == Pops then [r.disp.query] else [];
      assert s.ready + (came + Arrivals(steps[1..])) == (s.ready + came) + Arrivals(steps[1..]);
      assert (went + r.ready) + Arrivals(steps[1..]) == went + (r.ready + Arrivals(steps[1..]));
      assert went + (Taken(r, steps[1..]) + After(r, steps[1..]).ready)
          == (went + Taken(r, steps[1..])) + After(r, steps[1..]).ready;
    }
  }

  // ---------------------------------------------------------------- where a query goes on

  /** The query's consult is not answered with an eviction. */
  ghost predicate Undisturbed(s: State, steps: seq<Step>, q: nat)
    requires Possible(s, steps)
    decreases |steps|
  {
    steps != [] ==>
      && (steps[0].Evicts? ==> s.workers[s.check.worker].query != q)
      && Undisturbed(Next(s, steps[0]), steps[1..], q)
  }

  lemma {:induction false} PcKept(s: State, steps: seq<Step>, q: nat)
    requires Possible(s, steps) && Undisturbed(s, steps, q) && q in s.prio && q in s.pc
    ensures q in After(s, steps).pc && After(s, steps).pc[q] == s.pc[q]
    decreases |steps|
  {
    hide CheckPrior, Checked, Resume, InsertAt, Without, AgingOf, RemoveAt;
    if steps != [] {
      PcStays(s, steps[0], q);
      hide Next, Enabled, Permitted;
      PcKept(Next(s, steps[0]), steps[1..], q);
    }
  }

  lemma PcStays(s: State, a: Step, q: nat)
    requires Enabled(s, a) && q in s.prio && q in s.pc && (a.Evicts? ==> s.workers[s.check.worker].query != q)
    ensures q in Next(s, a).prio && q in Next(s, a).pc && Next(s, a).pc[q] == s.pc[q]
  {
    hide CheckPrior, Checked, Aged, Finished, Resume, InsertAt, Without, AgingOf, RemoveAt, Sorted;
    match a
    case ArrivalChecks => CheckedPc(s.(llegada := EnConsulta(s.llegada.query)), DeLlegada(s.llegada.query));
    case AgeChecks(i) => CheckedPc(s.(aging := RemoveAt(s.aging, i)), DeEdad(s.aging[i].query));
    case Ages(i, k) => AgedPc(s, i, k);
    case Ends(w) => FinishedPc(s, w, PorLiberar);
    case Fails(w) => FinishedPc(s, w, ConError(s.workers[w].query, s.workers[w].interrumpir));
    case Reopens => ResumePc(s.(signalAsign := false, check := Abierto), s.check.caller);
    case _ =>
  }

  lemma CheckedPc(s: State, caller: Caller)
    ensures Checked(s, caller).prio == s.prio && Checked(s, caller).pc == s.pc
  {
    hide CheckPrior, AgingOf;
  }

  lemma ResumePc(s: State, caller: Caller)
    ensures Resume(s, caller).prio == s.prio && Resume(s, caller).pc == s.pc
  {
  }

  lemma AgedPc(s: State, i: nat, k: nat)
    requires i < |s.aging|
    requires var q := s.aging[i].query; q in s.ready && P(s.prio, q) > 0 ==> k <= |Without(s.ready, q)|
    ensures s.prio.Keys <= Aged(s, i, k).prio.Keys && Aged(s, i, k).pc == s.pc
  {
    hide Without, InsertAt, RemoveAt, AgingOf;
  }

  lemma FinishedPc(s: State, w: nat, next: Worker)
    requires w < |s.workers| && (s.workers[w].Atendiendo? || s.workers[w].ConError?)
    ensures Finished(s, w, next).prio == s.prio && Finished(s, w, next).pc == s.pc
  {
    hide Without;
  }

  /** A preempted query keeps the pc of the consult that evicted it, whatever happens, until it is
      evicted again; a query that was never evicted has 0. */
  lemma SavedPc(s: State, k: nat, newPc: nat, steps: seq<Step>)
    requires Inv(s) && Enabled(s, Evicts(k, newPc)) && Possible(Next(s, Evicts(k, newPc)), steps)
    requires Undisturbed(Next(s, Evicts(k, newPc)), steps, s.workers[s.check.worker].query)
    ensures var q := s.workers[s.check.worker].query;
      var r := After(Next(s, Evicts(k, newPc)), steps);
      q in r.pc && r.pc[q] == newPc
  {
    var q := s.workers[s.check.worker].query;
    var r := Next(s, Evicts(k, newPc));
    assert q in r.prio by { SplitInv(s); VictimKnown(s, s.check.worker); }
    PcKept(r, steps, q);
  }

  lemma FreshPc(s: State, q: nat, p: int, k: nat, steps: seq<Step>)
    requires Enabled(s, QueryArrives(q, p, k)) && Possible(Next(s, QueryArrives(q, p, k)), steps)
    requires Undisturbed(Next(s, QueryArrives(q, p, k)), steps, q)
    ensures var r := After(Next(s, QueryArrives(q, p, k)), steps);
      q in r.pc && r.pc[q] == 0
  {
    PcKept(Next(s, QueryArrives(q, p, k)), steps, q);
  }

  // ---------------------------------------------------------------- aging

  /** The query has an aging thread, or is still being announced by the arrival that will start
      it. */
  ghost predicate Cared(s: State, q: nat) {
    || HasThread(s, q)
    || (s.check != Abierto && s.check.caller == DeEdad(q))
    || (s.llegada != Nadie && s.llegada.query == q)
  }

  ghost predicate HasThread(s: State, q: nat) {
    exists i :: 0 <= i < |s.aging| && s.aging[i].query == q
  }

  /** With aging, that is so for every ready query of priority above 0. */
  ghost predicate EveryoneAges(s: State) {
    s.plan == PRIORIDADES && s.edad ==> forall q :: q in s.ready && P(s.prio, q) != 0 ==> Cared(s, q)
  }

  /** More threads at the end of the list. */
  lemma MoreThreads(s: State, r: State, more: seq<Aging>)
    requires r.aging == s.aging + more
    ensures forall q :: HasThread(s, q) ==> HasThread(r, q)
    ensures forall x :: x in more ==> HasThread(r, x.query)
  {
    forall q | HasThread(s, q)
      ensures HasThread(r, q)
    {
      var i :| 0 <= i < |s.aging| && s.aging[i].query == q;
      assert r.aging[i].query == q;
    }
    forall x | x in more
      ensures HasThread(r, x.query)
    {
      var j :| 0 <= j < |more| && more[j] == x;
      assert r.aging[|s.aging| + j].query == x.query;
    }
  }

  /** A thread less, for one query alone. */
  lemma FewerThreads(s: State, r: State, i: nat)
    requires i < |s.aging| && r.aging == RemoveAt(s.aging, i)
    ensures forall q :: HasThread(s, q) && q != s.aging[i].query ==> HasThread(r, q)
  {
    forall q | HasThread(s, q) && q != s.aging[i].query
      ensures HasThread(r, q)
    {
      var j :| 0 <= j < |s.aging| && s.aging[j].query == q;
      assert r.aging[if j < i then j else j - 1].query == q;
    }
  }

  lemma CaredStays(s: State, r: State)
    requires EveryoneAges(s) && r.plan == s.plan && r.edad == s.edad && r.prio == s.prio
    requires forall q :: q in r.ready ==> q in s.ready
    requires forall q :: q in r.ready && P(r.prio, q) != 0 && Cared(s, q) ==> Cared(r, q)
    ensures EveryoneAges(r)
  {
    hide Cared;
  }

  /** check_prior is done: its caller's query is in the caller's hands again. */
  lemma ResumeAges(s: State, r: State, caller: Caller)
    requires EveryoneAges(s) && r.plan == s.plan && r.edad == s.edad && r.prio == s.prio && r.ready == s.ready
    requires r.check == Abierto && r.aging == s.aging && r.llegada == s.llegada && s.plan == PRIORIDADES
    requires s.check != Abierto && s.check.caller == caller
    requires caller.DeLlegada? ==> s.llegada != Nadie && s.llegada.query == caller.query
    ensures EveryoneAges(Resume(r, caller))
  {
    var z := Resume(r, caller);
    if caller.DeEdad? {
      MoreThreads(r, z, AgingOf(r, caller.query));
      assert HasThread(z, caller.query) || P(z.prio, caller.query) == 0 || !s.edad;
    }
    assert forall q :: HasThread(s, q) ==> HasThread(z, q);
    hide HasThread;
  }

  /** An aging thread calls check_prior, which waits: it is not in the list of threads meanwhile. */
  lemma CalledAges(s: State, i: nat, r: State)
    requires EveryoneAges(s) && i < |s.aging| && s.check == Abierto
    requires r.plan == s.plan && r.edad == s.edad && r.prio == s.prio && r.ready == s.ready && r.llegada == s.llegada
    requires r.aging == RemoveAt(s.aging, i) && r.check != Abierto && r.check.caller == DeEdad(s.aging[i].query)
    ensures EveryoneAges(r)
  {
    FewerThreads(s, r, i);
    hide HasThread, RemoveAt;
    CaredStays(s, r);
  }

  /** Or returns at once. */
  lemma ReturnedAges(s: State, i: nat)
    requires EveryoneAges(s) && i < |s.aging| && s.check == Abierto && s.plan == PRIORIDADES
    ensures EveryoneAges(Resume(s.(aging := RemoveAt(s.aging, i)), DeEdad(s.aging[i].query)))
  {
    var q := s.aging[i].query;
    var s1 := s.(aging := RemoveAt(s.aging, i));
    var z := Resume(s1, DeEdad(q));
    FewerThreads(s, s1, i);
    MoreThreads(s1, z, AgingOf(s1, q));
    assert HasThread(z, q) || P(z.prio, q) == 0 || !s.edad;
    hide RemoveAt, HasThread;
  }

  lemma ChecksAge(s: State, a: Step)
    requires Inv(s) && Enabled(s, a) && (a.ArrivalChecks? || a.AgeChecks?) && EveryoneAges(s)
    ensures EveryoneAges(Next(s, a))
  {
    hide Inv, Next, Checked, CheckPrior, Paired, NobodyTold, AllTaken, WorseRuns, EveryoneAges, AgingOf, RemoveAt;
    var s1 := AtCheck(s, a);
    CallsCheck(s, a);
    CheckedExact(s1, CallerOf(s, a));
    CheckedLists(s1, CallerOf(s, a));
    CheckedHands(s1, CallerOf(s, a));
    if a.ArrivalChecks? {
      AnnouncedAges(s, Next(s, a));
    } else if Next(s, a).check.Desalojando? {
      CalledAges(s, a.i, Next(s, a));
    } else {
      ReturnedAges(s, a.i);
    }
  }

  lemma CheckedHands(s: State, caller: Caller)
    requires s.check == Abierto
    ensures var r := Checked(s, caller);
      && r.plan == s.plan && r.edad == s.edad
      && (r.check.Desalojando? ==> r.check.caller == caller && r.aging == s.aging && r.llegada == s.llegada)
      && (caller.DeLlegada? ==> r.aging == s.aging)
      && (caller.DeLlegada? && s.llegada == EnConsulta(caller.query) ==>
            r.llegada != Nadie && r.llegada.query == caller.query)
  {
    hide CheckPrior, AgingOf;
  }

  lemma AnnouncedAges(s: State, r: State)
    requires EveryoneAges(s) && s.check == Abierto && s.llegada != Nadie
    requires r.plan == s.plan && r.edad == s.edad && r.prio == s.prio && r.ready == s.ready && r.aging == s.aging
    requires r.llegada != Nadie && r.llegada.query == s.llegada.query
    ensures EveryoneAges(r)
  {
    assert forall q :: HasThread(r, q) <==> HasThread(s, q);
    hide HasThread;
  }

  lemma EvictsAge(s: State, k: nat, newPc: nat)
    requires EveryoneAges(s) && Enabled(s, Evicts(k, newPc))
    ensures EveryoneAges(Next(s, Evicts(k, newPc)))
  {
    var q := s.workers[s.check.worker].query;
    var r := Next(s, Evicts(k, newPc));
    MoreThreads(s, r, AgingOf(s, q));
    forall x | x in r.ready
      ensures x in s.ready || x == q
    {
      if x in s.ready[..k] { assert x in s.ready; } else if x in s.ready[k..] { assert x in s.ready; }
    }
    assert P(s.prio, q) != 0 && s.edad && s.plan == PRIORIDADES ==> AgingOf(s, q) == [Dormido(q)];
    assert P(s.prio, q) != 0 && s.edad && s.plan == PRIORIDADES ==> Dormido(q) in AgingOf(s, q);
    hide HasThread, AgingOf, InsertAt;
  }

  lemma ThreadAges(s: State, i: nat, k: nat)
    requires Inv(s) && EveryoneAges(s) && Enabled(s, Ages(i, k))
    ensures EveryoneAges(Next(s, Ages(i, k)))
  {
    hide Inv;
    SplitInv(s);
    hide Errored, Tokens, Signalling, Paired, Preempting, Priorities, AgingSound;
    var q := s.aging[i].query;
    var r := Next(s, Ages(i, k));
    WithoutKeeps(s.ready, q);
    if q in s.ready && P(s.prio, q) > 0 {
      InsertKeeps(Without(s.ready, q), k, q);
      OneChanged(s, r, i);
    } else {
      AgingPositiveOr(s, i);
      FewerThreads(s, r, i);
    }
  }

  /** A thread over a query of priority 0 is not asleep. */
  lemma AgingPositiveOr(s: State, i: nat)
    requires Inv(s) && i < |s.aging| && s.aging[i].Dormido?
    ensures P(s.prio, s.aging[i].query) > 0
  {
    SplitInv(s);
  }

  lemma OneChanged(s: State, r: State, i: nat)
    requires EveryoneAges(s) && i < |s.aging| && r.plan == s.plan && r.edad == s.edad
    requires var q := s.aging[i].query;
      && r.aging == s.aging[i := PorConsultar(q)] && r.check == s.check && r.llegada == s.llegada
      && (forall x :: x != q ==> P(r.prio, x) == P(s.prio, x)) && forall x :: x in r.ready ==> x in s.ready
    ensures EveryoneAges(r)
  {
    assert r.aging[i].query == s.aging[i].query;
    forall q | HasThread(s, q)
      ensures HasThread(r, q)
    {
      var j :| 0 <= j < |s.aging| && s.aging[j].query == q;
      assert r.aging[j].query == q;
    }
    hide HasThread;
  }

  lemma ArrivesAges(s: State, q: nat, p: int, k: nat)
    requires Inv(s) && EveryoneAges(s) && Enabled(s, QueryArrives(q, p, k))
    ensures EveryoneAges(Next(s, QueryArrives(q, p, k)))
  {
    SplitInv(s);
    InsertKeeps(s.ready, k, q);
    hide Inv, Errored, Tokens, Signalling, Paired, Preempting, Priorities, AgingSound, InsertAt;
    var r := Next(s, QueryArrives(q, p, k));
    assert forall x :: HasThread(s, x) ==> HasThread(r, x);
    hide HasThread;
  }

  lemma PostsAges(s: State)
    requires EveryoneAges(s) && Enabled(s, ArrivalPosts)
    ensures EveryoneAges(Next(s, ArrivalPosts))
  {
    var r := Next(s, ArrivalPosts);
    MoreThreads(s, r, AgingOf(s, s.llegada.query));
    hide HasThread;
  }

  lemma StepAges(s: State, a: Step)
    requires Inv(s) && EveryoneAges(s) && Enabled(s, a)
    ensures EveryoneAges(Next(s, a))
  {
    hide Inv;
    SplitInv(s);
    match a
    case QueryArrives(q, p, k) => ArrivesAges(s, q, p, k);
    case ArrivalChecks => ChecksAge(s, a);
    case AgeChecks(_) => ChecksAge(s, a);
    case ArrivalPosts => PostsAges(s);
    case Evicts(k, newPc) => EvictsAge(s, k, newPc);
    case Ages(i, k) => ThreadAges(s, i, k);
    case Reopens => ReopensAges(s);
    case _ => OthersAge(s, a);
  }

  lemma ReopensAges(s: State)
    requires Inv(s) && EveryoneAges(s) && Enabled(s, Reopens)
    ensures EveryoneAges(Next(s, Reopens))
  {
    hide Inv;
    SplitInv(s);
    assert s.plan == PRIORIDADES;
    hide Listed, Errored, Tokens, Signalling, AgingSound, Paired, Preempting, AgingOf, EveryoneAges;
    ResumeAges(s, s.(signalAsign := false, check := Abierto), s.check.caller);
  }

  lemma OthersAge(s: State, a: Step)
    requires EveryoneAges(s) && Enabled(s, a)
    requires a in {WorkerArrives, WorkerPosted, TakesReady, TakesWorker, Pops, Pairs, Signals, Wakes}
      || a.Ends? || a.Fails? || a.Drops? || a.Releases?
    ensures EveryoneAges(Next(s, a))
  {
    hide AgingOf, CheckPrior, InsertAt, Without, RemoveAt;
    var r := Next(s, a);
    assert forall q :: HasThread(s, q) <==> HasThread(r, q);
    hide HasThread;
    CaredStays(s, r);
  }

  /** In every run from an empty Master, no ready query waits without aging. */
  lemma {:induction false} RunAges(s: State, steps: seq<Step>)
    requires Inv(s) && EveryoneAges(s) && Possible(s, steps)
    ensures EveryoneAges(After(s, steps))
    decreases |steps|
  {
    hide Inv, EveryoneAges, Next, Enabled, Permitted;
    if steps != [] {
      StepAges(s, steps[0]);
      StepKeepsInv(s, steps[0]);
      RunAges(Next(s, steps[0]), steps[1..]);
    }
  }

  lemma StartedAges(plan: Plan, edad: bool, steps: seq<Step>)
    requires Possible(Start(plan, edad), steps)
    ensures EveryoneAges(After(Start(plan, edad), steps))
  {
    StartInv(plan, edad);
    RunAges(Start(plan, edad), steps);
  }

  /** A turn of an aging thread lowers its query's priority by one, moves that query alone in the
      list, and goes on to check_prior. */
  lemma AgesByOne(s: State, i: nat, k: nat)
    requires Inv(s) && Enabled(s, Ages(i, k)) && s.aging[i].query in s.ready
    ensures var (q, r) := (s.aging[i].query, Next(s, Ages(i, k)));
      && (forall x :: P(r.prio, x) == if x == q then P(s.prio, x) - 1 else P(s.prio, x))
      && P(r.prio, q) >= 0 && r.aging == s.aging[i := PorConsultar(q)]
      && (forall x :: x in r.ready <==> x in s.ready) && Without(r.ready, q) == Without(s.ready, q)
      && r.exec == s.exec && r.workers == s.workers
  {
    hide Inv;
    SplitInv(s);
    hide Errored, Tokens, Signalling, Paired, Preempting;
    var q := s.aging[i].query;
    assert P(s.prio, q) > 0;
    WithoutKeeps(s.ready, q);
    InsertKeeps(Without(s.ready, q), k, q);
    InsertThenWithout(Without(s.ready, q), k, q);
  }

  lemma {:induction false} InsertThenWithout(list: seq<nat>, k: nat, q: nat)
    requires k <= |list| && q !in list
    ensures Without(InsertAt(list, k, q), q) == list
    decreases k
  {
    var r := InsertAt(list, k, q);
    if k == 0 {
      assert r[0] == q && r[1..] == list;
    } else {
      assert r[0] == list[0] && r[1..] == InsertAt(list[1..], k - 1, q);
      InsertThenWithout(list[1..], k - 1, q);
      assert list == [list[0]] + list[1..];
    }
  }
}
