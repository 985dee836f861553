/** Whole runs of the scheduler, and exactly when what it promises of them fails. */
module SchedulerRuns {
  import opened Recency
  import opened SchedulerModel
  import opened SchedulerInvariant
  import opened SchedulerSteps

  ghost predicate Possible(s: State, steps: seq<Step>)
    decreases |steps|
  {
    steps != [] ==> Enabled(s, steps[0]) && Permitted(s, steps[0]) && Possible(Next(s, steps[0]), steps[1..])
  }

  function After(s: State, steps: seq<Step>): State
    requires Possible(s, steps)
    decreases |steps|
  {
    if steps == [] then s else After(Next(s, steps[0]), steps[1..])
  }

  lemma StartInv(plan: Plan, edad: bool)
    ensures Inv(Start(plan, edad))
  {
  }

  /** In every run the invariant holds, and the dispatcher with its tokens finds a query and a
      free Worker. */
  lemma {:induction false} RunKeepsInv(s: State, steps: seq<Step>)
    requires Inv(s) && Possible(s, steps)
    ensures var r := After(s, steps);
      && Inv(r) && (r.disp.ConAmbos? ==> r.ready != []) && (r.disp.EnMano? ==> FirstLibre(r.workers, 0).Some?)
    decreases |steps|
  {
    hide Inv, Next, Enabled, Permitted;
    if steps == [] {
      DispatcherNeverFails(s);
    } else {
      StepKeepsInv(s, steps[0]);
      RunKeepsInv(Next(s, steps[0]), steps[1..]);
    }
  }

  /** What a run from an empty Master never has: a query in two places, or a Worker and a query
      that do not name each other. */
  lemma StartedRun(plan: Plan, edad: bool, steps: seq<Step>)
    requires Possible(Start(plan, edad), steps)
    ensures var r := After(Start(plan, edad), steps);
      && (forall q :: q in r.ready ==> q !in r.exec)
      && (forall q :: q in r.exec <==> exists w :: 0 <= w < |r.workers| && Runs(r.workers[w], q))
      && (r.plan == PRIORIDADES ==> Sorted(r.prio, r.ready))
      && r.semReady <= |r.ready| && r.semWorkers <= HowManyFree(r.workers)
  {
    StartInv(plan, edad);
    RunKeepsInv(Start(plan, edad), steps);
    var r := After(Start(plan, edad), steps);
    SplitInv(r);
    hide Inv, Possible, After, Tokens;
    assert r.semReady <= |r.ready| && r.semWorkers <= HowManyFree(r.workers) by { TokensBound(r); }
    forall q
      ensures q in r.exec <==> exists w :: 0 <= w < |r.workers| && Runs(r.workers[w], q)
    {
    }
  }

  lemma TokensBound(s: State)
    requires Tokens(s)
    ensures s.semReady <= |s.ready| && s.semWorkers <= HowManyFree(s.workers)
  {
  }

  /** A query is preempted only while one with a strictly better priority is ready, from
      check_prior's decision to the eviction; and a strictly better one is dispatched next. */
  lemma PreemptedForBetter(s: State, a: Step)
    requires Inv(s) && Enabled(s, a)
    ensures s.check == Abierto && Next(s, a).check.Desalojando? ==>
      var w := Next(s, a).check.worker;
      w < |s.workers| && s.workers[w].Atendiendo? && BetterReady(s, P(s.prio, s.workers[w].query))
    ensures a.Evicts? ==> BetterReady(s, P(s.prio, s.workers[s.check.worker].query))
    ensures a == Pairs && s.vacante.Some? ==> P(s.prio, s.disp.query) < s.vacante.value && s.plan == PRIORIDADES
  {
    hide Inv;
    SplitInv(s);
    hide Listed, Paired, Errored, Tokens, Signalling, AgingSound;
    if s.check == Abierto && Next(s, a).check.Desalojando? { DecidedForBetter(s, a); }
  }

  lemma DecidedForBetter(s: State, a: Step)
    requires Inv(s) && Enabled(s, a) && s.check == Abierto && Next(s, a).check.Desalojando?
    ensures var w := Next(s, a).check.worker;
      w < |s.workers| && s.workers[w].Atendiendo? && BetterReady(s, P(s.prio, s.workers[w].query))
  {
    hide Inv, Listed, Errored, Signalling, AgingSound, Preempting, RemoveAt, InsertAt, Without, AgingOf;
    SplitInv(s);
    assert a == ArrivalChecks || a.AgeChecks?;
    var s1 := if a == ArrivalChecks then s.(llegada := EnConsulta(s.llegada.query))
      else s.(aging := RemoveAt(s.aging, a.i));
    SameCheck(s, s1);
    ChosenIn(s);
    hide CheckPrior;
    assert s.ready[0] in s.ready;
  }

  // ---------------------------------------------------------------- the aging thread

  /** A waking thread takes its query off the list for good exactly when its priority has already
      reached 0. */
  lemma AgingDropsIff(s: State, i: nat, k: nat)
    requires Listed(s) && Enabled(s, Ages(i, k)) && s.aging[i].query in s.ready
    ensures s.aging[i].query !in Next(s, Ages(i, k)).ready <==> P(s.prio, s.aging[i].query) <= 0
  {
    var q := s.aging[i].query;
    WithoutKeeps(s.ready, q);
    if P(s.prio, q) > 0 { InsertKeeps(Without(s.ready, q), k, q); }
  }

  /** With one thread a query that never happens. */
  lemma AgingKeeps(s: State, i: nat, k: nat)
    requires Inv(s) && Enabled(s, Ages(i, k)) && s.aging[i].query in s.ready
    ensures s.aging[i].query in Next(s, Ages(i, k)).ready
  {
    SplitInv(s);
    hide Inv, Next;
    AgingDropsIff(s, i, k);
  }

  // ---------------------------------------------------------------- check_prior's failure

  /** check_prior reads through NULL exactly when every Worker is taken and there is nothing to
      evict, or nothing to evict for. */
  lemma CheckFailsIff(s: State)
    requires Inv(s)
    ensures CheckPrior(s).Cae? <==>
      s.workers != [] && HowManyFree(s.workers) == 0 && (s.exec == [] || s.ready == [])
  {
    FreeFound(s.workers);
    if s.exec != [] {
      var v := s.exec[Victima(s, 1, 0)];
      assert v in s.exec;
    }
  }

  /** For a query that has just arrived there is always something to evict for. */
  lemma ArrivalFailsIff(s: State)
    requires Inv(s) && s.llegada.EnLista?
    ensures CheckPrior(s).Cae? <==> s.workers != [] && HowManyFree(s.workers) == 0 && s.exec == []
  {
    CheckFailsIff(s);
    TokensBound(s);
  }

  // ---------------------------------------------------------------- check_prior's wait

  /** The steps lead from s to r; with `allowed`, under the hypotheses. */
  ghost predicate Leads(s: State, steps: seq<Step>, allowed: bool, r: State)
    decreases |steps|
  {
    if steps == [] then s == r
    else
      && Enabled(s, steps[0]) && (allowed ==> Permitted(s, steps[0]))
      && Leads(Next(s, steps[0]), steps[1..], allowed, r)
  }

  lemma {:induction false} LeadsTwice(s: State, first: seq<Step>, q: State, second: seq<Step>, allowed: bool, r: State)
    requires Leads(s, first, allowed, q) && Leads(q, second, allowed, r)
    ensures Leads(s, first + second, allowed, r)
    decreases |first|
  {
    hide Next, Enabled, Permitted;
    if first == [] {
      assert first + second == second;
    } else {
      var both := first + second;
      assert both[0] == first[0] && both[1..] == first[1..] + second;
      LeadsTwice(Next(s, first[0]), first[1..], q, second, allowed, r);
    }
  }

  lemma {:induction false} LeadsPossible(s: State, steps: seq<Step>, r: State)
    requires Leads(s, steps, true, r)
    ensures Possible(s, steps) && After(s, steps) == r
    decreases |steps|
  {
    hide Next, Enabled, Permitted;
    if steps != [] { LeadsPossible(Next(s, steps[0]), steps[1..], r); }
  }

  ghost predicate NoPairs(steps: seq<Step>) {
    forall i :: 0 <= i < |steps| ==> steps[i] != Pairs
  }

  /** check_prior waits for the dispatcher, and no token is there or on its way. */
  ghost predicate Held(s: State) {
    s.check.Asignando? && s.semAsign == 0 && s.disp != Emparejado && s.vacante.Some?
  }

  lemma {:induction false} HeldLasts(s: State, steps: seq<Step>, r: State)
    requires Held(s) && Leads(s, steps, false, r) && NoPairs(steps)
    ensures Held(r)
    decreases |steps|
  {
    if steps != [] {
      HeldStep(s, steps[0]);
      hide Next, Enabled, Held;
      HeldLasts(Next(s, steps[0]), steps[1..], r);
    }
  }

  lemma HeldStep(s: State, a: Step)
    requires Held(s) && Enabled(s, a) && a != Pairs
    ensures Held(Next(s, a))
  {
    hide AgingOf, InsertAt, Without, CheckPrior, RemoveAt;
  }

  /** After an eviction check_prior can be open again before a query has taken the place exactly
      when a token was left, or the dispatcher was already past a pairing and yet to read
      signal_asign. */
  lemma ReopensEarlyIff(s: State, k: nat, newPc: nat)
    requires Inv(s) && Enabled(s, Evicts(k, newPc))
    ensures var q := Next(s, Evicts(k, newPc));
      (exists steps, r :: Leads(q, steps, false, r) && NoPairs(steps) && r.check == Abierto)
      <==> s.semAsign > 0 || s.disp == Emparejado
  {
    hide Inv, Next, Enabled, Leads, NoPairs, InsertAt, Without, AgingOf, Resume;
    var q := Next(s, Evicts(k, newPc));
    EvictedWaits(s, k, newPc);
    if s.semAsign > 0 {
      WakesAndReopens(q);
    } else if s.disp == Emparejado {
      SignalsAndReopens(q);
    } else {
      forall steps, r | Leads(q, steps, false, r) && NoPairs(steps)
        ensures r.check != Abierto
      {
        HeldLasts(q, steps, r);
      }
    }
  }

  lemma EvictedWaits(s: State, k: nat, newPc: nat)
    requires Inv(s) && Enabled(s, Evicts(k, newPc))
    ensures var q := Next(s, Evicts(k, newPc));
      q.signalAsign && q.check.Asignando? && q.vacante.Some? && q.semAsign == s.semAsign && q.disp == s.disp
  {
    hide InsertAt, Without, AgingOf;
  }

  /** The caller goes on. */
  function Reopened(s: State): State
    requires s.check.Asignando? && s.semAsign > 0
  {
    Resume(s.(semAsign := s.semAsign - 1, signalAsign := false, check := Abierto), s.check.caller)
  }

  lemma WakesAndReopens(s: State)
    requires s.check.Asignando? && s.semAsign > 0
    ensures Leads(s, [Wakes, Reopens], true, Reopened(s)) && Leads(s, [Wakes, Reopens], false, Reopened(s))
    ensures Reopened(s).check == Abierto && NoPairs([Wakes, Reopens])
  {
    var t := Next(s, Wakes);
    assert Next(t, Reopens) == Reopened(s);
    assert [Wakes, Reopens][1..] == [Reopens] && [Reopens][1..] == [];
  }

  lemma SignalsAndReopens(s: State)
    requires s.check.Asignando? && s.disp == Emparejado && s.signalAsign
    ensures exists r :: Leads(s, [Signals] + [Wakes, Reopens], false, r) && r.check == Abierto
    ensures NoPairs([Signals] + [Wakes, Reopens])
  {
    var t := Next(s, Signals);
    assert t == s.(semAsign := s.semAsign + 1, disp := Esperando);
    WakesAndReopens(t);
    assert [Signals][1..] == [];
    assert Leads(s, [Signals], false, t);
    LeadsTwice(s, [Signals], t, [Wakes, Reopens], false, Reopened(t));
  }

  // ---------------------------------------------------------------- a victim that ends first

  /** check_prior waits for a Worker that no longer has the victim. */
  ghost predicate Stuck(s: State) {
    && s.check.Desalojando? && s.check.worker < |s.workers| && !Told(s.workers[s.check.worker]) && !s.disp.EnMano?
  }

  /** If the victim ends its query before it is asked, the ready list never changes again. */
  lemma VictimEndsBlocks(s: State, a: Step)
    requires Stuck(s) && Enabled(s, a)
    ensures Stuck(Next(s, a)) && Next(s, a).ready == s.ready
  {
    hide AgingOf, InsertAt, Without, RemoveAt;
  }

  lemma VictimMayEnd(s: State)
    requires Inv(s) && s.check.Desalojando? && s.workers[s.check.worker].Atendiendo?
    ensures Enabled(s, Ends(s.check.worker)) && Stuck(Next(s, Ends(s.check.worker)))
  {
  }

  // ---------------------------------------------------------------- finished queries

  /** No query that has ended is in a list or with the dispatcher. */
  ghost predicate Out(s: State) {
    forall q :: q in s.acabadas ==> !Somewhere(s, q)
  }

  /** A second error of the same Worker before its consult, as two refused write-backs of one
      instruction send, finds its query ended and changes nothing. */
  lemma ErrorAgain(s: State, w: nat)
    requires Inv(s) && w < |s.workers| && s.workers[w].ConError?
    ensures Finished(s, w, s.workers[w]) == s
  {
    SplitInv(s);
    hide Inv;
    var q := s.workers[w].query;
    assert q !in s.exec && q in s.acabadas;
    WithoutDistinct<nat>(s.exec, q);
    assert s.workers[w := s.workers[w]] == s.workers && s.acabadas + {q} == s.acabadas;
  }

  /** A query that has ended comes back exactly when it ended with an error after its Worker was
      told to interrupt: the consult still evicts it. */
  lemma OutExact(s: State, a: Step)
    requires Inv(s) && Out(s) && Enabled(s, a)
    ensures Out(Next(s, a)) <==> !(a.Evicts? && s.workers[s.check.worker].ConError?)
  {
    hide Inv, Next, Enabled, Out;
    SplitInv(s);
    if a.Evicts? {
      OutEvicts(s, a);
    } else if a.Ends? || a.Fails? {
      OutFinished(s, a);
    } else {
      OutOthers(s, a);
    }
  }

  lemma OutEvicts(s: State, a: Step)
    requires Listed(s) && Paired(s) && Errored(s) && Out(s) && Enabled(s, a) && a.Evicts?
    ensures Out(Next(s, a)) <==> !s.workers[s.check.worker].ConError?
  {
    var q := s.workers[s.check.worker].query;
    VictimKnown(s, s.check.worker);
    InsertKeeps(s.ready, a.k, q);
    WithoutKeeps(s.exec, q);
    hide InsertAt, Without, Listed, Paired, Sorted;
    var r := Next(s, a);
    if s.workers[s.check.worker].ConError? {
      assert q in r.acabadas && Somewhere(r, q);
    } else {
      assert Somewhere(s, q);
    }
  }

  lemma VictimKnown(s: State, w: nat)
    requires Listed(s) && Paired(s) && Errored(s) && w < |s.workers| && Told(s.workers[w])
    ensures s.workers[w].query !in s.ready
    ensures s.workers[w].Atendiendo? ==> s.workers[w].query in s.exec
  {
  }

  lemma OutFinished(s: State, a: Step)
    requires Listed(s) && Paired(s) && Out(s) && Enabled(s, a) && (a.Ends? || a.Fails?)
    ensures Out(Next(s, a))
  {
    var q := s.workers[a.w].query;
    assert q in s.exec;
    WithoutKeeps(s.exec, q);
    hide Without;
  }

  lemma OutOthers(s: State, a: Step)
    requires Listed(s) && Errored(s) && Out(s) && Enabled(s, a) && !a.Evicts? && !a.Ends? && !a.Fails?
    ensures Out(Next(s, a))
  {
    hide InsertAt, AgingOf, RemoveAt, CheckPrior, Aged, Without, Sorted;
    match a
    case QueryArrives(q, _, k) => InsertKeeps(s.ready, k, q);
    case Pops => TailKeeps(s.ready);
    case Pairs => AppendKeeps(s.exec, s.disp.query);
    case Ages(i, k) => OutAges(s, i, k);
    case _ =>
  }

  lemma OutAges(s: State, i: nat, k: nat)
    requires Listed(s) && Out(s) && Enabled(s, Ages(i, k))
    ensures Out(Next(s, Ages(i, k)))
  {
    var q := s.aging[i].query;
    WithoutKeeps(s.ready, q);
    if q in s.ready && P(s.prio, q) > 0 { InsertKeeps(Without(s.ready, q), k, q); }
    hide InsertAt, Without, RemoveAt, AgingOf;
  }

  // ---------------------------------------------------------------- no free Worker waits for a query

  /** With a query ready and a Worker free, and nobody inside check_prior, the scheduler itself
      can go on. */
  lemma WorkConserving(s: State) returns (a: Step)
    requires Inv(s) && s.check == Abierto && s.ready != [] && HowManyFree(s.workers) > 0
    ensures Enabled(s, a)
    ensures (a in {ArrivalChecks, ArrivalPosts, WorkerPosted, TakesReady, TakesWorker, Pops, Pairs, Signals})
  {
    FreeFound(s.workers);
    match s.disp
    case EnMano(_) => a := Pairs;
    case Emparejado => a := Signals;
    case ConAmbos => a := Pops;
    case ConReady => a := if s.semWorkers > 0 then TakesWorker else WorkerPosted;
    case Esperando => a := if s.semReady > 0 then TakesReady else if s.llegada.EnLista? then ArrivalChecks
      else ArrivalPosts;
  }
}
