/** Each step of the scheduler keeps the invariant, so the dispatcher never fails. */
module SchedulerSteps {
  import opened StorageModel
  import opened Recency
  import opened SchedulerModel
  import opened SchedulerInvariant

  lemma BetterStays(s: State, r: State, p: int)
    requires BetterReady(s, p) && (forall q :: q in s.ready ==> q in r.ready && P(r.prio, q) <= P(s.prio, q))
    ensures BetterReady(r, p)
  {
  }

  /** Workers with an error keep their queries, which are not put in a list. */
  ghost predicate SameErrored(s: State, r: State) {
    && r.acabadas == s.acabadas && s.prio.Keys <= r.prio.Keys
    && forall w :: 0 <= w < |r.workers| && r.workers[w].ConError? ==>
         && w < |s.workers| && s.workers[w].ConError? && s.workers[w].query == r.workers[w].query
         && (Somewhere(r, r.workers[w].query) ==> Somewhere(s, r.workers[w].query))
  }

  lemma ErroredStays(s: State, r: State)
    requires Errored(s) && SameErrored(s, r)
    ensures Errored(r)
  {
    hide Somewhere;
  }

  lemma SplitInv(s: State)
    requires Inv(s)
    ensures Listed(s) && Priorities(s) && Paired(s) && Errored(s) && Tokens(s)
    ensures Preempting(s) && Signalling(s) && AgingSound(s) && Callers(s)
  {
  }

  lemma JoinInv(s: State)
    requires Listed(s) && Priorities(s) && Paired(s) && Errored(s) && Tokens(s)
    requires Preempting(s) && Signalling(s) && AgingSound(s) && Callers(s)
    ensures Inv(s)
  {
  }

  lemma ArrivesKeeps(s: State, q: nat, p: int, k: nat)
    requires Inv(s) && Enabled(s, QueryArrives(q, p, k)) && p >= 0
    ensures Inv(Next(s, QueryArrives(q, p, k)))
  {
    var r := Next(s, QueryArrives(q, p, k));
    InsertKeeps(s.ready, k, q);
    hide Inv, InsertAt;
    SplitInv(s);
    ArrivesLists(s, r, q);
    ArrivesErrored(s, r, q);
    ArrivesFlags(s, r, q);
    JoinInv(r);
  }

  /** A newcomer in the ready list. */
  ghost predicate Arrived(s: State, r: State, q: nat) {
    && q !in s.prio && q in r.prio && r.prio == s.prio[q := r.prio[q]] && r.prio[q] >= 0
    && r == s.(prio := r.prio, pc := r.pc, ready := r.ready, llegada := r.llegada)
    && s.llegada == Nadie && (r.llegada == PorAvisar(q) || (r.llegada == EnLista(q) && s.plan == PRIORIDADES))
    && Distinct(r.ready) && |r.ready| == |s.ready| + 1 && (forall x :: x in r.ready <==> x == q || x in s.ready)
    && (s.plan == PRIORIDADES ==> Sorted(r.prio, r.ready))
  }

  lemma ArrivesLists(s: State, r: State, q: nat)
    requires Listed(s) && Priorities(s) && Paired(s) && Tokens(s) && Arrived(s, r, q)
    ensures Listed(r) && Priorities(r) && Paired(r) && Tokens(r)
  {
    hide Sorted;
  }

  lemma ArrivesErrored(s: State, r: State, q: nat)
    requires Errored(s) && Arrived(s, r, q)
    ensures Errored(r)
  {
    hide Sorted;
    ErroredStays(s, r);
  }

  lemma ArrivesFlags(s: State, r: State, q: nat)
    requires Listed(s) && Preempting(s) && Signalling(s) && AgingSound(s) && Callers(s) && !ReadyLocked(s)
    requires Arrived(s, r, q)
    ensures Preempting(r) && Signalling(r) && AgingSound(r) && Callers(r)
  {
    hide Sorted;
    if s.vacante.Some? && !s.disp.EnMano? { BetterStays(s, r, s.vacante.value); }
  }

  /** Steps that only hand tokens and turns on. */
  predicate HandsOn(a: Step) {
    a.ArrivalPosts? || a.WorkerPosted? || a.TakesReady? || a.TakesWorker? || a.Signals? || a.Wakes? || a.Reopens?
  }

  lemma HandsOnKeeps(s: State, a: Step)
    requires Inv(s) && Enabled(s, a) && Permitted(s, a) && HandsOn(a)
    ensures Inv(Next(s, a))
  {
    hide Inv, Next, Enabled, Permitted, HandsOn, Quiet, SameErrored;
    hide Listed, Priorities, Paired, Errored, Tokens, Preempting, Signalling, AgingSound, Callers;
    SplitInv(s);
    var r := Next(s, a);
    HandsOnQuiet(s, a);
    QuietLists(s, r);
    ErroredStays(s, r);
    HandsOnFlags(s, a);
    HandsOnThreads(s, a);
    JoinInv(r);
  }

  lemma HandsOnQuiet(s: State, a: Step)
    requires Callers(s) && Enabled(s, a) && HandsOn(a)
    ensures Quiet(s, Next(s, a)) && SameErrored(s, Next(s, a))
  {
    hide AgingOf;
  }

  lemma HandsOnFlags(s: State, a: Step)
    requires Preempting(s) && Signalling(s) && Enabled(s, a) && HandsOn(a)
    ensures Preempting(Next(s, a)) && Signalling(Next(s, a))
  {
    hide AgingOf;
  }

  lemma HandsOnThreads(s: State, a: Step)
    requires Priorities(s) && AgingSound(s) && Callers(s) && Enabled(s, a) && Permitted(s, a) && HandsOn(a)
    ensures AgingSound(Next(s, a)) && Callers(Next(s, a))
  {
    hide Sorted;
    if a.ArrivalPosts? {
      PostsAging(s, Next(s, a), s.llegada.query);
    } else if a.Reopens? {
      ResumeThreads(s, s.(signalAsign := false, check := Abierto));
    }
  }

  lemma PostsAging(s: State, r: State, q: nat)
    requires Priorities(s) && AgingSound(s) && Callers(s) && s.llegada == PorAvisar(q) && !Live(s, q)
    requires r == s.(semReady := s.semReady + 1, llegada := Nadie, aging := s.aging + AgingOf(s, q))
    ensures AgingSound(r) && Callers(r)
  {
    hide Sorted;
  }

  /** Only tokens, threads and the waits of check_prior change, and each token is handed on. */
  ghost predicate Quiet(s: State, r: State) {
    && r == s.(semReady := r.semReady, semWorkers := r.semWorkers, avisos := r.avisos, disp := r.disp,
               llegada := r.llegada, aging := r.aging, check := r.check, signalAsign := r.signalAsign,
               semAsign := r.semAsign)
    && (r.disp.EnMano? <==> s.disp.EnMano?) && (r.disp.EnMano? ==> r.disp == s.disp)
    && Announced(r) == Announced(s)
    && r.semWorkers + r.avisos + (if r.disp.ConAmbos? then 1 else 0) ==
       s.semWorkers + s.avisos + (if s.disp.ConAmbos? then 1 else 0)
  }

  function Announced(s: State): nat {
    s.semReady + (if s.llegada != Nadie then 1 else 0) + (if s.disp.ConReady? || s.disp.ConAmbos? then 1 else 0)
  }

  lemma QuietLists(s: State, r: State)
    requires Listed(s) && Priorities(s) && Paired(s) && Tokens(s) && Quiet(s, r)
    ensures Listed(r) && Priorities(r) && Paired(r) && Tokens(r)
  {
    hide Sorted, HowManyFree;
  }

  /** With check_prior where it was. */
  lemma QuietFlags(s: State, r: State)
    requires Preempting(s) && Signalling(s) && Quiet(s, r)
    requires r.check == s.check && r.signalAsign == s.signalAsign && r.semAsign == s.semAsign
    requires s.disp == Emparejado ==> r.disp == Emparejado
    ensures Preempting(r) && Signalling(r)
  {
  }

  lemma WorkerArrivesKeeps(s: State)
    requires Inv(s) && Enabled(s, WorkerArrives)
    ensures Inv(Next(s, WorkerArrives))
  {
    hide Inv;
    var r := Next(s, WorkerArrives);
    SplitInv(s);
    FreeAppend(s.workers, Libre);
    hide Listed, Priorities, Paired, Errored, Tokens, Preempting, Signalling, AgingSound, Callers, Somewhere;
    hide HowManyFree;
    ArrivedOthers(s, r);
    ErroredStays(s, r);
    ArrivedPaired(s, r);
    ArrivedTokens(s, r);
    JoinInv(r);
  }

  lemma ArrivedTokens(s: State, r: State)
    requires Tokens(s) && Preempting(s) && r == s.(workers := s.workers + [Libre], avisos := s.avisos + 1)
    requires HowManyFree(r.workers) == HowManyFree(s.workers) + 1
    ensures Tokens(r) && Preempting(r)
  {
  }

  lemma ArrivedPaired(s: State, r: State)
    requires Paired(s) && r.workers == s.workers + [Libre] && r.exec == s.exec
    ensures Paired(r)
  {
    forall q | q in r.exec
      ensures exists w :: 0 <= w < |r.workers| && Runs(r.workers[w], q)
    {
      var w :| 0 <= w < |s.workers| && Runs(s.workers[w], q);
      assert Runs(r.workers[w], q);
    }
  }

  lemma ArrivedOthers(s: State, r: State)
    requires Listed(s) && Priorities(s) && Signalling(s) && AgingSound(s) && Callers(s)
    requires r == s.(workers := r.workers, avisos := r.avisos)
    ensures Listed(r) && Priorities(r) && Signalling(r) && AgingSound(r) && Callers(r)
  {
  }

  lemma PopsKeeps(s: State)
    requires Inv(s) && Enabled(s, Pops)
    ensures Inv(Next(s, Pops))
  {
    TailKeeps(s.ready);
    hide Inv;
    SplitInv(s);
    var r := Next(s, Pops);
    PopsLists(s, r);
    ErroredStays(s, r);
    PopsFlags(s, r);
    JoinInv(r);
  }

  lemma PopsLists(s: State, r: State)
    requires Listed(s) && Priorities(s) && Paired(s) && Tokens(s) && s.ready != [] && s.disp == ConAmbos
    requires r == s.(ready := s.ready[1..], disp := EnMano(s.ready[0]))
    requires Distinct(r.ready) && forall x :: x in r.ready <==> x in s.ready && x != s.ready[0]
    ensures Listed(r) && Priorities(r) && Paired(r) && Tokens(r)
  {
    assert s.ready[0] in s.ready;
    assert forall i :: 0 <= i < |r.ready| ==> r.ready[i] == s.ready[i + 1];
  }

  lemma PopsFlags(s: State, r: State)
    requires Priorities(s) && Preempting(s) && Signalling(s) && AgingSound(s) && Callers(s)
    requires s.ready != [] && s.disp == ConAmbos && !ReadyLocked(s)
    requires r == s.(ready := s.ready[1..], disp := EnMano(s.ready[0]))
    ensures Preempting(r) && Signalling(r) && AgingSound(r) && Callers(r)
  {
    if s.vacante.Some? && s.plan == PRIORIDADES {
      var q :| q in s.ready && P(s.prio, q) < s.vacante.value;
      HeadIsLeast(s.prio, s.ready, q);
    }
  }

  /** The dispatcher, with both tokens, finds a query and then a Worker. */
  lemma DispatcherNeverFails(s: State)
    requires Inv(s)
    ensures s.disp.ConAmbos? ==> s.ready != []
    ensures s.disp.EnMano? ==> FirstLibre(s.workers, 0).Some?
  {
    FreeFound(s.workers);
  }

  // ---------------------------------------------------------------- Workers

  /** A Worker with no query in execution changes, and stays without. */
  lemma WorkersFreed(s: State, r: State, w: nat, x: Worker)
    requires Paired(s) && w < |s.workers| && !s.workers[w].Atendiendo? && !x.Atendiendo?
    requires r.workers == s.workers[w := x] && r.exec == s.exec
    ensures Paired(r)
  {
    forall q | q in r.exec
      ensures exists v :: 0 <= v < |r.workers| && Runs(r.workers[v], q)
    {
      var v :| 0 <= v < |s.workers| && Runs(s.workers[v], q);
      assert Runs(r.workers[v], q);
    }
  }

  /** A Worker's query is taken off the list. */
  lemma WorkersDropped(s: State, r: State, w: nat, x: Worker)
    requires Listed(s) && Paired(s) && w < |s.workers| && s.workers[w].Atendiendo? && !x.Atendiendo?
    requires r.workers == s.workers[w := x] && r.exec == Without(s.exec, s.workers[w].query)
    ensures Paired(r) && Distinct(r.exec) && forall q :: q in r.exec <==> q in s.exec && q != s.workers[w].query
  {
    WithoutKeeps(s.exec, s.workers[w].query);
    forall q | q in r.exec
      ensures exists v :: 0 <= v < |r.workers| && Runs(r.workers[v], q)
    {
      var v :| 0 <= v < |s.workers| && Runs(s.workers[v], q);
      assert Runs(r.workers[v], q);
    }
  }

  /** A Worker moves on between states in which it has no query in execution. */
  lemma HandlerKeeps(s: State, a: Step)
    requires Inv(s) && Enabled(s, a) && (a.Releases? || a.Drops?)
    ensures Inv(Next(s, a))
  {
    hide Inv, Listed, Priorities, Paired, Errored, Tokens, Preempting, Signalling, AgingSound, Callers;
    hide HowManyFree, SameErrored;
    SplitInv(s);
    var r := Next(s, a);
    var x := if a.Releases? then Libre else PorLiberar;
    HandlerErrored(s, a);
    FreeUpdate(s.workers, a.w, x);
    WorkersFreed(s, r, a.w, x);
    HandlerRest(s, r, a.w, x);
    JoinInv(r);
  }

  lemma HandlerErrored(s: State, a: Step)
    requires Errored(s) && Enabled(s, a) && (a.Releases? || a.Drops?)
    ensures Errored(Next(s, a))
  {
    hide Errored;
    ErroredStays(s, Next(s, a));
  }

  lemma HandlerRest(s: State, r: State, w: nat, x: Worker)
    requires Listed(s) && Priorities(s) && Tokens(s) && Preempting(s) && Signalling(s) && AgingSound(s) && Callers(s)
    requires w < |s.workers| && !Told(s.workers[w]) && (x == Libre || x == PorLiberar)
    requires r == s.(workers := s.workers[w := x], avisos := if x == Libre then s.avisos + 1 else s.avisos)
    requires HowManyFree(r.workers) == HowManyFree(s.workers) + if x == Libre then 1 else 0
    ensures Listed(r) && Priorities(r) && Tokens(r) && Preempting(r) && Signalling(r) && AgingSound(r) && Callers(r)
  {
    hide Sorted, HowManyFree;
  }

  /** A query ends, with EXIT or with an error. */
  lemma FinishedKeeps(s: State, w: nat, next: Worker)
    requires Inv(s) && w < |s.workers| && s.workers[w].Atendiendo?
    requires if next == PorLiberar then !s.workers[w].interrumpir
      else next == ConError(s.workers[w].query, s.workers[w].interrumpir)
    ensures Inv(Finished(s, w, next))
  {
    hide Inv;
    SplitInv(s);
    var r := Finished(s, w, next);
    FreeUpdate(s.workers, w, next);
    WorkersDropped(s, r, w, next);
    hide Without, Finished;
    FinishedLists(s, r, w, next);
    FinishedErrored(s, r, w, next);
    FinishedFlags(s, r, w, next);
    JoinInv(r);
  }

  lemma FinishedLists(s: State, r: State, w: nat, next: Worker)
    requires Listed(s) && Priorities(s) && Tokens(s) && w < |s.workers| && s.workers[w].Atendiendo?
    requires r == s.(exec := r.exec, workers := s.workers[w := next], acabadas := r.acabadas)
    requires Distinct(r.exec) && forall q :: q in r.exec <==> q in s.exec && q != s.workers[w].query
    requires HowManyFree(r.workers) == HowManyFree(s.workers)
    ensures Listed(r) && Priorities(r) && Tokens(r)
  {
  }

  lemma FinishedErrored(s: State, r: State, w: nat, next: Worker)
    requires Listed(s) && Paired(s) && Errored(s) && w < |s.workers| && s.workers[w].Atendiendo?
    requires next == PorLiberar || (next.ConError? && next.query == s.workers[w].query)
    requires r == s.(exec := r.exec, workers := s.workers[w := next], acabadas := s.acabadas + {s.workers[w].query})
    requires forall q :: q in r.exec <==> q in s.exec && q != s.workers[w].query
    ensures Errored(r)
  {
    assert s.workers[w].query in s.exec;
  }

  lemma FinishedFlags(s: State, r: State, w: nat, next: Worker)
    requires Preempting(s) && Signalling(s) && AgingSound(s) && Callers(s)
    requires w < |s.workers| && s.workers[w].Atendiendo?
    requires if next == PorLiberar then !s.workers[w].interrumpir
      else next == ConError(s.workers[w].query, s.workers[w].interrumpir)
    requires r == s.(exec := r.exec, workers := s.workers[w := next], acabadas := r.acabadas)
    ensures Preempting(r) && Signalling(r) && AgingSound(r) && Callers(r)
  {
  }

  // ---------------------------------------------------------------- the dispatcher

  lemma PairsKeeps(s: State)
    requires Inv(s) && Enabled(s, Pairs)
    ensures Inv(Next(s, Pairs))
  {
    hide Inv;
    SplitInv(s);
    var (q, w) := (s.disp.query, FirstLibre(s.workers, 0).value);
    var r := Next(s, Pairs);
    FreeUpdate(s.workers, w, Atendiendo(q, false));
    AppendKeeps(s.exec, q);
    WorkersPaired(s, r, q, w);
    hide Paired;
    PairedLists(s, r);
    ErroredStays(s, r);
    PairedFlags(s, r, w);
    JoinInv(r);
  }

  lemma PairedLists(s: State, r: State)
    requires Listed(s) && Priorities(s) && Tokens(s) && s.disp.EnMano?
    requires r == s.(exec := s.exec + [s.disp.query], workers := r.workers, disp := Emparejado, vacante := None)
    requires Distinct(r.exec) && (forall x :: x in r.exec <==> x in s.exec || x == s.disp.query)
    requires HowManyFree(r.workers) == HowManyFree(s.workers) - 1
    ensures Listed(r) && Priorities(r) && Tokens(r)
  {
  }

  lemma PairedFlags(s: State, r: State, w: nat)
    requires Preempting(s) && Signalling(s) && AgingSound(s) && Callers(s) && s.disp.EnMano? && w < |s.workers|
    requires s.workers[w] == Libre
    requires r == s.(exec := r.exec, workers := s.workers[w := Atendiendo(s.disp.query, false)], disp := Emparejado,
                     vacante := None)
    ensures Preempting(r) && Signalling(r) && AgingSound(r) && Callers(r)
  {
  }

  /** check_prior is left, and its caller goes on. */
  lemma ResumeThreads(s: State, r: State)
    requires Priorities(s) && AgingSound(s) && Callers(s) && s.check.Reabriendo?
    requires r == s.(signalAsign := false, check := Abierto)
    ensures var z := Resume(r, s.check.caller); AgingSound(z) && Callers(z)
  {
    hide Sorted;
  }

  lemma WorkersPaired(s: State, r: State, q: nat, w: nat)
    requires Paired(s) && w < |s.workers| && s.workers[w] == Libre && q !in s.exec
    requires r.workers == s.workers[w := Atendiendo(q, false)] && r.exec == s.exec + [q]
    ensures Paired(r)
  {
    forall x | x in r.exec
      ensures exists v :: 0 <= v < |r.workers| && Runs(r.workers[v], x)
    {
      if x == q {
        assert Runs(r.workers[w], x);
      } else {
        var v :| 0 <= v < |s.workers| && Runs(s.workers[v], x);
        assert Runs(r.workers[v], x);
      }
    }
  }

  // ---------------------------------------------------------------- check_prior

  /** A victim is only chosen when every Worker is busy and a strictly better query is ready. */
  lemma ChosenIn(s: State)
    requires Paired(s) && Tokens(s) && CheckPrior(s).Desaloja?
    ensures var w := CheckPrior(s).worker;
      && w < |s.workers| && s.workers[w].Atendiendo? && s.workers[w].query in s.exec
      && s.ready != [] && P(s.prio, s.ready[0]) < P(s.prio, s.workers[w].query)
      && HowManyFree(s.workers) == 0 && !s.disp.ConAmbos? && !s.disp.EnMano?
  {
    FreeFound(s.workers);
  }

  /** check_prior is called by somebody who is nowhere else. */
  ghost predicate Calling(s: State, caller: Caller) {
    && s.check == Abierto && s.plan == PRIORIDADES && caller.query in s.prio && !CheckPrior(s).Cae?
    && (s.llegada != Nadie ==> s.llegada.query in s.prio)
    && if caller.DeLlegada? then s.llegada == EnConsulta(caller.query)
       else !s.llegada.EnConsulta? && forall i :: 0 <= i < |s.aging| ==> s.aging[i].query != caller.query
  }

  lemma CheckedKeeps(s: State, caller: Caller)
    requires Listed(s) && Priorities(s) && Paired(s) && Errored(s) && Tokens(s) && Preempting(s) && Signalling(s)
    requires AgingSound(s) && Calling(s, caller)
    ensures Inv(Checked(s, caller))
  {
    hide Inv, CheckPrior, Listed, Priorities, Paired, Errored, Tokens, Preempting, Signalling, AgingSound;
    hide Callers, Quiet;
    var r := Checked(s, caller);
    CheckedErrored(s, caller);
    if CheckPrior(s).Desaloja? {
      ChosenIn(s);
      var w := CheckPrior(s).worker;
      FlaggedLists(s, r, w);
      FlaggedPreempting(s, r, w);
      FlaggedRest(s, r, caller, w);
    } else {
      GoesOn(s, r, caller);
      QuietLists(s, r);
    }
    JoinInv(r);
  }

  lemma CheckedErrored(s: State, caller: Caller)
    requires Errored(s)
    ensures Errored(Checked(s, caller))
  {
    hide CheckPrior, Errored, AgingOf;
    ErroredStays(s, Checked(s, caller));
  }

  lemma FlaggedRest(s: State, r: State, caller: Caller, w: nat)
    requires Listed(s) && Priorities(s) && Signalling(s) && AgingSound(s) && Calling(s, caller)
    requires r == s.(workers := r.workers, check := Desalojando(w, caller), signalAsign := true)
    ensures Listed(r) && Priorities(r) && Signalling(r) && AgingSound(r) && Callers(r)
  {
    hide Sorted, CheckPrior;
  }

  lemma GoesOn(s: State, r: State, caller: Caller)
    requires Priorities(s) && Preempting(s) && Signalling(s) && AgingSound(s) && Calling(s, caller)
    requires r == Resume(s, caller)
    ensures Quiet(s, r) && Preempting(r) && Signalling(r) && AgingSound(r) && Callers(r)
  {
    hide Sorted, CheckPrior;
  }

  /** The victim's Worker is told; nothing else about the lists changes. */
  lemma FlaggedLists(s: State, r: State, w: nat)
    requires Paired(s) && Tokens(s) && w < |s.workers| && s.workers[w].Atendiendo?
    requires r.workers == s.workers[w := Atendiendo(s.workers[w].query, true)] && r.exec == s.exec && r.ready == s.ready
    requires r.semReady == s.semReady && r.semWorkers == s.semWorkers && r.avisos == s.avisos && r.disp == s.disp
    requires r.llegada == s.llegada
    ensures Paired(r) && Tokens(r)
  {
    FreeUpdate(s.workers, w, Atendiendo(s.workers[w].query, true));
    forall q | q in r.exec
      ensures exists v :: 0 <= v < |r.workers| && Runs(r.workers[v], q)
    {
      var v :| 0 <= v < |s.workers| && Runs(s.workers[v], q);
      assert Runs(r.workers[v], q);
    }
  }

  lemma FlaggedPreempting(s: State, r: State, w: nat)
    requires Preempting(s) && s.check == Abierto && w < |s.workers| && s.workers[w].Atendiendo? && !s.disp.EnMano?
    requires r.workers == s.workers[w := Atendiendo(s.workers[w].query, true)]
    requires r.check.Desalojando? && r.check.worker == w && r.ready == s.ready && r.prio == s.prio && r.disp == s.disp
    requires r.vacante == s.vacante
    requires s.ready != [] && P(s.prio, s.ready[0]) < P(s.prio, s.workers[w].query)
    ensures Preempting(r)
  {
    assert s.ready[0] in r.ready;
  }

  lemma ArrivalChecksKeeps(s: State)
    requires Inv(s) && Enabled(s, ArrivalChecks)
    ensures Inv(Next(s, ArrivalChecks))
  {
    var s1 := s.(llegada := EnConsulta(s.llegada.query));
    assert CheckPrior(s1) == CheckPrior(s) by { SameCheck(s, s1); }
    hide CheckPrior, Checked;
    CheckedKeeps(s1, DeLlegada(s.llegada.query));
  }

  lemma {:induction false} SameVictim(s: State, r: State, i: nat, best: nat)
    requires r.prio == s.prio && r.exec == s.exec && r.workers == s.workers && best < |s.exec|
    ensures Victima(r, i, best) == Victima(s, i, best)
    decreases |s.exec| - i
  {
    if i < |s.exec| {
      var worse := P(s.prio, s.exec[i]) > P(s.prio, s.exec[best]) && !Interrupted(s.workers, s.exec[i]);
      SameVictim(s, r, i + 1, if worse then i else best);
    }
  }

  lemma SameCheck(s: State, r: State)
    requires r.prio == s.prio && r.exec == s.exec && r.workers == s.workers && r.ready == s.ready
    ensures CheckPrior(r) == CheckPrior(s)
  {
    if s.exec != [] { SameVictim(s, r, 1, 0); }
  }

  lemma AgeChecksKeeps(s: State, i: nat)
    requires Inv(s) && Enabled(s, AgeChecks(i))
    ensures Inv(Next(s, AgeChecks(i)))
  {
    hide Inv, CheckPrior, Checked;
    SplitInv(s);
    var s1 := s.(aging := RemoveAt(s.aging, i));
    var q := s.aging[i].query;
    SameCheck(s, s1);
    WokenAging(s, s1, i);
    hide Priorities, Paired, Errored, Tokens, Preempting, AgingSound, Callers, Somewhere, RemoveAt;
    QuietLists(s, s1);
    ErroredStays(s, s1);
    QuietFlags(s, s1);
    CheckedKeeps(s1, DeEdad(q));
  }

  lemma WokenAging(s: State, s1: State, i: nat)
    requires AgingSound(s) && Callers(s) && i < |s.aging| && s1 == s.(aging := RemoveAt(s.aging, i))
    requires s.check == Abierto
    requires CheckPrior(s1) == CheckPrior(s) && !CheckPrior(s).Cae?
    ensures AgingSound(s1) && Calling(s1, DeEdad(s.aging[i].query))
  {
    hide CheckPrior;
    assert forall j :: 0 <= j < |s1.aging| ==> s1.aging[j] == s.aging[if j < i then j else j + 1];
  }

  // ---------------------------------------------------------------- aging

  lemma AgesKeeps(s: State, i: nat, k: nat)
    requires Inv(s) && Enabled(s, Ages(i, k))
    ensures Inv(Next(s, Ages(i, k)))
  {
    hide Inv, Next, Aged, InsertAt, Without;
    if s.aging[i].query in s.ready {
      StaysKeeps(s, i, k);
    } else {
      GoneKeeps(s, i, k);
    }
  }

  lemma StaysKeeps(s: State, i: nat, k: nat)
    requires Inv(s) && Enabled(s, Ages(i, k)) && s.aging[i].query in s.ready
    ensures Inv(Next(s, Ages(i, k)))
  {
    hide Inv, InsertAt, Without;
    SplitInv(s);
    var r := Next(s, Ages(i, k));
    assert P(s.prio, s.aging[i].query) > 0;
    hide Listed, Priorities, Paired, Errored, Tokens, Preempting, Signalling, AgingSound, Callers;
    AgedLists(s, i, k);
    AgedFlags(s, i, k);
    ErroredStays(s, r);
    JoinInv(r);
  }

  lemma GoneKeeps(s: State, i: nat, k: nat)
    requires Inv(s) && Enabled(s, Ages(i, k)) && s.aging[i].query !in s.ready
    ensures Inv(Next(s, Ages(i, k)))
  {
    hide Inv, InsertAt, Without, AgingOf;
    SplitInv(s);
    var r := Next(s, Ages(i, k));
    hide Listed, Priorities, Paired, Errored, Tokens, Preempting, Signalling, AgingSound, Callers, Somewhere, RemoveAt;
    QuietLists(s, r);
    ErroredStays(s, r);
    GoneAging(s, i, k);
    JoinInv(r);
  }

  lemma GoneAging(s: State, i: nat, k: nat)
    requires Preempting(s) && Signalling(s) && AgingSound(s) && Callers(s)
    requires i < |s.aging| && s.aging[i].query !in s.ready
    ensures var r := Aged(s, i, k); Preempting(r) && Signalling(r) && AgingSound(r) && Callers(r)
  {
    var r := Aged(s, i, k);
    assert forall j :: 0 <= j < |r.aging| ==> r.aging[j] == s.aging[if j < i then j else j + 1];
  }

  /** The query's priority improves by one and it stays ready. */
  lemma AgedLists(s: State, i: nat, k: nat)
    requires Listed(s) && Priorities(s) && Paired(s) && Tokens(s) && Callers(s)
    requires i < |s.aging| && s.aging[i].Dormido? && s.aging[i].query in s.ready && P(s.prio, s.aging[i].query) > 0
    requires var q := s.aging[i].query; Placed(s, s.prio[q := P(s.prio, q) - 1], Without(s.ready, q), k, q)
    ensures var r := Aged(s, i, k);
      && Listed(r) && Priorities(r) && Paired(r) && Tokens(r) && Callers(r)
      && (forall x :: x in r.ready <==> x in s.ready) && forall x :: x in s.ready ==> P(r.prio, x) <= P(s.prio, x)
  {
    var q := s.aging[i].query;
    WithoutKeeps(s.ready, q);
    InsertKeeps(Without(s.ready, q), k, q);
    hide InsertAt, Without, Paired, Tokens, Callers;
    var r := Aged(s, i, k);
    AgedTokens(s, r);
    AgedOthers(s, r);
  }

  lemma AgedFlags(s: State, i: nat, k: nat)
    requires Listed(s) && Preempting(s) && Signalling(s) && AgingSound(s) && !ReadyLocked(s)
    requires i < |s.aging| && s.aging[i].Dormido? && s.aging[i].query in s.ready && P(s.prio, s.aging[i].query) > 0
    requires k <= |Without(s.ready, s.aging[i].query)|
    requires var r := Aged(s, i, k); forall x :: x in s.ready ==> x in r.ready && P(r.prio, x) <= P(s.prio, x)
    ensures var r := Aged(s, i, k); Preempting(r) && Signalling(r) && AgingSound(r)
  {
    var r := Aged(s, i, k);
    hide InsertAt, Without;
    if s.vacante.Some? && !s.disp.EnMano? { BetterStays(s, r, s.vacante.value); }
  }

  lemma AgedTokens(s: State, r: State)
    requires Tokens(s) && |r.ready| == |s.ready| && r.workers == s.workers && r.semReady == s.semReady
    requires r.semWorkers == s.semWorkers && r.avisos == s.avisos && r.disp == s.disp && r.llegada == s.llegada
    ensures Tokens(r)
  {
  }

  lemma AgedOthers(s: State, r: State)
    requires Paired(s) && Callers(s) && r.workers == s.workers && r.exec == s.exec && s.plan == PRIORIDADES
    requires r.llegada == s.llegada && r.check == s.check && r.plan == s.plan && s.prio.Keys <= r.prio.Keys
    requires r.vacante == s.vacante
    ensures Paired(r) && Callers(r)
  {
  }

  // ---------------------------------------------------------------- eviction

  lemma EvictsKeeps(s: State, k: nat, newPc: nat)
    requires Inv(s) && Enabled(s, Evicts(k, newPc)) && Permitted(s, Evicts(k, newPc))
    ensures Inv(Next(s, Evicts(k, newPc)))
  {
    hide Inv, Tokens, Preempting, Signalling, AgingSound, Callers, Live, AgingOf;
    SplitInv(s);
    var (w, q) := (s.check.worker, s.workers[s.check.worker].query);
    var r := Next(s, Evicts(k, newPc));
    assert q !in s.ready && s.disp != EnMano(q) && q in s.prio && P(s.prio, q) >= 0 by { VictimPlace(s, w); }
    InsertKeeps(s.ready, k, q);
    FreeUpdate(s.workers, w, PorLiberar);
    EvictsPaired(s, r, w);
    hide InsertAt, Without, HowManyFree, Paired, Errored;
    EvictsRest(s, r, w);
  }

  lemma EvictsRest(s: State, r: State, w: nat)
    requires Inv(s) && s.check.Desalojando? && w == s.check.worker && Told(s.workers[w])
    requires var q := s.workers[w].query;
      && Evicted(s, r, q) && P(s.prio, q) >= 0 && !Live(s, q) && r.aging == s.aging + AgingOf(s, q)
    requires r.workers == s.workers[w := PorLiberar] && r.check == Asignando(s.check.caller) && Paired(r)
    requires HowManyFree(r.workers) == HowManyFree(s.workers)
    ensures Inv(r)
  {
    hide Inv, Listed, Priorities, Paired, Errored, Tokens, Signalling, AgingSound, Callers;
    hide AgingOf, Live, HowManyFree;
    SplitInv(s);
    EvictsLists(s, r, s.workers[w].query);
    EvictsErrored(s, r, w);
    EvictsFlags(s, r, w);
    EvictsAging(s, r, s.workers[w].query);
    JoinInv(r);
  }

  /** The victim is known, and neither ready nor with the dispatcher. */
  lemma VictimPlace(s: State, w: nat)
    requires Listed(s) && Paired(s) && Errored(s) && Priorities(s) && w < |s.workers| && Told(s.workers[w])
    ensures var q := s.workers[w].query; q !in s.ready && s.disp != EnMano(q) && q in s.prio && P(s.prio, q) >= 0
  {
  }

  lemma EvictsPaired(s: State, r: State, w: nat)
    requires Listed(s) && Paired(s) && Errored(s) && w < |s.workers| && Told(s.workers[w])
    requires r.workers == s.workers[w := PorLiberar] && r.exec == Without(s.exec, s.workers[w].query)
    ensures Paired(r) && Distinct(r.exec) && forall q :: q in r.exec <==> q in s.exec && q != s.workers[w].query
  {
    if s.workers[w].Atendiendo? {
      WorkersDropped(s, r, w, PorLiberar);
    } else {
      WithoutAbsent(s.exec, s.workers[w].query);
      WorkersFreed(s, r, w, PorLiberar);
    }
  }

  /** What an eviction does to the lists. */
  ghost predicate Evicted(s: State, r: State, q: nat) {
    && r == s.(exec := r.exec, ready := r.ready, pc := r.pc, aging := r.aging, semReady := s.semReady + 1,
               workers := r.workers, check := r.check, vacante := Some(P(s.prio, q)))
    && q !in s.ready && s.disp != EnMano(q) && q in s.prio
    && Distinct(r.exec) && (forall x :: x in r.exec <==> x in s.exec && x != q)
    && Distinct(r.ready) && |r.ready| == |s.ready| + 1 && (forall x :: x in r.ready <==> x == q || x in s.ready)
    && (s.plan == PRIORIDADES ==> Sorted(s.prio, r.ready))
  }

  lemma EvictsLists(s: State, r: State, q: nat)
    requires Listed(s) && Priorities(s) && Tokens(s) && Evicted(s, r, q)
    requires HowManyFree(r.workers) == HowManyFree(s.workers)
    ensures Listed(r) && Priorities(r) && Tokens(r)
  {
    hide Sorted, HowManyFree;
  }

  lemma EvictsErrored(s: State, r: State, w: nat)
    requires Errored(s) && Paired(s) && Listed(s) && w < |s.workers| && Told(s.workers[w])
    requires Evicted(s, r, s.workers[w].query) && r.workers == s.workers[w := PorLiberar]
    ensures Errored(r)
  {
    hide Sorted;
    var q := s.workers[w].query;
    forall v | 0 <= v < |r.workers| && r.workers[v].ConError?
      ensures s.workers[v] == r.workers[v] && (Somewhere(r, r.workers[v].query) ==> Somewhere(s, r.workers[v].query))
    {
      assert s.workers[v].query != q;
    }
    ErroredStays(s, r);
  }

  lemma EvictsFlags(s: State, r: State, w: nat)
    requires Preempting(s) && Signalling(s) && s.check.Desalojando? && s.check.worker == w && w < |s.workers|
    requires Evicted(s, r, s.workers[w].query) && r.workers == s.workers[w := PorLiberar]
    requires r.check == Asignando(s.check.caller)
    ensures Preempting(r) && Signalling(r)
  {
    hide Sorted;
    BetterStays(s, r, P(s.prio, s.workers[w].query));
  }

  lemma EvictsAging(s: State, r: State, q: nat)
    requires AgingSound(s) && Callers(s) && s.check.Desalojando? && !Live(s, q)
    requires Evicted(s, r, q) && P(s.prio, q) >= 0 && r.check == Asignando(s.check.caller)
    requires r.aging == s.aging + AgingOf(s, q)
    ensures AgingSound(r) && Callers(r)
  {
    hide Sorted;
  }

  // ---------------------------------------------------------------- every step

  lemma StepKeepsInv(s: State, a: Step)
    requires Inv(s) && Enabled(s, a) && Permitted(s, a)
    ensures Inv(Next(s, a))
  {
    hide Inv, Finished;
    match a
    case QueryArrives(q, p, k) => ArrivesKeeps(s, q, p, k);
    case ArrivalChecks => ArrivalChecksKeeps(s);
    case ArrivalPosts => HandsOnKeeps(s, a);
    case WorkerArrives => WorkerArrivesKeeps(s);
    case WorkerPosted => HandsOnKeeps(s, a);
    case TakesReady => HandsOnKeeps(s, a);
    case TakesWorker => HandsOnKeeps(s, a);
    case Pops => PopsKeeps(s);
    case Pairs => PairsKeeps(s);
    case Signals => HandsOnKeeps(s, a);
    case Wakes => HandsOnKeeps(s, a);
    case Reopens => HandsOnKeeps(s, a);
    case Ages(i, k) => AgesKeeps(s, i, k);
    case AgeChecks(i) => AgeChecksKeeps(s, i);
    case Evicts(k, newPc) => EvictsKeeps(s, k, newPc);
    case Ends(w) => FinishedKeeps(s, w, PorLiberar);
    case Fails(w) => FinishedKeeps(s, w, ConError(s.workers[w].query, s.workers[w].interrumpir));
    case Drops(_) => HandlerKeeps(s, a);
    case Releases(_) => HandlerKeeps(s, a);
  }
}
