/** Runs from an empty Master in which the scheduler does what it should not: a query dropped by a
    second aging thread, check_prior with nothing ready, a finished query executed again, and a
    second query evicted for the place of the first. */
module SchedulerCounterexamples {
  import opened StorageModel
  import opened Recency
  import opened SchedulerModel
  import opened SchedulerInvariant
  import opened SchedulerRuns

  lemma LeadsNowhere(s: State, allowed: bool)
    ensures Leads(s, [], allowed, s)
  {
  }

  lemma LeadsOn(s: State, steps: seq<Step>, q: State, a: Step, allowed: bool, r: State, longer: seq<Step>)
    requires Leads(s, steps, allowed, q) && Enabled(q, a) && (allowed ==> Permitted(q, a)) && Next(q, a) == r
    requires longer == steps + [a]
    ensures Leads(s, longer, allowed, r)
  {
    OneStep(q, a, allowed, r);
    LeadsTwice(s, steps, q, [a], allowed, r);
  }

  lemma OneStep(s: State, a: Step, allowed: bool, r: State)
    requires Enabled(s, a) && (allowed ==> Permitted(s, a)) && Next(s, a) == r
    ensures Leads(s, [a], allowed, r)
  {
    hide Next, Enabled, Permitted;
    assert [a][1..] == [] && Leads(r, [], allowed, r);
  }

  // ---------------------------------------------------------------- the usual steps

  function JoinSteps(): seq<Step> { [WorkerArrives, WorkerPosted] }

  /** A Worker connects. */
  lemma Joins(s: State, allowed: bool)
    requires s.llegada == Nadie
    ensures Leads(s, JoinSteps(), allowed, s.(workers := s.workers + [Libre], semWorkers := s.semWorkers + 1))
  {
    hide Leads;
    var m := s.(workers := s.workers + [Libre], avisos := s.avisos + 1);
    OneStep(s, WorkerArrives, allowed, m);
    LeadsOn(s, [WorkerArrives], m, WorkerPosted, allowed,
            s.(workers := s.workers + [Libre], semWorkers := s.semWorkers + 1), JoinSteps());
  }

  function ReleaseSteps(w: nat): seq<Step> { [Releases(w), WorkerPosted] }

  /** A Worker is done with its query. */
  lemma FreesWorker(s: State, w: nat, allowed: bool)
    requires w < |s.workers| && s.workers[w] == PorLiberar
    ensures Leads(s, ReleaseSteps(w), allowed, s.(workers := s.workers[w := Libre], semWorkers := s.semWorkers + 1))
  {
    hide Leads;
    var m := s.(workers := s.workers[w := Libre], avisos := s.avisos + 1);
    OneStep(s, Releases(w), allowed, m);
    LeadsOn(s, [Releases(w)], m, WorkerPosted, allowed,
            s.(workers := s.workers[w := Libre], semWorkers := s.semWorkers + 1), ReleaseSteps(w));
  }

  function TakeSteps(): seq<Step> { [TakesReady, TakesWorker] }

  lemma Takes(s: State, allowed: bool)
    requires s.disp == Esperando && s.semReady > 0 && s.semWorkers > 0
    ensures Leads(s, TakeSteps(), allowed,
      s.(semReady := s.semReady - 1, semWorkers := s.semWorkers - 1, disp := ConAmbos))
  {
    hide Leads;
    var m := s.(semReady := s.semReady - 1, disp := ConReady);
    OneStep(s, TakesReady, allowed, m);
    LeadsOn(s, [TakesReady], m, TakesWorker, allowed,
            s.(semReady := s.semReady - 1, semWorkers := s.semWorkers - 1, disp := ConAmbos), TakeSteps());
  }

  /** The dispatcher has both tokens, the list is its own and Worker `w` is the first free one. */
  ghost predicate Dispatchable(s: State, w: nat) {
    && s.disp == Esperando && s.semReady > 0 && s.semWorkers > 0 && !ReadyLocked(s) && s.ready != []
    && FirstLibre(s.workers, 0) == Some(w) && w < |s.workers|
  }

  /** The head of the list runs on Worker `w`. */
  function WithPair(s: State, w: nat): State
    requires s.semReady > 0 && s.semWorkers > 0 && s.ready != [] && w < |s.workers|
  {
    s.(semReady := s.semReady - 1, semWorkers := s.semWorkers - 1, ready := s.ready[1..], exec := s.exec + [s.ready[0]],
       workers := s.workers[w := Atendiendo(s.ready[0], false)], disp := Emparejado, vacante := None)
  }

  function PairSteps(): seq<Step> { [TakesReady, TakesWorker, Pops, Pairs] }

  lemma PairsUp(s: State, w: nat, allowed: bool)
    requires Dispatchable(s, w)
    ensures Leads(s, PairSteps(), allowed, WithPair(s, w))
  {
    hide Leads;
    Takes(s, allowed);
    var b := s.(semReady := s.semReady - 1, semWorkers := s.semWorkers - 1, disp := ConAmbos);
    var c := b.(ready := s.ready[1..], disp := EnMano(s.ready[0]));
    LeadsOn(s, TakeSteps(), b, Pops, allowed, c, [TakesReady, TakesWorker, Pops]);
    LeadsOn(s, [TakesReady, TakesWorker, Pops], c, Pairs, allowed, WithPair(s, w), PairSteps());
  }

  function DispatchSteps(): seq<Step> { PairSteps() + [Signals] }

  function WithDispatch(s: State, w: nat): State
    requires s.semReady > 0 && s.semWorkers > 0 && s.ready != [] && w < |s.workers|
  {
    WithPair(s, w).(disp := Esperando, semAsign := if s.signalAsign then s.semAsign + 1 else s.semAsign)
  }

  /** A whole turn of the dispatcher. */
  lemma DispatchesHead(s: State, w: nat, allowed: bool)
    requires Dispatchable(s, w)
    ensures Leads(s, DispatchSteps(), allowed, WithDispatch(s, w))
  {
    hide Leads;
    PairsUp(s, w, allowed);
    LeadsOn(s, PairSteps(), WithPair(s, w), Signals, allowed, WithDispatch(s, w), DispatchSteps());
  }

  function ArriveSteps(q: nat, p: int, k: nat): seq<Step> { [QueryArrives(q, p, k), ArrivalChecks, ArrivalPosts] }

  /** A query arrives while a Worker is free. */
  ghost predicate Welcome(s: State, q: nat, p: int, k: nat) {
    && s.plan == PRIORIDADES && s.llegada == Nadie && s.check == Abierto && FirstLibre(s.workers, 0).Some?
    && q !in s.prio && p >= 0 && Placed(s, s.prio[q := p], s.ready, k, q)
    && forall i :: 0 <= i < |s.aging| ==> s.aging[i].query != q
  }

  function WithQuery(s: State, q: nat, p: int, k: nat): State
    requires k <= |s.ready|
  {
    s.(prio := s.prio[q := p], pc := s.pc[q := 0], ready := InsertAt(s.ready, k, q), semReady := s.semReady + 1,
       aging := s.aging + if s.plan == PRIORIDADES && s.edad && p != 0 then [Dormido(q)] else [])
  }

  lemma ArrivesFreely(s: State, q: nat, p: int, k: nat, allowed: bool)
    requires Welcome(s, q, p, k)
    ensures Leads(s, ArriveSteps(q, p, k), allowed, WithQuery(s, q, p, k))
  {
    hide Leads, InsertAt, Sorted;
    var a := s.(prio := s.prio[q := p], pc := s.pc[q := 0], ready := InsertAt(s.ready, k, q), llegada := EnLista(q));
    var b := a.(llegada := PorAvisar(q));
    OneStep(s, QueryArrives(q, p, k), allowed, a);
    LeadsOn(s, [QueryArrives(q, p, k)], a, ArrivalChecks, allowed, b, [QueryArrives(q, p, k), ArrivalChecks]);
    LeadsOn(s, [QueryArrives(q, p, k), ArrivalChecks], b, ArrivalPosts, allowed, WithQuery(s, q, p, k),
            ArriveSteps(q, p, k));
  }

  function PostSteps(): seq<Step> { [Wakes, Reopens, ArrivalPosts] }

  /** check_prior is told, and the arriving query it was for is announced. */
  function WithPost(s: State, q: nat): State
    requires s.semAsign > 0
  {
    s.(semAsign := s.semAsign - 1, check := Abierto, signalAsign := false, llegada := Nadie, semReady := s.semReady + 1,
       aging := s.aging + AgingOf(s, q))
  }

  lemma WakesAndPosts(s: State, q: nat, allowed: bool)
    requires s.check == Asignando(DeLlegada(q)) && s.semAsign > 0 && s.llegada == EnConsulta(q)
    requires allowed ==> forall i :: 0 <= i < |s.aging| ==> s.aging[i].query != q
    ensures Leads(s, PostSteps(), allowed, WithPost(s, q))
  {
    hide Leads;
    var a := s.(semAsign := s.semAsign - 1, check := Reabriendo(DeLlegada(q)));
    var b := a.(check := Abierto, signalAsign := false, llegada := PorAvisar(q));
    OneStep(s, Wakes, allowed, a);
    LeadsOn(s, [Wakes], a, Reopens, allowed, b, [Wakes, Reopens]);
    assert AgingOf(b, q) == AgingOf(s, q);
    LeadsOn(s, [Wakes, Reopens], b, ArrivalPosts, allowed, WithPost(s, q), PostSteps());
  }

  // ---------------------------------------------------------------- a query preempted for another

  function SetUp(): seq<Step> { JoinSteps() + ArriveSteps(1, 1, 0) + DispatchSteps() }

  /** Query 1, of priority 1, runs on the only Worker. */
  function OneRunning(edad: bool): State {
    Start(PRIORIDADES, edad).(prio := map[1 := 1], pc := map[1 := 0], exec := [1], workers := [Atendiendo(1, false)],
                              aging := if edad then [Dormido(1)] else [])
  }

  /** The Worker is free and query 1 ready. */
  function OneReady(edad: bool): State {
    Start(PRIORIDADES, edad).(prio := map[1 := 1], pc := map[1 := 0], ready := [1], workers := [Libre], semReady := 1,
                              semWorkers := 1, aging := if edad then [Dormido(1)] else [])
  }

  lemma OneArrives(edad: bool, allowed: bool)
    ensures Leads(Start(PRIORIDADES, edad), JoinSteps() + ArriveSteps(1, 1, 0), allowed, OneReady(edad))
  {
    hide Leads;
    var s := Start(PRIORIDADES, edad);
    var a := s.(workers := [Libre], semWorkers := 1);
    Joins(s, allowed);
    assert [] + [Libre] == [Libre];
    assert InsertAt([], 0, 1) == [1];
    ArrivesFreely(a, 1, 1, 0, allowed);
    assert WithQuery(a, 1, 1, 0) == OneReady(edad);
    LeadsTwice(s, JoinSteps(), a, ArriveSteps(1, 1, 0), allowed, OneReady(edad));
  }

  lemma OneRuns(edad: bool, allowed: bool)
    ensures Leads(Start(PRIORIDADES, edad), SetUp(), allowed, OneRunning(edad))
  {
    hide Leads;
    OneArrives(edad, allowed);
    var b := OneReady(edad);
    DispatchesHead(b, 0, allowed);
    OneDispatched(edad);
    LeadsTwice(Start(PRIORIDADES, edad), JoinSteps() + ArriveSteps(1, 1, 0), b, DispatchSteps(), allowed,
               OneRunning(edad));
  }

  lemma OneDispatched(edad: bool)
    ensures WithDispatch(OneReady(edad), 0) == OneRunning(edad)
  {
    assert [1][1..] == [] && [Libre][0 := Atendiendo(1, false)] == [Atendiendo(1, false)] && [] + [1] == [1];
  }

  /** Query 2, of priority 0, has arrived, and Worker 0 is told to interrupt query 1. */
  function Preempted(edad: bool): State {
    OneRunning(edad).(prio := map[1 := 1, 2 := 0], pc := map[1 := 0, 2 := 0], ready := [2],
                      workers := [Atendiendo(1, true)], llegada := EnConsulta(2),
                      check := Desalojando(0, DeLlegada(2)), signalAsign := true)
  }

  function PreemptSteps(): seq<Step> { [QueryArrives(2, 0, 0), ArrivalChecks] }

  lemma TwoPreempts(edad: bool, allowed: bool)
    ensures Leads(Start(PRIORIDADES, edad), SetUp() + PreemptSteps(), allowed, Preempted(edad))
  {
    hide Leads;
    var s := OneRunning(edad);
    var a := s.(prio := map[1 := 1, 2 := 0], pc := map[1 := 0, 2 := 0], ready := [2], llegada := EnLista(2));
    OneRuns(edad, allowed);
    TwoInserted(s, a);
    OneTold(a, edad);
    hide Enabled, Next, Permitted;
    OneStep(s, QueryArrives(2, 0, 0), allowed, a);
    LeadsOn(s, [QueryArrives(2, 0, 0)], a, ArrivalChecks, allowed, Preempted(edad), PreemptSteps());
    LeadsTwice(Start(PRIORIDADES, edad), SetUp(), s, PreemptSteps(), allowed, Preempted(edad));
  }

  /** Query 2 arrives where nothing is ready. */
  lemma TwoInserted(s: State, a: State)
    requires s.plan == PRIORIDADES && s.llegada == Nadie && s.check == Abierto && 2 !in s.prio && s.ready == []
    requires a == s.(prio := s.prio[2 := 0], pc := s.pc[2 := 0], ready := [2], llegada := EnLista(2))
    ensures Enabled(s, QueryArrives(2, 0, 0)) && Permitted(s, QueryArrives(2, 0, 0))
    ensures Next(s, QueryArrives(2, 0, 0)) == a
  {
    assert InsertAt([], 0, 2) == [2];
  }

  lemma OneTold(a: State, edad: bool)
    requires a == OneRunning(edad).(prio := map[1 := 1, 2 := 0], pc := map[1 := 0, 2 := 0], ready := [2],
                                    llegada := EnLista(2))
    ensures Enabled(a, ArrivalChecks) && Permitted(a, ArrivalChecks) && Next(a, ArrivalChecks) == Preempted(edad)
  {
    assert [Atendiendo(1, false)][0 := Atendiendo(1, true)] == [Atendiendo(1, true)];
  }

  // ---------------------------------------------------------------- a second aging thread

  /** Evicted before its aging thread woke, query 1 has two. */
  function TwoThreads(): State {
    Preempted(true).(pc := map[1 := 5, 2 := 0], ready := [2, 1], exec := [], aging := [Dormido(1), Dormido(1)],
                     semReady := 1, workers := [PorLiberar], check := Asignando(DeLlegada(2)), vacante := Some(1))
  }

  /** Query 1 is in no list, and two tokens announce the one query that is ready. */
  function Dropped(): State {
    TwoThreads().(prio := map[1 := 0, 2 := 0], ready := [2], aging := [PorConsultar(1)])
  }

  function DropSteps(): seq<Step> { [Evicts(1, 5), Ages(0, 1), Ages(1, 0)] }

  lemma ThreadsDrop()
    ensures Leads(Preempted(true), DropSteps(), false, Dropped())
  {
    hide Leads, Enabled, Next, Permitted;
    var s := Preempted(true);
    SecondThread();
    OneStep(s, Evicts(1, 5), false, TwoThreads());
    var b := TwoThreads().(prio := map[1 := 0, 2 := 0], aging := [PorConsultar(1), Dormido(1)]);
    FirstWakes(b);
    LeadsOn(s, [Evicts(1, 5)], TwoThreads(), Ages(0, 1), false, b, [Evicts(1, 5), Ages(0, 1)]);
    SecondWakes(b);
    LeadsOn(s, [Evicts(1, 5), Ages(0, 1)], b, Ages(1, 0), false, Dropped(), DropSteps());
  }

  lemma SecondThread()
    ensures Enabled(Preempted(true), Evicts(1, 5)) && Next(Preempted(true), Evicts(1, 5)) == TwoThreads()
  {
    assert InsertAt([2], 1, 1) == [2, 1];
    assert [1][1..] == [] && Without([1], 1) == [];
    assert [Dormido(1)] + [Dormido(1)] == [Dormido(1), Dormido(1)];
    assert [Atendiendo(1, true)][0 := PorLiberar] == [PorLiberar];
    assert map[1 := 0, 2 := 0][1 := 5] == map[1 := 5, 2 := 0];
  }

  lemma InsertedLast(x: nat, y: nat)
    ensures InsertAt([x], 1, y) == [x, y]
  {
  }

  lemma WithoutOne()
    ensures Without<nat>([2, 1], 1) == [2]
  {
    assert [2, 1][1..] == [1] && [1][1..] == [];
    assert Without<nat>([1], 1) == [];
  }

  lemma FirstWakes(b: State)
    requires b == TwoThreads().(prio := map[1 := 0, 2 := 0], aging := [PorConsultar(1), Dormido(1)])
    ensures Enabled(TwoThreads(), Ages(0, 1)) && Next(TwoThreads(), Ages(0, 1)) == b
  {
    WithoutOne();
    hide Without, InsertAt;
    var s := TwoThreads();
    assert s.ready == [2, 1] && 1 in s.ready by { assert [2, 1][1] == 1; }
    assert InsertAt([2], 1, 1) == [2, 1] by { InsertedLast(2, 1); }
    assert map[1 := 1, 2 := 0][1 := 0] == map[1 := 0, 2 := 0];
    assert Placed(s, s.prio[1 := 0], Without(s.ready, 1), 1, 1);
    assert [Dormido(1), Dormido(1)][0 := PorConsultar(1)] == [PorConsultar(1), Dormido(1)];
  }

  lemma SecondWakes(b: State)
    requires b == TwoThreads().(prio := map[1 := 0, 2 := 0], aging := [PorConsultar(1), Dormido(1)])
    ensures Enabled(b, Ages(1, 0)) && Next(b, Ages(1, 0)) == Dropped()
  {
    WithoutOne();
    hide Without;
    assert b.ready == [2, 1] && 1 in b.ready by { assert [2, 1][1] == 1; }
    assert RemoveAt([PorConsultar(1), Dormido(1)], 1) == [PorConsultar(1)];
    assert [PorConsultar(1)] + [] == [PorConsultar(1)];
  }

  /** A query preempted before its aging thread wakes gets a second one; together they take its
      priority to 0 and take it off the list. */
  lemma SecondThreadDrops()
    ensures Leads(Start(PRIORIDADES, true), SetUp() + PreemptSteps() + DropSteps(), false, Dropped())
    ensures !Somewhere(Dropped(), 1) && 1 !in Dropped().acabadas && !Tokens(Dropped())
  {
    hide Leads;
    TwoPreempts(true, false);
    ThreadsDrop();
    LeadsTwice(Start(PRIORIDADES, true), SetUp() + PreemptSteps(), Preempted(true), DropSteps(), false, Dropped());
  }

  function AfterDropSteps(): seq<Step> {
    ReleaseSteps(0) + DispatchSteps() + PostSteps() + JoinSteps() + TakeSteps()
  }

  /** Query 2 runs, and the token of query 1 is left. */
  function TokenLeft(): State {
    Dropped().(ready := [], exec := [2], workers := [Atendiendo(2, false)], vacante := None, semReady := 0,
      semAsign := 1)
  }

  lemma RunsTwo()
    ensures Leads(Dropped(), ReleaseSteps(0) + DispatchSteps(), false, TokenLeft())
  {
    hide Leads;
    var s := Dropped();
    FreesWorker(s, 0, false);
    var a := s.(workers := [Libre], semWorkers := 1);
    assert [PorLiberar][0 := Libre] == [Libre];
    LeftDispatched(a);
    LeadsTwice(s, ReleaseSteps(0), a, DispatchSteps(), false, TokenLeft());
  }

  lemma LeftDispatched(a: State)
    requires a == Dropped().(workers := [Libre], semWorkers := 1)
    ensures Leads(a, DispatchSteps(), false, TokenLeft())
  {
    hide Leads;
    LeftState(a);
    DispatchesHead(a, 0, false);
  }

  lemma LeftState(a: State)
    requires a == Dropped().(workers := [Libre], semWorkers := 1)
    ensures Dispatchable(a, 0) && WithDispatch(a, 0) == TokenLeft()
  {
    assert [2][1..] == [] && [Libre][0 := Atendiendo(2, false)] == [Atendiendo(2, false)] && [] + [2] == [2];
  }

  /** check_prior reopens and the token of query 2 is posted. */
  function Posted(): State {
    TokenLeft().(semReady := 1, semAsign := 0, check := Abierto, signalAsign := false, llegada := Nadie)
  }

  lemma PostsTwo()
    ensures Leads(TokenLeft(), PostSteps(), false, Posted())
  {
    hide Leads;
    WakesAndPosts(TokenLeft(), 2, false);
    assert [PorConsultar(1)] + [] == [PorConsultar(1)];
    assert WithPost(TokenLeft(), 2) == Posted();
  }

  /** Then the dispatcher holds two tokens and finds the list empty. */
  lemma DispatcherFails()
    ensures exists r ::
      && Leads(Start(PRIORIDADES, true), SetUp() + PreemptSteps() + DropSteps() + AfterDropSteps(), false, r)
      && r.disp == ConAmbos && r.ready == [] && !ReadyLocked(r)
  {
    hide Leads;
    SecondThreadDrops();
    RunsTwo();
    PostsTwo();
    LeadsTwice(Dropped(), ReleaseSteps(0) + DispatchSteps(), TokenLeft(), PostSteps(), false, Posted());
    var two := ReleaseSteps(0) + DispatchSteps() + PostSteps();
    var p := Posted();
    Joins(p, false);
    var q := p.(workers := p.workers + [Libre], semWorkers := 1);
    LeadsTwice(Dropped(), two, p, JoinSteps(), false, q);
    Takes(q, false);
    var r := q.(semReady := 0, semWorkers := 0, disp := ConAmbos);
    LeadsTwice(Dropped(), two + JoinSteps(), q, TakeSteps(), false, r);
    LeadsTwice(Start(PRIORIDADES, true), SetUp() + PreemptSteps() + DropSteps(), Dropped(), AfterDropSteps(), false, r);
  }

  // ---------------------------------------------------------------- check_prior with nothing ready

  /** The thread has lowered query 1 and not yet called check_prior. */
  function Lowered(): State {
    OneReady(true).(prio := map[1 := 0], aging := [PorConsultar(1)])
  }

  /** Query 1 runs; its aging thread is about to call check_prior. */
  function NothingReady(): State {
    OneRunning(true).(prio := map[1 := 0], aging := [PorConsultar(1)])
  }

  /** Within the hypotheses check_prior can read through NULL: between an aging thread's decrement
      and its call, the dispatcher takes the only ready query to the only Worker. */
  lemma CheckCanFail()
    ensures Leads(Start(PRIORIDADES, true), JoinSteps() + ArriveSteps(1, 1, 0) + [Ages(0, 0)] + DispatchSteps(), true,
      NothingReady())
    ensures var r := NothingReady();
      r.aging == [PorConsultar(1)] && r.check == Abierto && CheckPrior(r) == Cae && !Enabled(r, AgeChecks(0))
  {
    hide Leads, CheckPrior, Enabled;
    NothingToEvictFor();
    var s := Start(PRIORIDADES, true);
    OneArrives(true, true);
    OneLowered();
    OneStep(OneReady(true), Ages(0, 0), true, Lowered());
    LeadsTwice(s, JoinSteps() + ArriveSteps(1, 1, 0), OneReady(true), [Ages(0, 0)], true, Lowered());
    LoweredDispatchable();
    DispatchesHead(Lowered(), 0, true);
    OneDispatched(true);
    LeadsTwice(s, JoinSteps() + ArriveSteps(1, 1, 0) + [Ages(0, 0)], Lowered(), DispatchSteps(), true, NothingReady());
  }

  lemma NothingToEvictFor()
    ensures var r := NothingReady(); CheckPrior(r) == Cae && !Enabled(r, AgeChecks(0))
  {
    assert FirstLibre(NothingReady().workers, 1) == None;
  }

  lemma LoweredDispatchable()
    ensures Dispatchable(Lowered(), 0)
  {
  }

  lemma OneLowered()
    ensures Enabled(OneReady(true), Ages(0, 0)) && Next(OneReady(true), Ages(0, 0)) == Lowered()
  {
    assert [1][1..] == [] && Without([1], 1) == [] && InsertAt([], 0, 1) == [1];
    assert 1 in [1] by { assert [1][0] == 1; }
    assert map[1 := 1][1 := 0] == map[1 := 0];
    assert [Dormido(1)][0 := PorConsultar(1)] == [PorConsultar(1)];
  }

  // ---------------------------------------------------------------- a finished query comes back

  /** Query 1 has ended with an error, its end is notified, and it is ready. */
  function Back(): State {
    Preempted(false).(pc := map[1 := 5, 2 := 0], ready := [2, 1], exec := [], semReady := 1, workers := [PorLiberar],
                      check := Asignando(DeLlegada(2)), vacante := Some(1), acabadas := {1})
  }

  lemma ErrorEvicts()
    ensures Leads(Preempted(false), [Fails(0), Evicts(1, 5)], true, Back())
  {
    hide Leads;
    var s := Preempted(false);
    var a := s.(exec := [], workers := [ConError(1, true)], acabadas := {1});
    assert [1][1..] == [] && Without([1], 1) == [];
    assert [Atendiendo(1, true)][0 := ConError(1, true)] == [ConError(1, true)];
    OneStep(s, Fails(0), true, a);
    ErrorEvicted(a);
    LeadsOn(s, [Fails(0)], a, Evicts(1, 5), true, Back(), [Fails(0), Evicts(1, 5)]);
  }

  lemma ErrorEvicted(a: State)
    requires a == Preempted(false).(exec := [], workers := [ConError(1, true)], acabadas := {1})
    ensures Enabled(a, Evicts(1, 5)) && Permitted(a, Evicts(1, 5)) && Next(a, Evicts(1, 5)) == Back()
  {
    assert InsertAt([2], 1, 1) == [2, 1];
    assert Without([], 1) == [];
    assert [ConError(1, true)][0 := PorLiberar] == [PorLiberar];
    assert map[1 := 0, 2 := 0][1 := 5] == map[1 := 5, 2 := 0];
  }

  /** Query 2 has the place, query 1 still waits. */
  function TwoRuns(): State {
    Back().(ready := [1], exec := [2], workers := [Atendiendo(2, false)], vacante := None, check := Abierto,
            signalAsign := false, llegada := Nadie)
  }

  lemma TwoTakesPlace()
    ensures Leads(Back(), ReleaseSteps(0) + DispatchSteps() + PostSteps(), true, TwoRuns())
  {
    hide Leads;
    var s := Back();
    FreesWorker(s, 0, true);
    var a := s.(workers := [Libre], semWorkers := 1);
    assert [PorLiberar][0 := Libre] == [Libre];
    DispatchesHead(a, 0, true);
    var b := TwoRuns().(semReady := 0, semAsign := 1, check := Asignando(DeLlegada(2)), signalAsign := true,
      llegada := EnConsulta(2));
    TwoDispatched(a, b);
    LeadsTwice(s, ReleaseSteps(0), a, DispatchSteps(), true, b);
    LastPosts(b);
    LeadsTwice(s, ReleaseSteps(0) + DispatchSteps(), b, PostSteps(), true, TwoRuns());
  }

  lemma TwoDispatched(a: State, b: State)
    requires a == Back().(workers := [Libre], semWorkers := 1)
    requires b == TwoRuns().(semReady := 0, semAsign := 1, check := Asignando(DeLlegada(2)), signalAsign := true,
                             llegada := EnConsulta(2))
    ensures WithDispatch(a, 0) == b
  {
    assert [2, 1][1..] == [1] && [Libre][0 := Atendiendo(2, false)] == [Atendiendo(2, false)] && [] + [2] == [2];
  }

  lemma LastPosts(s: State)
    requires s == TwoRuns().(semReady := 0, semAsign := 1, check := Asignando(DeLlegada(2)), signalAsign := true,
                             llegada := EnConsulta(2))
    ensures Leads(s, PostSteps(), true, TwoRuns())
  {
    hide Leads;
    WakesAndPosts(s, 2, true);
    assert WithPost(s, 2) == TwoRuns();
  }

  /** Query 1 runs again, after its end. */
  function RunsAgain(): State {
    TwoRuns().(ready := [], exec := [1], workers := [Atendiendo(1, false)], semReady := 0, acabadas := {1, 2})
  }

  lemma OneRunsAgain()
    ensures Leads(TwoRuns(), [Ends(0)] + ReleaseSteps(0) + DispatchSteps(), true, RunsAgain())
  {
    hide Leads;
    var s := TwoRuns();
    var a := s.(exec := [], workers := [PorLiberar], acabadas := {1, 2});
    assert [2][1..] == [] && Without([2], 2) == [] && {1} + {2} == {1, 2};
    assert [Atendiendo(2, false)][0 := PorLiberar] == [PorLiberar];
    OneStep(s, Ends(0), true, a);
    FreesWorker(a, 0, true);
    var b := a.(workers := [Libre], semWorkers := 1);
    assert [PorLiberar][0 := Libre] == [Libre];
    LeadsTwice(s, [Ends(0)], a, ReleaseSteps(0), true, b);
    AgainDispatched(b);
    LeadsTwice(s, [Ends(0)] + ReleaseSteps(0), b, DispatchSteps(), true, RunsAgain());
  }

  lemma AgainDispatched(b: State)
    requires b == RunsAgain().(ready := [1], exec := [], workers := [Libre], semReady := 1, semWorkers := 1)
    ensures Leads(b, DispatchSteps(), true, RunsAgain())
  {
    hide Leads;
    AgainState(b);
    DispatchesHead(b, 0, true);
  }

  lemma AgainState(b: State)
    requires b == RunsAgain().(ready := [1], exec := [], workers := [Libre], semReady := 1, semWorkers := 1)
    ensures Dispatchable(b, 0) && WithDispatch(b, 0) == RunsAgain()
  {
    assert [1][1..] == [] && [Libre][0 := Atendiendo(1, false)] == [Atendiendo(1, false)] && [] + [1] == [1];
  }

  function ErrorSteps(): seq<Step> {
    [Fails(0), Evicts(1, 5)] + (ReleaseSteps(0) + DispatchSteps() + PostSteps())
    + ([Ends(0)] + ReleaseSteps(0) + DispatchSteps())
  }

  /** Within the hypotheses, a query whose end with an error has been notified is executed again:
      its Worker had been told to interrupt, and the consult puts it back. */
  lemma FinishedRunsAgain()
    ensures Leads(Start(PRIORIDADES, false), SetUp() + PreemptSteps() + ErrorSteps(), true, RunsAgain())
    ensures 1 in RunsAgain().acabadas && 1 in RunsAgain().exec
  {
    hide Leads;
    TwoPreempts(false, true);
    ErrorEvicts();
    TwoTakesPlace();
    OneRunsAgain();
    var second := ReleaseSteps(0) + DispatchSteps() + PostSteps();
    var third := [Ends(0)] + ReleaseSteps(0) + DispatchSteps();
    LeadsTwice(Preempted(false), [Fails(0), Evicts(1, 5)], Back(), second, true, TwoRuns());
    LeadsTwice(Preempted(false), [Fails(0), Evicts(1, 5)] + second, TwoRuns(), third, true, RunsAgain());
    LeadsTwice(Start(PRIORIDADES, false), SetUp() + PreemptSteps(), Preempted(false), ErrorSteps(), true, RunsAgain());
    assert RunsAgain().exec[0] == 1;
  }

  // ---------------------------------------------------------------- a second victim for one query

  /** Query 3 runs on the first of two Workers. */
  function ThreeRunning(): State {
    Start(PRIORIDADES, false).(prio := map[3 := 1], pc := map[3 := 0], exec := [3],
                               workers := [Atendiendo(3, false), Libre], semWorkers := 1)
  }

  lemma ThreeRuns()
    ensures Leads(Start(PRIORIDADES, false), JoinSteps() + JoinSteps() + ArriveSteps(3, 1, 0) + DispatchSteps(), true,
      ThreeRunning())
  {
    hide Leads, Welcome, Dispatchable, WithQuery, WithDispatch;
    var s := Start(PRIORIDADES, false);
    var a := s.(workers := [Libre], semWorkers := 1);
    var b := s.(workers := [Libre, Libre], semWorkers := 2);
    var c := b.(prio := map[3 := 1], pc := map[3 := 0], ready := [3], semReady := 1);
    Joins(s, true);
    assert [] + [Libre] == [Libre] && [Libre] + [Libre] == [Libre, Libre];
    Joins(a, true);
    LeadsTwice(s, JoinSteps(), a, JoinSteps(), true, b);
    ThreeWelcome(b, c);
    ArrivesFreely(b, 3, 1, 0, true);
    LeadsTwice(s, JoinSteps() + JoinSteps(), b, ArriveSteps(3, 1, 0), true, c);
    ThreeDispatched(c);
    DispatchesHead(c, 0, true);
    LeadsTwice(s, JoinSteps() + JoinSteps() + ArriveSteps(3, 1, 0), c, DispatchSteps(), true, ThreeRunning());
  }

  lemma ThreeWelcome(b: State, c: State)
    requires b == Start(PRIORIDADES, false).(workers := [Libre, Libre], semWorkers := 2)
    requires c == b.(prio := map[3 := 1], pc := map[3 := 0], ready := [3], semReady := 1)
    ensures Welcome(b, 3, 1, 0) && WithQuery(b, 3, 1, 0) == c
  {
    assert InsertAt([], 0, 3) == [3];
  }

  lemma ThreeDispatched(c: State)
    requires c == ThreeRunning().(ready := [3], exec := [], workers := [Libre, Libre], semReady := 1, semWorkers := 2)
    ensures Dispatchable(c, 0) && WithDispatch(c, 0) == ThreeRunning()
  {
    assert [3][1..] == [] && [] + [3] == [3];
    assert [Libre, Libre][0 := Atendiendo(3, false)] == [Atendiendo(3, false), Libre];
  }

  /** Query 1 has the second Worker, and the dispatcher has yet to read signal_asign. */
  function BothTaken(): State {
    ThreeRunning().(prio := map[3 := 1, 1 := 1], pc := map[3 := 0, 1 := 0], exec := [3, 1],
                    workers := [Atendiendo(3, false), Atendiendo(1, false)], semWorkers := 0, disp := Emparejado)
  }

  lemma OneTakesSecond()
    ensures Leads(ThreeRunning(), ArriveSteps(1, 1, 0) + PairSteps(), true, BothTaken())
  {
    hide Leads;
    var s := ThreeRunning();
    var a := s.(prio := map[3 := 1, 1 := 1], pc := map[3 := 0, 1 := 0], ready := [1], semReady := 1);
    OneWelcome(a);
    ArrivesFreely(s, 1, 1, 0, true);
    OnePaired(a);
    PairsUp(a, 1, true);
    LeadsTwice(s, ArriveSteps(1, 1, 0), a, PairSteps(), true, BothTaken());
  }

  lemma OneWelcome(a: State)
    requires a == ThreeRunning().(prio := map[3 := 1, 1 := 1], pc := map[3 := 0, 1 := 0], ready := [1], semReady := 1)
    ensures Welcome(ThreeRunning(), 1, 1, 0) && WithQuery(ThreeRunning(), 1, 1, 0) == a
  {
    assert InsertAt([], 0, 1) == [1];
    assert FirstLibre(ThreeRunning().workers, 0) == Some(1);
  }

  lemma OnePaired(a: State)
    requires a == ThreeRunning().(prio := map[3 := 1, 1 := 1], pc := map[3 := 0, 1 := 0], ready := [1], semReady := 1)
    ensures Dispatchable(a, 1) && WithPair(a, 1) == BothTaken()
  {
    assert FirstLibre(a.workers, 0) == Some(1);
    assert [1][1..] == [] && [3] + [1] == [3, 1];
    assert [Atendiendo(3, false), Libre][1 := Atendiendo(1, false)] == [Atendiendo(3, false), Atendiendo(1, false)];
  }

  /** check_prior has told Worker 0, and the token it will wait for is there already. */
  function TokenEarly(): State {
    BothTaken().(prio := map[3 := 1, 1 := 1, 2 := 0], pc := map[3 := 0, 1 := 0, 2 := 0], ready := [2],
                 workers := [Atendiendo(3, true), Atendiendo(1, false)], llegada := EnConsulta(2),
                 check := Desalojando(0, DeLlegada(2)), signalAsign := true, semAsign := 1, disp := Esperando)
  }

  lemma SignalsEarly()
    ensures Leads(BothTaken(), PreemptSteps() + [Signals], true, TokenEarly())
  {
    hide Leads, Enabled, Next, Permitted, InsertAt;
    var s := BothTaken();
    var a := s.(prio := map[3 := 1, 1 := 1, 2 := 0], pc := map[3 := 0, 1 := 0, 2 := 0], ready := [2],
      llegada := EnLista(2));
    var b := TokenEarly().(semAsign := 0, disp := Emparejado);
    TwoInserted(s, a);
    FirstVictim(a, b);
    SignalsOne(b);
    OneStep(s, QueryArrives(2, 0, 0), true, a);
    LeadsOn(s, [QueryArrives(2, 0, 0)], a, ArrivalChecks, true, b, PreemptSteps());
    LeadsOn(s, PreemptSteps(), b, Signals, true, TokenEarly(), PreemptSteps() + [Signals]);
  }

  lemma SignalsOne(b: State)
    requires b == TokenEarly().(semAsign := 0, disp := Emparejado)
    ensures Enabled(b, Signals) && Permitted(b, Signals) && Next(b, Signals) == TokenEarly()
  {
  }

  lemma FirstVictim(a: State, b: State)
    requires a == BothTaken().(prio := map[3 := 1, 1 := 1, 2 := 0], pc := map[3 := 0, 1 := 0, 2 := 0], ready := [2],
                               llegada := EnLista(2))
    requires b == TokenEarly().(semAsign := 0, disp := Emparejado)
    ensures Enabled(a, ArrivalChecks) && Permitted(a, ArrivalChecks) && Next(a, ArrivalChecks) == b
  {
    var a1 := a.(llegada := EnConsulta(2));
    VictimIsFirst(a);
    VictimIsFirst(a1);
    assert a.workers[0 := Atendiendo(3, true)] == [Atendiendo(3, true), Atendiendo(1, false)];
  }

  lemma VictimIsFirst(a: State)
    requires a.exec == [3, 1] && a.prio == map[3 := 1, 1 := 1, 2 := 0] && a.ready == [2]
    requires a.workers == [Atendiendo(3, false), Atendiendo(1, false)]
    ensures CheckPrior(a) == Desaloja(0)
  {
    assert Victima(a, 2, 0) == 0;
    assert Victima(a, 1, 0) == 0;
    assert FirstLibre(a.workers, 1) == None && WorkerOf(a.workers, 3, 0) == Some(0);
  }

  /** check_prior is open again, nobody has query 3's place, and its Worker is not yet free. */
  function ReopenedEarly(): State {
    TokenEarly().(pc := map[3 := 5, 1 := 0, 2 := 0], ready := [2, 3], exec := [1], semReady := 2,
                  workers := [PorLiberar, Atendiendo(1, false)], check := Abierto, signalAsign := false, semAsign := 0,
                  llegada := Nadie, vacante := Some(1))
  }

  lemma ReopensEarly()
    ensures Leads(TokenEarly(), [Evicts(1, 5), Wakes, Reopens, ArrivalPosts], true, ReopenedEarly())
  {
    hide Leads;
    var s := TokenEarly();
    var d := ReopenedEarly().(semReady := 1, llegada := PorAvisar(2));
    var b := d.(check := Asignando(DeLlegada(2)), signalAsign := true, semAsign := 1, llegada := EnConsulta(2));
    var c := b.(check := Reabriendo(DeLlegada(2)), semAsign := 0);
    ThreeEvicted(b);
    assert Permitted(s, Evicts(1, 5));
    OneStep(s, Evicts(1, 5), true, b);
    LeadsOn(s, [Evicts(1, 5)], b, Wakes, true, c, [Evicts(1, 5), Wakes]);
    LeadsOn(s, [Evicts(1, 5), Wakes], c, Reopens, true, d, [Evicts(1, 5), Wakes, Reopens]);
    LeadsOn(s, [Evicts(1, 5), Wakes, Reopens], d, ArrivalPosts, true, ReopenedEarly(),
            [Evicts(1, 5), Wakes, Reopens, ArrivalPosts]);
  }

  lemma ThreePlaced()
    ensures Placed(TokenEarly(), TokenEarly().prio, [2], 1, 3)
  {
    InsertedLast(2, 3);
    hide InsertAt;
  }

  lemma ThreeEvicted(b: State)
    requires b == ReopenedEarly().(semReady := 1, llegada := EnConsulta(2), check := Asignando(DeLlegada(2)),
                                   signalAsign := true, semAsign := 1)
    ensures var s := TokenEarly(); Enabled(s, Evicts(1, 5)) && Next(s, Evicts(1, 5)) == b
  {
    ThreePlaced();
    hide Sorted;
    assert [3, 1][1..] == [1] && Without([3, 1], 3) == [1];
    assert InsertAt([2], 1, 3) == [2, 3] by { InsertedLast(2, 3); }
    hide Without, InsertAt;
    assert TokenEarly().workers[0 := PorLiberar] == [PorLiberar, Atendiendo(1, false)];
    assert map[3 := 0, 1 := 0, 2 := 0][3 := 5] == map[3 := 5, 1 := 0, 2 := 0];
  }

  /** Worker 1 is told to interrupt query 1, for query 2 again. */
  function SecondTold(): State {
    ReopenedEarly().(prio := map[3 := 1, 1 := 1, 2 := 0, 4 := 5], pc := map[3 := 5, 1 := 0, 2 := 0, 4 := 0],
                     ready := [2, 3, 4], workers := [PorLiberar, Atendiendo(1, true)], llegada := EnConsulta(4),
                     check := Desalojando(1, DeLlegada(4)), signalAsign := true)
  }

  lemma FourArrives()
    ensures Leads(ReopenedEarly(), [QueryArrives(4, 5, 2), ArrivalChecks], true, SecondTold())
  {
    hide Leads, Enabled, Next;
    var s := ReopenedEarly();
    var a := s.(prio := map[3 := 1, 1 := 1, 2 := 0, 4 := 5], pc := map[3 := 5, 1 := 0, 2 := 0, 4 := 0],
      ready := [2, 3, 4],
                llegada := EnLista(4));
    FourInserted(a);
    OneStep(s, QueryArrives(4, 5, 2), true, a);
    SecondVictim(a);
    LeadsOn(s, [QueryArrives(4, 5, 2)], a, ArrivalChecks, true, SecondTold(), [QueryArrives(4, 5, 2), ArrivalChecks]);
  }

  lemma FourInserted(a: State)
    requires a == SecondTold().(workers := [PorLiberar, Atendiendo(1, false)], llegada := EnLista(4), check := Abierto,
                                signalAsign := false)
    ensures var (s, step) := (ReopenedEarly(), QueryArrives(4, 5, 2));
      Enabled(s, step) && Permitted(s, step) && Next(s, step) == a
  {
    assert InsertAt([2, 3], 2, 4) == [2, 3, 4];
    hide InsertAt;
    assert Placed(ReopenedEarly(), a.prio, [2, 3], 2, 4);
  }

  lemma SecondVictim(a: State)
    requires a == SecondTold().(workers := [PorLiberar, Atendiendo(1, false)], llegada := EnLista(4), check := Abierto,
                                signalAsign := false)
    ensures Enabled(a, ArrivalChecks) && Next(a, ArrivalChecks) == SecondTold()
  {
    var a1 := a.(llegada := EnConsulta(4));
    assert FirstLibre(a.workers, 1) == None;
    assert WorkerOf(a.workers, 1, 1) == Some(1);
    assert CheckPrior(a) == Desaloja(1);
    assert CheckPrior(a1) == Desaloja(1);
    assert a.workers[1 := Atendiendo(1, true)] == [PorLiberar, Atendiendo(1, true)];
  }

  function EarlySteps(): seq<Step> {
    ArriveSteps(1, 1, 0) + PairSteps() + (PreemptSteps() + [Signals]) + [Evicts(1, 5), Wakes, Reopens, ArrivalPosts]
    + [QueryArrives(4, 5, 2), ArrivalChecks]
  }

  /** Within the hypotheses, two queries are evicted for one: the dispatcher's token for an earlier
      pairing reopens check_prior before the first place is taken. */
  lemma EvictsTwiceForOne()
    ensures Leads(Start(PRIORIDADES, false),
                  JoinSteps() + JoinSteps() + ArriveSteps(3, 1, 0) + DispatchSteps() + EarlySteps(), true, SecondTold())
    ensures var r := SecondTold();
      && r.vacante == Some(1) && r.check == Desalojando(1, DeLlegada(4))
      && forall q :: q in r.ready && P(r.prio, q) < P(r.prio, 1) ==> q == 2
  {
    hide Leads;
    ThreeRuns();
    OneTakesSecond();
    SignalsEarly();
    ReopensEarly();
    FourArrives();
    var s := ThreeRunning();
    var first := ArriveSteps(1, 1, 0) + PairSteps();
    var second := first + (PreemptSteps() + [Signals]);
    var third := second + [Evicts(1, 5), Wakes, Reopens, ArrivalPosts];
    LeadsTwice(s, first, BothTaken(), PreemptSteps() + [Signals], true, TokenEarly());
    LeadsTwice(s, second, TokenEarly(), [Evicts(1, 5), Wakes, Reopens, ArrivalPosts], true, ReopenedEarly());
    LeadsTwice(s, third, ReopenedEarly(), [QueryArrives(4, 5, 2), ArrivalChecks], true, SecondTold());
    LeadsTwice(Start(PRIORIDADES, false), JoinSteps() + JoinSteps() + ArriveSteps(3, 1, 0) + DispatchSteps(), s,
      EarlySteps(),
               true, SecondTold());
  }
}
