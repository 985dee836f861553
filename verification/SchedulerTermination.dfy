/** Preemption comes to rest: without arrivals every step lowers, in this order, the queries yet to
    end for good, the sum of their priorities, and the work pending inside the threads; a call of
    check_prior has in it the work of one eviction and of the dispatch that follows. */
module SchedulerTermination {
  import opened Recency
  import opened SchedulerModel
  import opened SchedulerInvariant
  import opened SchedulerSteps

  // ---------------------------------------------------------------- the measure

  function Hand(s: State): seq<nat> {
    if s.disp.EnMano? then [s.disp.query] else []
  }

  /** Queries that ended with an error and that the consult will put back. */
  function Returning(workers: seq<Worker>): (r: seq<nat>) {
    if workers == [] then []
    else (if workers[0].ConError? && workers[0].interrumpir then [workers[0].query] else []) + Returning(workers[1..])
  }

  function Unfinished(s: State): nat {
    |s.ready| + |s.exec| + |Hand(s)| + |Returning(s.workers)|
  }

  function AllPriorities(s: State): int {
    Sum(s.prio, s.ready) + Sum(s.prio, s.exec) + Sum(s.prio, Hand(s)) + Sum(s.prio, Returning(s.workers))
  }

  function Sum(prio: map<nat, int>, list: seq<nat>): int {
    if list == [] then 0 else P(prio, list[0]) + Sum(prio, list[1..])
  }

  function AgingWork(aging: seq<Aging>): nat {
    if aging == [] then 0 else (if aging[0].Dormido? then 1 else 15) + AgingWork(aging[1..])
  }

  function HandlerWork(x: Worker): nat {
    match x case Libre => 0 case Atendiendo(_, _) => 4 case ConError(_, _) => 3 case PorLiberar => 2
  }

  function HandlersWork(workers: seq<Worker>): nat {
    if workers == [] then 0 else HandlerWork(workers[0]) + HandlersWork(workers[1..])
  }

  function ArrivalWork(a: Arrival): nat {
    match a case Nadie => 0 case EnLista(_) => 15 case EnConsulta(_) => 0 case PorAvisar(_) => 2
  }

  function DispatcherWork(d: Dispatcher): nat {
    match d case Esperando => 3 case ConReady => 2 case ConAmbos => 1 case EnMano(_) => 9 case Emparejado => 4
  }

  function CheckWork(c: Check): nat {
    match c case Abierto => 0 case Desalojando(_, _) => 14 case Asignando(_) => 4 case Reabriendo(_) => 3
  }

  function Pending(s: State): nat {
    AgingWork(s.aging) + HandlersWork(s.workers) + ArrivalWork(s.llegada) + DispatcherWork(s.disp) + CheckWork(s.check)
      + s.avisos + 9 * |s.ready|
  }

  datatype Measure = Measure(unfinished: int, all: int, pending: int)

  function MeasureOf(s: State): Measure {
    Measure(Unfinished(s), AllPriorities(s), Pending(s))
  }

  predicate Less(a: Measure, b: Measure) {
    || a.unfinished < b.unfinished
    || (a.unfinished == b.unfinished && a.all < b.all)
    || (a.unfinished == b.unfinished && a.all == b.all && a.pending < b.pending)
  }

  /** Only the work inside the threads goes down. */
  predicate LessWork(a: Measure, b: Measure) {
    a.unfinished == b.unfinished && a.all == b.all && a.pending < b.pending
  }

  predicate Internal(a: Step) {
    !a.QueryArrives? && !a.WorkerArrives?
  }

  // ---------------------------------------------------------------- sums

  lemma {:induction false} SumAppend(prio: map<nat, int>, a: seq<nat>, b: seq<nat>)
    ensures Sum(prio, a + b) == Sum(prio, a) + Sum(prio, b)
  {
    if a == [] {
      assert a + b == b;
    } else {
      assert (a + b)[1..] == a[1..] + b;
      SumAppend(prio, a[1..], b);
    }
  }

  lemma SumOne(prio: map<nat, int>, q: nat)
    ensures Sum(prio, [q]) == P(prio, q)
  {
    assert [q][1..] == [];
  }

  lemma SumInsert(prio: map<nat, int>, list: seq<nat>, k: nat, q: nat)
    requires k <= |list|
    ensures Sum(prio, InsertAt(list, k, q)) == Sum(prio, list) + P(prio, q)
  {
    assert list == list[..k] + list[k..];
    SumAppend(prio, list[..k], list[k..]);
    SumAppend(prio, list[..k], [q]);
    SumAppend(prio, list[..k] + [q], list[k..]);
    SumOne(prio, q);
  }

  lemma {:induction false} SumWithout(prio: map<nat, int>, list: seq<nat>, q: nat)
    requires q in list
    ensures Sum(prio, Without(list, q)) == Sum(prio, list) - P(prio, q)
  {
    if list[0] != q {
      assert q in list[1..];
      SumWithout(prio, list[1..], q);
      assert ([list[0]] + Without(list[1..], q))[1..] == Without(list[1..], q);
    }
  }

  lemma {:induction false} SumElsewhere(prio: map<nat, int>, list: seq<nat>, q: nat, p: int)
    requires q !in list
    ensures Sum(prio[q := p], list) == Sum(prio, list)
  {
    if list != [] { SumElsewhere(prio, list[1..], q, p); }
  }

  lemma {:induction false} SumAboveZero(prio: map<nat, int>, list: seq<nat>)
    requires forall q :: q in prio ==> prio[q] >= 0
    ensures Sum(prio, list) >= 0
  {
    if list != [] { SumAboveZero(prio, list[1..]); }
  }

  // ---------------------------------------------------------------- pending work

  lemma {:induction false} AgingAppend(a: seq<Aging>, b: seq<Aging>)
    ensures AgingWork(a + b) == AgingWork(a) + AgingWork(b)
  {
    if a == [] {
      assert a + b == b;
    } else {
      assert (a + b)[1..] == a[1..] + b;
      AgingAppend(a[1..], b);
    }
  }

  lemma AgingSpawn(s: State, q: nat)
    ensures AgingWork(s.aging + AgingOf(s, q)) <= AgingWork(s.aging) + 1
  {
    AgingAppend(s.aging, AgingOf(s, q));
    assert [Dormido(q)][1..] == [];
  }

  lemma {:induction false} AgingRemoved(aging: seq<Aging>, i: nat)
    requires i < |aging|
    ensures AgingWork(RemoveAt(aging, i)) == AgingWork(aging) - if aging[i].Dormido? then 1 else 15
  {
    if i == 0 {
      assert RemoveAt(aging, 0) == aging[1..];
    } else {
      var r := RemoveAt(aging, i);
      assert r[0] == aging[0] && r[1..] == RemoveAt(aging[1..], i - 1);
      AgingRemoved(aging[1..], i - 1);
    }
  }

  lemma {:induction false} HandlersUpdate(workers: seq<Worker>, w: nat, x: Worker)
    requires w < |workers|
    ensures HandlersWork(workers[w := x]) == HandlersWork(workers) - HandlerWork(workers[w]) + HandlerWork(x)
  {
    if w == 0 {
      assert workers[0 := x][1..] == workers[1..];
    } else {
      assert workers[w := x][1..] == workers[1..][w - 1 := x];
      HandlersUpdate(workers[1..], w - 1, x);
    }
  }

  // ---------------------------------------------------------------- queries that come back

  predicate Returns(x: Worker) { x.ConError? && x.interrumpir }

  lemma {:induction false} ReturningSame(workers: seq<Worker>, w: nat, x: Worker)
    requires w < |workers| && !Returns(workers[w]) && !Returns(x)
    ensures Returning(workers[w := x]) == Returning(workers)
  {
    if w == 0 {
      assert workers[0 := x][1..] == workers[1..];
    } else {
      assert workers[w := x][1..] == workers[1..][w - 1 := x];
      ReturningSame(workers[1..], w - 1, x);
    }
  }

  /** One more, at some place of the list. */
  lemma {:induction false} ReturningMore(prio: map<nat, int>, workers: seq<Worker>, w: nat, q: nat)
    requires w < |workers| && !Returns(workers[w])
    ensures var r := Returning(workers[w := ConError(q, true)]);
      |r| == |Returning(workers)| + 1 && Sum(prio, r) == Sum(prio, Returning(workers)) + P(prio, q)
  {
    var r := workers[w := ConError(q, true)];
    SumOne(prio, q);
    if w == 0 {
      assert r[1..] == workers[1..] && Returning(workers) == Returning(workers[1..]);
      SumAppend(prio, [q], Returning(workers[1..]));
    } else {
      assert r[1..] == workers[1..][w - 1 := ConError(q, true)];
      ReturningMore(prio, workers[1..], w - 1, q);
      var first := if Returns(workers[0]) then [workers[0].query] else [];
      SumAppend(prio, first, Returning(workers[1..]));
      SumAppend(prio, first, Returning(r[1..]));
    }
  }

  lemma ReturningLess(prio: map<nat, int>, workers: seq<Worker>, w: nat, x: Worker)
    requires w < |workers| && Returns(workers[w]) && !Returns(x)
    ensures var r := Returning(workers[w := x]);
      |r| == |Returning(workers)| - 1 && Sum(prio, r) == Sum(prio, Returning(workers)) - P(prio, workers[w].query)
  {
    assert workers[w := x][w := ConError(workers[w].query, true)] == workers;
    ReturningMore(prio, workers[w := x], w, workers[w].query);
  }

  lemma {:induction false} ReturningIn(workers: seq<Worker>, q: nat)
    requires q in Returning(workers)
    ensures exists w :: 0 <= w < |workers| && Returns(workers[w]) && workers[w].query == q
  {
    if !(Returns(workers[0]) && workers[0].query == q) {
      ReturningIn(workers[1..], q);
      var w :| 0 <= w < |workers[1..]| && Returns(workers[1..][w]) && workers[1..][w].query == q;
      assert Returns(workers[w + 1]);
    }
  }

  // ---------------------------------------------------------------- every step lowers it

  lemma HandsOnFalls(s: State, a: Step)
    requires Enabled(s, a) && HandsOn(a)
    ensures LessWork(MeasureOf(Next(s, a)), MeasureOf(s))
  {
    hide AgingOf, AgingWork, HandlersWork, Sum, Returning;
    if a.ArrivalPosts? {
      AgingSpawn(s, s.llegada.query);
    } else if a.Reopens? {
      AgingSpawn(s.(signalAsign := false, check := Abierto), s.check.caller.query);
    }
  }

  lemma PopsFalls(s: State)
    requires Enabled(s, Pops)
    ensures LessWork(MeasureOf(Next(s, Pops)), MeasureOf(s))
  {
    SumOne(s.prio, s.ready[0]);
    hide AgingWork, HandlersWork, Returning;
  }

  lemma PairsFalls(s: State)
    requires Enabled(s, Pairs)
    ensures LessWork(MeasureOf(Next(s, Pairs)), MeasureOf(s))
  {
    var (q, w) := (s.disp.query, FirstLibre(s.workers, 0).value);
    SumOne(s.prio, q);
    SumAppend(s.prio, s.exec, [q]);
    HandlersUpdate(s.workers, w, Atendiendo(q, false));
    ReturningSame(s.workers, w, Atendiendo(q, false));
    hide Sum, AgingWork, HandlersWork, Returning, FirstLibre;
  }

  /** A query that is ready gets one better; a thread whose query is not ready is gone. */
  lemma AgesFalls(s: State, i: nat, k: nat)
    requires Inv(s) && Enabled(s, Ages(i, k))
    ensures var (m, r) := (MeasureOf(s), MeasureOf(Next(s, Ages(i, k))));
      if s.aging[i].query in s.ready then r.unfinished == m.unfinished && r.all == m.all - 1 else LessWork(r, m)
  {
    hide Inv, RemoveAt, InsertAt, Without, AgingWork, HandlersWork, Sum, Returning;
    if s.aging[i].query in s.ready {
      LoweredFalls(s, i, k);
    } else {
      AgingRemoved(s.aging, i);
    }
  }

  lemma LoweredFalls(s: State, i: nat, k: nat)
    requires Inv(s) && Enabled(s, Ages(i, k)) && s.aging[i].query in s.ready
    ensures var (m, r) := (MeasureOf(s), MeasureOf(Next(s, Ages(i, k))));
      r.unfinished == m.unfinished && r.all == m.all - 1
  {
    hide Inv, Pending, Sorted, AgingOf, InsertAt;
    var q := s.aging[i].query;
    LoweredAlone(s, i);
    WithoutKeeps(s.ready, q);
    hide Without, Returning;
    InsertLength(Without(s.ready, q), k, q);
    LoweredSum(s, q, k);
    hide Sum;
  }

  lemma LoweredSum(s: State, q: nat, k: nat)
    requires q !in s.exec && q !in Hand(s) && q !in Returning(s.workers)
    requires Distinct(s.ready) && q in s.ready && k <= |Without(s.ready, q)|
    ensures var prio := s.prio[q := P(s.prio, q) - 1];
      Sum(prio, InsertAt(Without(s.ready, q), k, q)) + Sum(prio, s.exec) + Sum(prio, Hand(s))
        + Sum(prio, Returning(s.workers))
      == AllPriorities(s) - 1
  {
    hide Returning, Hand, Without, InsertAt;
    var p := P(s.prio, q) - 1;
    AgedSum(s, q, k);
    SumElsewhere(s.prio, s.exec, q, p);
    SumElsewhere(s.prio, Hand(s), q, p);
    SumElsewhere(s.prio, Returning(s.workers), q, p);
  }

  /** A ready query is nowhere else. */
  lemma LoweredAlone(s: State, i: nat)
    requires Inv(s) && i < |s.aging| && s.aging[i].Dormido? && s.aging[i].query in s.ready
    ensures var q := s.aging[i].query;
      P(s.prio, q) > 0 && q !in s.exec && q !in Hand(s) && Distinct(s.ready) && q !in Returning(s.workers)
  {
    hide Inv;
    SplitInv(s);
    var q := s.aging[i].query;
    if q in Returning(s.workers) {
      ReturningIn(s.workers, q);
    }
  }

  lemma AgedSum(s: State, q: nat, k: nat)
    requires Distinct(s.ready) && q in s.ready && k <= |Without(s.ready, q)|
    ensures var p := P(s.prio, q) - 1;
      Sum(s.prio[q := p], InsertAt(Without(s.ready, q), k, q)) == Sum(s.prio, s.ready) - 1
  {
    var p := P(s.prio, q) - 1;
    WithoutKeeps(s.ready, q);
    SumInsert(s.prio[q := p], Without(s.ready, q), k, q);
    SumElsewhere(s.prio, Without(s.ready, q), q, p);
    SumWithout(s.prio, s.ready, q);
  }

  /** check_prior itself: a caller's work becomes the wait for a victim, or is over. */
  lemma CheckedFalls(s: State, caller: Caller)
    requires s.check == Abierto && !CheckPrior(s).Cae?
    ensures var r := Checked(s, caller);
      && r.ready == s.ready && r.exec == s.exec && r.prio == s.prio && r.disp == s.disp && r.avisos == s.avisos
      && HandlersWork(r.workers) == HandlersWork(s.workers) && Returning(r.workers) == Returning(s.workers)
      && if r.check.Desalojando? then r.aging == s.aging && r.llegada == s.llegada
         else
           && r.check == Abierto && AgingWork(r.aging) <= AgingWork(s.aging) + 1
           && if caller.DeEdad? then r.llegada == s.llegada
              else r.aging == s.aging && r.llegada == PorAvisar(caller.query)
  {
    AgingSpawn(s, caller.query);
    VictimRuns(s);
    hide AgingOf, AgingWork, HandlersWork, Returning, CheckPrior;
    match CheckPrior(s)
    case Desaloja(w) =>
      HandlersUpdate(s.workers, w, Atendiendo(s.workers[w].query, true));
      ReturningSame(s.workers, w, Atendiendo(s.workers[w].query, true));
    case _ =>
  }

  lemma VictimRuns(s: State)
    ensures CheckPrior(s).Desaloja? ==>
      CheckPrior(s).worker < |s.workers| && s.workers[CheckPrior(s).worker].Atendiendo?
  {
  }

  lemma ArrivalChecksFalls(s: State)
    requires Enabled(s, ArrivalChecks)
    ensures LessWork(MeasureOf(Next(s, ArrivalChecks)), MeasureOf(s))
  {
    var s1 := s.(llegada := EnConsulta(s.llegada.query));
    SameCheck(s, s1);
    hide CheckPrior, Checked, AgingWork, HandlersWork, Returning, Sum;
    CheckedFalls(s1, DeLlegada(s.llegada.query));
  }

  lemma AgeChecksFalls(s: State, i: nat)
    requires Enabled(s, AgeChecks(i))
    ensures LessWork(MeasureOf(Next(s, AgeChecks(i))), MeasureOf(s))
  {
    var s1 := s.(aging := RemoveAt(s.aging, i));
    SameCheck(s, s1);
    AgingRemoved(s.aging, i);
    hide CheckPrior, Checked, AgingWork, HandlersWork, Returning, Sum, RemoveAt;
    CheckedFalls(s1, DeEdad(s.aging[i].query));
  }

  lemma EvictsFalls(s: State, k: nat, newPc: nat)
    requires Inv(s) && Enabled(s, Evicts(k, newPc))
    ensures LessWork(MeasureOf(Next(s, Evicts(k, newPc))), MeasureOf(s))
  {
    hide Inv, AgingOf, Without, InsertAt, Sorted, AgingWork, HandlersWork, Sum, Returning;
    var (w, q) := (s.check.worker, s.workers[s.check.worker].query);
    EvictedSums(s, w);
    SumInsert(s.prio, s.ready, k, q);
    assert |InsertAt(s.ready, k, q)| == |s.ready| + 1 by { InsertLength(s.ready, k, q); }
    AgingSpawn(s, q);
    HandlersUpdate(s.workers, w, PorLiberar);
  }

  lemma InsertLength(list: seq<nat>, k: nat, q: nat)
    requires k <= |list|
    ensures |InsertAt(list, k, q)| == |list| + 1
  {
  }

  /** The victim leaves the running queries, or those that come back. */
  lemma EvictedSums(s: State, w: nat)
    requires Inv(s) && w < |s.workers| && Told(s.workers[w])
    ensures var q := s.workers[w].query;
      var (rest, back) := (Without(s.exec, q), Returning(s.workers[w := PorLiberar]));
      && |rest| + |back| == |s.exec| + |Returning(s.workers)| - 1
      && Sum(s.prio, rest) + Sum(s.prio, back) == Sum(s.prio, s.exec) + Sum(s.prio, Returning(s.workers)) - P(s.prio, q)
  {
    hide Inv, Tokens, Preempting, Signalling, AgingSound, Callers, Priorities;
    SplitInv(s);
    var q := s.workers[w].query;
    if s.workers[w].Atendiendo? {
      WithoutKeeps(s.exec, q);
      SumWithout(s.prio, s.exec, q);
      ReturningSame(s.workers, w, PorLiberar);
    } else {
      WithoutAbsent(s.exec, q);
      ReturningLess(s.prio, s.workers, w, PorLiberar);
    }
  }

  lemma EndsFalls(s: State, w: nat)
    requires Inv(s) && Enabled(s, Ends(w))
    ensures MeasureOf(Next(s, Ends(w))).unfinished == MeasureOf(s).unfinished - 1
  {
    assert s.workers[w].query in s.exec && Distinct(s.exec);
    WithoutKeeps(s.exec, s.workers[w].query);
    ReturningSame(s.workers, w, PorLiberar);
    hide Inv, Pending, Sum, Without, Returning;
  }

  /** An error ends the query, unless its Worker was told to interrupt. */
  lemma FailsFalls(s: State, w: nat)
    requires Inv(s) && Enabled(s, Fails(w))
    ensures var (m, r) := (MeasureOf(s), MeasureOf(Next(s, Fails(w))));
      if s.workers[w].interrumpir then LessWork(r, m) else r.unfinished == m.unfinished - 1
  {
    hide Inv, AgingWork, HandlersWork, Sum, Without, Returning;
    var (q, told) := (s.workers[w].query, s.workers[w].interrumpir);
    assert q in s.exec && Distinct(s.exec) by { SplitInv(s); }
    WithoutKeeps(s.exec, q);
    SumWithout(s.prio, s.exec, q);
    HandlersUpdate(s.workers, w, ConError(q, told));
    if told {
      ReturningMore(s.prio, s.workers, w, q);
    } else {
      ReturningSame(s.workers, w, ConError(q, told));
    }
  }

  lemma HandlerFalls(s: State, a: Step)
    requires Enabled(s, a) && (a.Drops? || a.Releases?)
    ensures LessWork(MeasureOf(Next(s, a)), MeasureOf(s))
  {
    hide AgingWork, HandlersWork, Sum, Returning;
    var x := if a.Drops? then PorLiberar else Libre;
    HandlersUpdate(s.workers, a.w, x);
    ReturningSame(s.workers, a.w, x);
  }

  /** Without arrivals every step lowers the measure. */
  lemma MeasureFalls(s: State, a: Step)
    requires Inv(s) && Enabled(s, a) && Internal(a)
    ensures Less(MeasureOf(Next(s, a)), MeasureOf(s))
  {
    hide Inv, Next, Enabled, MeasureOf;
    match a
    case ArrivalChecks => ArrivalChecksFalls(s);
    case Pops => PopsFalls(s);
    case Pairs => PairsFalls(s);
    case Ages(i, k) => AgesFalls(s, i, k);
    case AgeChecks(i) => AgeChecksFalls(s, i);
    case Evicts(k, newPc) => EvictsFalls(s, k, newPc);
    case Ends(w) => EndsFalls(s, w);
    case Fails(w) => FailsFalls(s, w);
    case Drops(_) => HandlerFalls(s, a);
    case Releases(_) => HandlerFalls(s, a);
    case QueryArrives(_, _, _) =>
    case WorkerArrives =>
    case _ => HandsOnFalls(s, a);
  }

  lemma MeasureAboveZero(s: State)
    requires Inv(s)
    ensures var m := MeasureOf(s); m.unfinished >= 0 && m.all >= 0 && m.pending >= 0
  {
    SumAboveZero(s.prio, s.ready);
    SumAboveZero(s.prio, s.exec);
    SumAboveZero(s.prio, Hand(s));
    SumAboveZero(s.prio, Returning(s.workers));
    hide Sum, Pending, Returning;
  }

  /** Whatever order the threads run in, the scheduler and its Workers come to rest: the next step
      chosen cannot be taken any more.  The result is where, and after how many steps. */
  ghost function Rest(s: State, pick: State -> Step): (r: (State, nat))
    requires Inv(s)
    ensures Inv(r.0) && !(Internal(pick(r.0)) && Enabled(r.0, pick(r.0)) && Permitted(r.0, pick(r.0)))
    decreases MeasureOf(s).unfinished, MeasureOf(s).all, MeasureOf(s).pending
  {
    hide Inv, Next, Enabled, Permitted, MeasureOf;
    var a := pick(s);
    if Internal(a) && Enabled(s, a) && Permitted(s, a) then
      StepKeepsInv(s, a);
      MeasureFalls(s, a);
      MeasureAboveZero(s);
      MeasureAboveZero(Next(s, a));
      var (r, n) := Rest(Next(s, a), pick);
      (r, n + 1)
    else (s, 0)
  }

  /** Coming to rest finishes no less and raises nothing that comes before. */
  lemma {:induction false} RestLowers(s: State, pick: State -> Step)
    requires Inv(s)
    ensures Rest(s, pick).1 > 0 ==> Less(MeasureOf(Rest(s, pick).0), MeasureOf(s))
    ensures Rest(s, pick).1 == 0 ==> Rest(s, pick).0 == s
    decreases MeasureOf(s).unfinished, MeasureOf(s).all, MeasureOf(s).pending
  {
    hide Inv, Next, Enabled, Permitted, MeasureOf;
    var a := pick(s);
    if Internal(a) && Enabled(s, a) && Permitted(s, a) {
      StepKeepsInv(s, a);
      MeasureFalls(s, a);
      MeasureAboveZero(s);
      MeasureAboveZero(Next(s, a));
      RestLowers(Next(s, a), pick);
    }
  }
}
