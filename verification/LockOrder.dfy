/** The Storage module never deadlocks: every operation takes its locks in the order
    File:Tag, block, then one of the hash index, the bitmap and the lock index, whatever it finds
    on disk, so some thread can always go on and every thread finishes. */
module LockOrder {
  import opened StorageModel

  datatype LockId = OfFile(ft: FileTag) | OfBlock(block: nat) | HashIndex | Bitmap | LocksIndex

  datatype Action = Acquire(lock: LockId) | Release(lock: LockId)

  function Rank(l: LockId): nat {
    match l
    case OfFile(_) => 0
    case OfBlock(_) => 1
    case HashIndex => 2
    case Bitmap => 2
    case LocksIndex => 2
  }

  /** From `held`, each lock taken ranks above all those held, and none is held at the end. */
  ghost predicate Disciplined(held: set<LockId>, todo: seq<Action>)
    decreases |todo|
  {
    if todo == [] then held == {}
    else match todo[0]
      case Acquire(l) => (forall h :: h in held ==> Rank(h) < Rank(l)) && Disciplined(held + {l}, todo[1..])
      case Release(l) => l in held && Disciplined(held - {l}, todo[1..])
  }

  // ---------------------------------------------------------------- any number of threads

  datatype Thread = Thread(held: set<LockId>, todo: seq<Action>)

  ghost predicate Free(threads: seq<Thread>, l: LockId) {
    forall t :: 0 <= t < |threads| ==> l !in threads[t].held
  }

  ghost predicate CanStep(threads: seq<Thread>, t: nat) {
    t < |threads| && threads[t].todo != [] && (threads[t].todo[0].Acquire? ==> Free(threads, threads[t].todo[0].lock))
  }

  function StepThread(x: Thread): Thread
    requires x.todo != []
  {
    match x.todo[0]
    case Acquire(l) => Thread(x.held + {l}, x.todo[1..])
    case Release(l) => Thread(x.held - {l}, x.todo[1..])
  }

  function StepOf(threads: seq<Thread>, t: nat): seq<Thread>
    requires t < |threads| && threads[t].todo != []
  {
    threads[t := StepThread(threads[t])]
  }

  ghost predicate Orderly(threads: seq<Thread>) {
    && (forall t :: 0 <= t < |threads| ==> Disciplined(threads[t].held, threads[t].todo))
    && (forall t, u :: 0 <= t < u < |threads| ==> threads[t].held !! threads[u].held)
  }

  ghost predicate Finished(threads: seq<Thread>) {
    forall t :: 0 <= t < |threads| ==> threads[t].todo == []
  }

  lemma StepOrderly(threads: seq<Thread>, t: nat)
    requires Orderly(threads) && CanStep(threads, t)
    ensures Orderly(StepOf(threads, t))
  {
  }

  /** Follow who waits for whom: the rank grows, so the chain ends in a thread that can step. */
  lemma {:induction false} SomeoneSteps(threads: seq<Thread>, t: nat) returns (u: nat)
    requires Orderly(threads) && t < |threads| && threads[t].todo != []
    ensures CanStep(threads, u)
    decreases if threads[t].todo[0].Acquire? then 3 - Rank(threads[t].todo[0].lock) else 0
  {
    if CanStep(threads, t) {
      u := t;
    } else {
      var l := threads[t].todo[0].lock;
      var h: nat :| h < |threads| && l in threads[h].held;
      assert threads[h].todo != [];
      if threads[h].todo[0].Acquire? {
        assert Rank(l) < Rank(threads[h].todo[0].lock);
        u := SomeoneSteps(threads, h);
      } else {
        u := h;
      }
    }
  }

  /** In every reachable state with unfinished work some thread can step. */
  lemma NoDeadlock(threads: seq<Thread>)
    requires Orderly(threads) && !Finished(threads)
    ensures exists u: nat :: CanStep(threads, u)
  {
    var t: nat :| t < |threads| && threads[t].todo != [];
    var u := SomeoneSteps(threads, t);
  }

  ghost predicate Schedule(threads: seq<Thread>, order: seq<nat>)
    decreases |order|
  {
    order != [] ==> CanStep(threads, order[0]) && Schedule(StepOf(threads, order[0]), order[1..])
  }

  function Scheduled(threads: seq<Thread>, order: seq<nat>): seq<Thread>
    requires Schedule(threads, order)
    decreases |order|
  {
    if order == [] then threads else Scheduled(StepOf(threads, order[0]), order[1..])
  }

  function Work(threads: seq<Thread>): nat {
    if threads == [] then 0 else |threads[0].todo| + Work(threads[1..])
  }

  lemma {:induction false} StepWork(threads: seq<Thread>, t: nat)
    requires t < |threads| && threads[t].todo != []
    ensures Work(StepOf(threads, t)) == Work(threads) - 1
  {
    var r := StepOf(threads, t);
    if t == 0 {
      assert r[1..] == threads[1..];
    } else {
      assert r[1..] == StepOf(threads[1..], t - 1);
      StepWork(threads[1..], t - 1);
    }
  }

  lemma {:induction false} WorkDone(threads: seq<Thread>)
    ensures Work(threads) == 0 <==> Finished(threads)
  {
    if threads != [] {
      WorkDone(threads[1..]);
      assert threads == [threads[0]] + threads[1..];
    }
  }

  /** No schedule is longer than the work, and one that cannot go on has finished every thread. */
  lemma {:induction false} EveryoneFinishes(threads: seq<Thread>, order: seq<nat>)
    requires Orderly(threads) && Schedule(threads, order)
    ensures var r := Scheduled(threads, order);
      Orderly(r) && |order| + Work(r) == Work(threads) && (|order| == Work(threads) <==> Finished(r))
    ensures (forall u: nat :: !CanStep(Scheduled(threads, order), u)) ==> Finished(Scheduled(threads, order))
    decreases |order|
  {
    if order == [] {
      WorkDone(threads);
      if !Finished(threads) { NoDeadlock(threads); }
    } else {
      StepOrderly(threads, order[0]);
      StepWork(threads, order[0]);
      EveryoneFinishes(StepOf(threads, order[0]), order[1..]);
    }
  }

  /** At any moment a thread holds at most one File:Tag lock, one block lock and one of the rest. */
  lemma OnePerRank(held: set<LockId>, l: LockId, todo: seq<Action>)
    requires todo != [] && todo[0] == Acquire(l) && Disciplined(held, todo)
    ensures forall h :: h in held ==> Rank(h) != Rank(l)
  {
  }

  // ---------------------------------------------------------------- composing actions

  /** `part` takes its locks in order above `held` and gives back exactly what it took. */
  ghost predicate Neutral(held: set<LockId>, part: seq<Action>) {
    forall rest :: Disciplined(held, rest) ==> Disciplined(held, part + rest)
  }

  lemma NeutralJoin(held: set<LockId>, a: seq<Action>, b: seq<Action>)
    requires Neutral(held, a) && Neutral(held, b)
    ensures Neutral(held, a + b)
  {
    forall rest | Disciplined(held, rest)
      ensures Disciplined(held, a + b + rest)
    {
      assert a + b + rest == a + (b + rest);
    }
  }

  lemma NeutralNothing(held: set<LockId>)
    ensures Neutral(held, [])
  {
    forall rest | Disciplined(held, rest)
      ensures Disciplined(held, [] + rest)
    {
      assert [] + rest == rest;
    }
  }

  /** A lock taken around a part that is neutral under it. */
  lemma NeutralInside(held: set<LockId>, l: LockId, part: seq<Action>)
    requires (forall h :: h in held ==> Rank(h) < Rank(l)) && Neutral(held + {l}, part)
    ensures Neutral(held, [Acquire(l)] + part + [Release(l)])
  {
    forall rest | Disciplined(held, rest)
      ensures Disciplined(held, [Acquire(l)] + part + [Release(l)] + rest)
    {
      var all := [Acquire(l)] + part + [Release(l)] + rest;
      var tail := [Release(l)] + rest;
      assert tail[1..] == rest && held + {l} - {l} == held;
      assert Disciplined(held + {l}, tail);
      assert all[1..] == part + tail;
    }
  }

  function Around(l: LockId, part: seq<Action>): seq<Action> {
    [Acquire(l)] + part + [Release(l)]
  }

  lemma NeutralAround(held: set<LockId>, l: LockId)
    requires forall h :: h in held ==> Rank(h) < Rank(l)
    ensures Neutral(held, Around(l, []))
  {
    NeutralNothing(held + {l});
    NeutralInside(held, l, []);
  }
}
