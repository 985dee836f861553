/** The lock of one File:Tag as a machine: any number of threads in storage_wait, in an operation
    and in storage_signal, one atomic section at a time. */
module LockModel {
  import opened StorageModel

  /** t_lock; `id` tells apart the locks one name has had. */
  datatype Lock = Lock(sem: int, waiting: int, delete: bool, id: nat)

  // ---------------------------------------------------------------- what each section does to the lock

  /** storage_wait up to the semaphore. */
  function Counted(l: Lock): Lock {
    l.(waiting := l.waiting + 1)
  }

  /** sem_wait, when it passes. */
  function Taken(l: Lock): Lock {
    l.(sem := l.sem - 1)
  }

  /** storage_wait after the semaphore. */
  function Uncounted(l: Lock): Lock {
    l.(waiting := l.waiting - 1)
  }

  /** storage_signal: the lock is destroyed by the last to leave a deleted name. */
  function Signalled(l: Lock): Option<Lock> {
    if !l.delete || l.waiting != 0 then Some(l.(sem := l.sem + 1)) else None
  }

  /** remove_lock: destruction is put off while somebody is counted. */
  function Removed(l: Lock): Option<Lock> {
    if l.waiting != 0 then Some(l.(delete := true)) else None
  }

  function NewLock(id: nat): Lock {
    Lock(1, 0, false, id)
  }

  // ---------------------------------------------------------------- the machine

  datatype Phase =
    | Outside
    | Lockless   // storage_wait found no lock
    | Waiting    // counted, at the semaphore
    | Woken      // past the semaphore, still counted
    | Holding    // in the operation
    | Deleting   // the metadata is gone, remove_lock is next
    | Leaving    // after remove_lock, storage_signal is next

  /** `naming`: the metadata is written and add_lock is still to come.  `buried`: the ids
      destroyed, in order. */
  datatype State = State(lock: Option<Lock>, file: bool, naming: bool, threads: seq<Phase>, buried: seq<nat>)

  /** A name without a file or a lock, which it never had. */
  function Unnamed(threads: seq<Phase>): State {
    State(None, false, false, threads, [])
  }

  datatype Step =
    | Enter(t: nat)
    | Take(t: nat)
    | Count(t: nat)
    | RemoveFile(t: nat)   // storage_delete removes the metadata
    | RemoveLock(t: nat)
    | Leave(t: nat)
    | CreateFile           // storage_create writes the metadata
    | AddLock

  ghost predicate Enabled(s: State, a: Step) {
    match a
    case CreateFile => !s.file && !s.naming
    case AddLock => s.naming
    case Enter(t) => t < |s.threads| && s.threads[t] == Outside
    case Take(t) => t < |s.threads| && s.threads[t] == Waiting && s.lock.Some? && s.lock.value.sem > 0
    case Count(t) => t < |s.threads| && s.threads[t] == Woken && s.lock.Some?
    case RemoveFile(t) => t < |s.threads| && s.threads[t] in {Holding, Lockless} && s.file
    case RemoveLock(t) => t < |s.threads| && s.threads[t] == Deleting
    case Leave(t) => t < |s.threads| && s.threads[t] in {Lockless, Holding, Leaving}
  }

  function Move(s: State, t: nat, p: Phase): State
    requires t < |s.threads|
  {
    s.(threads := s.threads[t := p])
  }

  /** The name's lock is now `l`; when there is none any more, the old one was destroyed. */
  function WithLock(s: State, l: Option<Lock>): State
    requires s.lock.Some?
  {
    s.(lock := l, buried := if l.None? then s.buried + [s.lock.value.id] else s.buried)
  }

  function Next(s: State, a: Step): State
    requires Enabled(s, a)
  {
    match a
    case CreateFile => s.(file := true, naming := true)
    case AddLock =>
      s.(naming := false, lock := if s.lock.Some? then s.lock else Some(NewLock(|s.buried|)))
    case Enter(t) =>
      if s.lock.None? then Move(s, t, Lockless)
      else Move(WithLock(s, Some(Counted(s.lock.value))), t, Waiting)
    case Take(t) => Move(WithLock(s, Some(Taken(s.lock.value))), t, Woken)
    case Count(t) => Move(WithLock(s, Some(Uncounted(s.lock.value))), t, Holding)
    case RemoveFile(t) => Move(s.(file := false), t, Deleting)
    case RemoveLock(t) =>
      if s.lock.None? then Move(s, t, Leaving)
      else Move(WithLock(s, Removed(s.lock.value)), t, Leaving)
    case Leave(t) =>
      if s.lock.None? then Move(s, t, Outside)
      else Move(WithLock(s, Signalled(s.lock.value)), t, Outside)
  }

  // ---------------------------------------------------------------- counting threads

  predicate Counts(p: Phase) { p in {Waiting, Woken} }

  predicate Holds(p: Phase) { p in {Woken, Holding, Deleting, Leaving} }

  predicate Uses(p: Phase) { Counts(p) || Holds(p) }

  function HowMany(threads: seq<Phase>, of: Phase -> bool): (n: nat)
    ensures n <= |threads|
  {
    if threads == [] then 0 else HowMany(threads[1..], of) + if of(threads[0]) then 1 else 0
  }

  lemma {:induction false} HowManyMove(threads: seq<Phase>, t: nat, p: Phase, of: Phase -> bool)
    requires t < |threads|
    ensures HowMany(threads[t := p], of) ==
      HowMany(threads, of) - (if of(threads[t]) then 1 else 0) + if of(p) then 1 else 0
  {
    if t == 0 {
      assert threads[0 := p][1..] == threads[1..];
    } else {
      assert threads[t := p][1..] == threads[1..][t - 1 := p];
      HowManyMove(threads[1..], t - 1, p, of);
    }
  }

  lemma {:induction false} HowManyNone(threads: seq<Phase>, of: Phase -> bool)
    ensures HowMany(threads, of) == 0 <==> forall t :: 0 <= t < |threads| ==> !of(threads[t])
  {
    if threads != [] {
      HowManyNone(threads[1..], of);
      assert threads == [threads[0]] + threads[1..];
    }
  }

  /** One thread alone. */
  lemma {:induction false} HowManyOne(threads: seq<Phase>, t: nat, of: Phase -> bool)
    requires t < |threads| && of(threads[t])
    ensures HowMany(threads, of) >= 1
    ensures HowMany(threads, of) == 1 <==> forall u :: 0 <= u < |threads| && u != t ==> !of(threads[u])
  {
    var rest := threads[1..];
    assert forall u :: 0 < u < |threads| ==> threads[u] == rest[u - 1];
    if t == 0 {
      HowManyNone(rest, of);
      assert forall u :: 0 <= u < |rest| ==> rest[u] == threads[u + 1];
    } else {
      HowManyOne(rest, t - 1, of);
      HowManyNone(rest, of);
      assert forall u :: 0 <= u < |rest| ==> rest[u] == threads[u + 1];
    }
  }
}
