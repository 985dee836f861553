/** The index of File:Tag locks in the form of its C code: a dictionary of dictionaries, changed by
    one critical section at a time.  Each section is a step of the machine of `LockModel` for its own
    name, whatever the threads of that name are doing; every other name is untouched. */
module LockService {
  import opened StorageModel
  import opened LockModel

  class LockIndex {
    var index: map<string, map<string, Lock>>
    /** How many locks a name has had destroyed: the id of its next one. */
    var past: map<(string, string), nat>

    /** get_lock_of */
    function LockOf(file: string, tag: string): Option<Lock>
      reads this
    {
      if file in index && tag in index[file] then Some(index[file][tag]) else None
    }

    function Past(file: string, tag: string): nat
      reads this
    {
      if (file, tag) in past then past[(file, tag)] else 0
    }

    /** What the machine of one name says of it. */
    ghost predicate Shows(file: string, tag: string, s: State)
      reads this
    {
      LockOf(file, tag) == s.lock && Past(file, tag) == |s.buried|
    }

    /** A file with no tag left has no dictionary. */
    ghost predicate Valid()
      reads this
    {
      forall file :: file in index ==> index[file] != map[]
    }

    twostate predicate OthersKept(file: string, tag: string)
      reads this
    {
      forall f, t :: (f, t) != (file, tag) ==> LockOf(f, t) == old(LockOf(f, t)) && Past(f, t) == old(Past(f, t))
    }

    constructor ()
      ensures Valid() && forall f, t, threads :: Shows(f, t, Unnamed(threads))
    {
      index, past := map[], map[];
    }

    /** Replaces a lock that is there. */
    method Put(file: string, tag: string, lock: Lock)
      requires Valid() && LockOf(file, tag).Some?
      modifies this`index
      ensures Valid() && LockOf(file, tag) == Some(lock) && OthersKept(file, tag)
    {
      index := index[file := index[file][tag := lock]];
      assert tag in index[file];
    }

    /** storage_wait, up to the semaphore. */
    method StorageWaitCount(file: string, tag: string) returns (found: bool)
      requires Valid()
      modifies this`index
      ensures Valid() && OthersKept(file, tag) && found == old(LockOf(file, tag)).Some?
      ensures LockOf(file, tag) == if found then Some(Counted(old(LockOf(file, tag)).value)) else None
      ensures forall s, t ::
        old(Shows(file, tag, s)) && Enabled(s, Enter(t)) ==> Shows(file, tag, Next(s, Enter(t)))
    {
      var lock := LockOf(file, tag);
      if lock.None? { return false; }
      Put(file, tag, lock.value.(waiting := lock.value.waiting + 1));
      found := true;
    }

    /** sem_wait; `passed` is false while it would block. */
    method StorageWaitTake(file: string, tag: string) returns (passed: bool)
      requires Valid() && LockOf(file, tag).Some?
      modifies this`index
      ensures Valid() && OthersKept(file, tag) && passed == (old(LockOf(file, tag)).value.sem > 0)
      ensures LockOf(file, tag) ==
        Some(if passed then Taken(old(LockOf(file, tag)).value) else old(LockOf(file, tag)).value)
      ensures forall s, t ::
        passed && old(Shows(file, tag, s)) && Enabled(s, Take(t)) ==> Shows(file, tag, Next(s, Take(t)))
    {
      var lock := LockOf(file, tag).value;
      if lock.sem <= 0 { return false; }
      Put(file, tag, lock.(sem := lock.sem - 1));
      passed := true;
    }

    /** storage_wait, after the semaphore. */
    method StorageWaitUncount(file: string, tag: string)
      requires Valid() && LockOf(file, tag).Some?
      modifies this`index
      ensures Valid() && OthersKept(file, tag)
      ensures LockOf(file, tag) == Some(Uncounted(old(LockOf(file, tag)).value))
      ensures forall s, t ::
        old(Shows(file, tag, s)) && Enabled(s, Count(t)) ==> Shows(file, tag, Next(s, Count(t)))
    {
      var lock := LockOf(file, tag).value;
      Put(file, tag, lock.(waiting := lock.waiting - 1));
    }

    method StorageSignal(file: string, tag: string)
      requires Valid()
      modifies this
      ensures Valid() && OthersKept(file, tag)
      ensures LockOf(file, tag) == match old(LockOf(file, tag)) case None => None case Some(l) => Signalled(l)
      ensures forall s, t ::
        old(Shows(file, tag, s)) && Enabled(s, Leave(t)) ==> Shows(file, tag, Next(s, Leave(t)))
    {
      var lock := LockOf(file, tag);
      if lock.None? { return; }
      if !lock.value.delete || lock.value.waiting != 0 {
        Put(file, tag, lock.value.(sem := lock.value.sem + 1));
      } else {
        DestroyLock(file, tag);
      }
    }

    method AddLock(file: string, tag: string)
      requires Valid()
      modifies this`index
      ensures Valid() && OthersKept(file, tag)
      ensures LockOf(file, tag) ==
        if old(LockOf(file, tag)).Some? then old(LockOf(file, tag)) else Some(NewLock(old(Past(file, tag))))
      ensures forall s ::
        old(Shows(file, tag, s)) && Enabled(s, LockModel.AddLock) ==> Shows(file, tag, Next(s, LockModel.AddLock))
    {
      var tags := if file in index then index[file] else map[];
      if tag !in tags {
        tags := tags[tag := Lock(1, 0, false, Past(file, tag))];
      }
      assert tag in tags;
      index := index[file := tags];
    }

    method RemoveLock(file: string, tag: string)
      requires Valid()
      modifies this
      ensures Valid() && OthersKept(file, tag)
      ensures LockOf(file, tag) == match old(LockOf(file, tag)) case None => None case Some(l) => Removed(l)
      ensures forall s, t ::
        old(Shows(file, tag, s)) && Enabled(s, LockModel.RemoveLock(t)) ==>
          Shows(file, tag, Next(s, LockModel.RemoveLock(t)))
    {
      var lock := LockOf(file, tag);
      if lock.None? { return; }
      if lock.value.waiting != 0 {
        Put(file, tag, lock.value.(delete := true));
      } else {
        DestroyLock(file, tag);
      }
    }

    /** destroy_lock: the file's dictionary goes with its last tag. */
    method DestroyLock(file: string, tag: string)
      requires Valid() && LockOf(file, tag).Some?
      modifies this
      ensures Valid() && OthersKept(file, tag) && LockOf(file, tag) == None
      ensures Past(file, tag) == old(Past(file, tag)) + 1
    {
      past := past[(file, tag) := Past(file, tag) + 1];
      var tags := index[file] - {tag};
      assert forall t :: t in index[file] && t != tag ==> t in tags;
      index := index[file := tags];
      if tags == map[] { index := index - {file}; }
    }
  }
}
