/** What every interleaving keeps: the semaphore and its holder add up to one, the counter counts,
    and a lock is destroyed exactly once, with nobody else waiting on it or holding it. */
module LockLifecycle {
  import opened StorageModel
  import opened LockModel

  /** No thread is between storage_wait and storage_signal. */
  ghost predicate Quiet(s: State) {
    forall t :: 0 <= t < |s.threads| ==> s.threads[t] == Outside
  }

  ghost predicate Nobody(s: State, p: Phase) {
    forall t :: 0 <= t < |s.threads| ==> s.threads[t] != p
  }

  ghost predicate LockSound(s: State, l: Lock) {
    && l.id == |s.buried|
    && l.sem >= 0 && l.sem + HowMany(s.threads, Holds) == 1
    && l.waiting == HowMany(s.threads, Counts)
    && Nobody(s, Lockless)
    && (s.file ==> !l.delete && Nobody(s, Deleting) && Nobody(s, Leaving))
    && (!s.file ==> l.delete || !Nobody(s, Deleting))
    && (l.delete ==> Nobody(s, Deleting) && (l.sem == 1 ==> l.waiting > 0))
    && (!Nobody(s, Leaving) ==> l.delete)
  }

  ghost predicate Inv(s: State) {
    && (forall k :: 0 <= k < |s.buried| ==> s.buried[k] == k)
    && (s.naming ==> s.lock.None? && s.file && Quiet(s))
    && match s.lock
       case Some(l) => LockSound(s, l)
       case None =>
         && (s.file ==> s.naming)
         && forall t :: 0 <= t < |s.threads| ==> s.threads[t] in {Outside, Lockless, Leaving}
  }

  // ---------------------------------------------------------------- every step keeps it

  lemma Moved(s: State, t: nat, p: Phase)
    requires t < |s.threads|
    ensures var r := s.threads[t := p];
      && HowMany(r, Holds) == HowMany(s.threads, Holds) - (if Holds(s.threads[t]) then 1 else 0)
           + (if Holds(p) then 1 else 0)
      && HowMany(r, Counts) ==
           HowMany(s.threads, Counts) - (if Counts(s.threads[t]) then 1 else 0) + (if Counts(p) then 1 else 0)
  {
    HowManyMove(s.threads, t, p, Holds);
    HowManyMove(s.threads, t, p, Counts);
  }

  /** The one holder. */
  lemma OnlyHolder(s: State, t: nat)
    requires Inv(s) && s.lock.Some? && t < |s.threads| && Holds(s.threads[t])
    ensures s.lock.value.sem == 0 && forall u :: 0 <= u < |s.threads| && u != t ==> !Holds(s.threads[u])
  {
    HowManyOne(s.threads, t, Holds);
  }

  /** The hypothesis: the name is not created while an operation on it is in flight, and none
      starts before its lock is there. */
  ghost predicate Apart(s: State, a: Step) {
    match a
    case CreateFile => Quiet(s)
    case Enter(_) => !s.naming
    case _ => true
  }

  lemma StepKeepsInv(s: State, a: Step)
    requires Inv(s) && Enabled(s, a) && Apart(s, a)
    ensures Inv(Next(s, a))
  {
    match a
    case AddLock => AddLockKeepsInv(s);
    case CreateFile => CreateKeepsInv(s);
    case Enter(t) => EnterKeepsInv(s, t);
    case Take(t) => TakeKeepsInv(s, t);
    case Count(t) => CountKeepsInv(s, t);
    case RemoveFile(t) => RemoveFileKeepsInv(s, t);
    case RemoveLock(t) => RemoveLockKeepsInv(s, t);
    case Leave(t) => LeaveKeepsInv(s, t);
  }

  lemma QuietCounts(s: State)
    requires Quiet(s)
    ensures HowMany(s.threads, Holds) == 0 && HowMany(s.threads, Counts) == 0
  {
    HowManyNone(s.threads, Holds);
    HowManyNone(s.threads, Counts);
  }

  lemma CreateKeepsInv(s: State)
    requires Inv(s) && Enabled(s, CreateFile) && Quiet(s)
    ensures Inv(Next(s, CreateFile))
  {
    QuietCounts(s);
  }

  lemma AddLockKeepsInv(s: State)
    requires Inv(s) && Enabled(s, AddLock)
    ensures Inv(Next(s, AddLock))
  {
    QuietCounts(s);
  }

  lemma EnterKeepsInv(s: State, t: nat)
    requires Inv(s) && Enabled(s, Enter(t)) && !s.naming
    ensures Inv(Next(s, Enter(t)))
  {
    if s.lock.Some? {
      Moved(s, t, Waiting);
      var r := Next(s, Enter(t));
      assert Nobody(r, Deleting) <==> Nobody(s, Deleting) by { Elsewhere(s, t, Waiting, Deleting); }
      assert Nobody(r, Leaving) <==> Nobody(s, Leaving) by { Elsewhere(s, t, Waiting, Leaving); }
    }
  }

  /** A phase the thread neither leaves nor enters. */
  lemma Elsewhere(s: State, t: nat, p: Phase, q: Phase)
    requires t < |s.threads| && s.threads[t] != q && p != q
    ensures forall r: State :: r.threads == s.threads[t := p] ==> (Nobody(r, q) <==> Nobody(s, q))
  {
    forall r: State | r.threads == s.threads[t := p]
      ensures Nobody(r, q) <==> Nobody(s, q)
    {
      if Nobody(r, q) {
        forall u | 0 <= u < |s.threads| ensures s.threads[u] != q { if u != t { assert r.threads[u] == s.threads[u]; } }
      }
    }
  }

  lemma TakeKeepsInv(s: State, t: nat)
    requires Inv(s) && Enabled(s, Take(t))
    ensures Inv(Next(s, Take(t)))
  {
    Moved(s, t, Woken);
    Elsewhere(s, t, Woken, Deleting);
    Elsewhere(s, t, Woken, Leaving);
    Elsewhere(s, t, Woken, Lockless);
  }

  lemma CountKeepsInv(s: State, t: nat)
    requires Inv(s) && Enabled(s, Count(t))
    ensures Inv(Next(s, Count(t)))
  {
    Moved(s, t, Holding);
    OnlyHolder(s, t);
    Elsewhere(s, t, Holding, Deleting);
    Elsewhere(s, t, Holding, Leaving);
    Elsewhere(s, t, Holding, Lockless);
  }

  lemma RemoveFileKeepsInv(s: State, t: nat)
    requires Inv(s) && Enabled(s, RemoveFile(t))
    ensures Inv(Next(s, RemoveFile(t)))
  {
    Moved(s, t, Deleting);
    OnlyHolder(s, t);
    Elsewhere(s, t, Deleting, Leaving);
    Elsewhere(s, t, Deleting, Lockless);
    var r := Next(s, RemoveFile(t));
    assert r.threads[t] == Deleting;
  }

  lemma RemoveLockKeepsInv(s: State, t: nat)
    requires Inv(s) && Enabled(s, RemoveLock(t))
    ensures Inv(Next(s, RemoveLock(t)))
  {
    Moved(s, t, Leaving);
    OnlyHolder(s, t);
    var r := Next(s, RemoveLock(t));
    Elsewhere(s, t, Leaving, Lockless);
    if r.lock.None? {
      HowManyNone(s.threads, Counts);
    } else {
      assert r.threads[t] == Leaving;
    }
  }

  lemma LeaveKeepsInv(s: State, t: nat)
    requires Inv(s) && Enabled(s, Leave(t))
    ensures Inv(Next(s, Leave(t)))
  {
    if s.lock.Some? {
      Moved(s, t, Outside);
      OnlyHolder(s, t);
      Elsewhere(s, t, Outside, Lockless);
      Elsewhere(s, t, Outside, Deleting);
      var r := Next(s, Leave(t));
      if r.lock.None? { HowManyNone(s.threads, Counts); }
    }
  }

  // ---------------------------------------------------------------- what it means

  /** In every reachable state the semaphore and the threads that hold the lock add up to one. */
  lemma MutualExclusion(s: State, t: nat, u: nat)
    requires Inv(s) && s.lock.Some? && t < |s.threads| && u < |s.threads| && Holds(s.threads[t]) && Holds(s.threads[u])
    ensures t == u
  {
    OnlyHolder(s, t);
  }

  /** A lock is destroyed by a thread that uses it, with no other thread waiting on it or
      holding it; it is the only live lock of the name and was never destroyed before. */
  lemma DestroyedAlone(s: State, a: Step)
    requires Inv(s) && Enabled(s, a) && s.lock.Some? && Next(s, a).lock.None?
    ensures (a.RemoveLock? || a.Leave?) && Holds(s.threads[a.t])
    ensures forall u :: 0 <= u < |s.threads| && u != a.t ==> !Uses(s.threads[u])
    ensures s.lock.value.id !in s.buried && Next(s, a).buried == s.buried + [s.lock.value.id]
  {
    OnlyHolder(s, a.t);
    HowManyNone(s.threads, Counts);
  }

  ghost predicate NobodyWaits(s: State) {
    Nobody(s, Waiting) && Nobody(s, Woken)
  }

  /** remove_lock destroys the lock at once exactly when nobody waits for it; otherwise the last of
      those who do, and not before, destroys it as it leaves. */
  lemma DestroyedWhenUnused(s: State, t: nat)
    requires Inv(s)
    ensures Enabled(s, RemoveLock(t)) ==>
      var r := Next(s, RemoveLock(t));
      && s.lock.Some? && (r.lock.None? <==> NobodyWaits(s))
      && (r.lock.Some? ==> r.lock.value == s.lock.value.(delete := true))
    ensures Enabled(s, Leave(t)) && s.lock.Some? ==>
      var r := Next(s, Leave(t));
      && (r.lock.None? <==> s.lock.value.delete && NobodyWaits(s))
      && (r.lock.Some? ==> r.lock.value == s.lock.value.(sem := 1))
  {
    HowManyNone(s.threads, Counts);
    assert s.lock.Some? ==> (s.lock.value.waiting == 0 <==> NobodyWaits(s)) by {
      forall u | 0 <= u < |s.threads|
        ensures Counts(s.threads[u]) <==> s.threads[u] == Waiting || s.threads[u] == Woken
      {
      }
    }
    if Enabled(s, Leave(t)) && s.lock.Some? { OnlyHolder(s, t); }
  }

  /** Between operations a name has a lock exactly when it has a file, and the lock is open: no
      lock is left behind. */
  lemma QuietLock(s: State)
    requires Inv(s) && Quiet(s) && !s.naming
    ensures s.lock.Some? <==> s.file
    ensures s.file ==> s.lock.value == NewLock(|s.buried|)
  {
    QuietCounts(s);
  }

  /** Somebody can always go on. */
  lemma Progress(s: State) returns (a: Step)
    requires Inv(s) && !Quiet(s)
    ensures !a.CreateFile? && !a.AddLock? && !a.Enter? && Enabled(s, a)
  {
    var t: nat :| t < |s.threads| && s.threads[t] != Outside;
    if s.threads[t] == Waiting {
      if s.lock.value.sem > 0 {
        a := Take(t);
      } else {
        HowManyNone(s.threads, Holds);
        var u: nat :| u < |s.threads| && Holds(s.threads[u]);
        a := HolderStep(s, u);
      }
    } else {
      a := HolderStep(s, t);
    }
  }

  lemma HolderStep(s: State, t: nat) returns (a: Step)
    requires Inv(s) && t < |s.threads| && s.threads[t] !in {Outside, Waiting}
    ensures !a.CreateFile? && !a.AddLock? && !a.Enter? && Enabled(s, a)
  {
    a := match s.threads[t] case Woken => Count(t) case Deleting => RemoveLock(t) case _ => Leave(t);
  }

  // ---------------------------------------------------------------- runs

  /** Each step is possible and meets the hypothesis. */
  ghost predicate Runs(s: State, steps: seq<Step>)
    decreases |steps|
  {
    steps != [] ==>
      && Enabled(s, steps[0]) && Apart(s, steps[0])
      && Runs(Next(s, steps[0]), steps[1..])
  }

  function After(s: State, steps: seq<Step>): State
    requires Runs(s, steps)
    decreases |steps|
  {
    if steps == [] then s else After(Next(s, steps[0]), steps[1..])
  }

  /** From a name with no file, every interleaving keeps the invariant, and the locks destroyed
      are those created before the live one, each once. */
  lemma {:induction false} RunKeepsInv(s: State, steps: seq<Step>)
    requires Inv(s) && Runs(s, steps)
    ensures Inv(After(s, steps)) && s.buried <= After(s, steps).buried
    decreases |steps|
  {
    if steps != [] {
      StepKeepsInv(s, steps[0]);
      RunKeepsInv(Next(s, steps[0]), steps[1..]);
    }
  }

  lemma FreshName(n: nat)
    ensures Inv(Unnamed(seq(n, _ => Outside)))
  {
  }

  // ---------------------------------------------------------------- creating a name in use

  /** Creating the name keeps the invariant exactly when no operation on it is in flight. */
  lemma CreateExact(s: State)
    requires Inv(s) && Enabled(s, CreateFile)
    ensures Inv(Next(s, CreateFile)) <==> Quiet(s)
  {
    if Quiet(s) { CreateKeepsInv(s); }
  }

  /** Starting an operation keeps it exactly when the file's lock is not still to come. */
  lemma EnterExact(s: State, t: nat)
    requires Inv(s) && Enabled(s, Enter(t))
    ensures Inv(Next(s, Enter(t))) <==> !s.naming
  {
    if s.naming {
      var r := Next(s, Enter(t));
      assert r.threads[t] == Lockless;
    } else {
      EnterKeepsInv(s, t);
    }
  }

  // ---------------------------------------------------------------- what breaks

  /** The steps lead from s to r; nothing but their being possible is asked. */
  ghost predicate Leads(s: State, steps: seq<Step>, r: State)
    decreases |steps|
  {
    if steps == [] then s == r else Enabled(s, steps[0]) && Leads(Next(s, steps[0]), steps[1..], r)
  }

  lemma {:induction false} LeadsOn(s: State, steps: seq<Step>, q: State, a: Step, r: State, longer: seq<Step>)
    requires Leads(s, steps, q) && Enabled(q, a) && Next(q, a) == r && longer == steps + [a]
    ensures Leads(s, longer, r)
    decreases |steps|
  {
    if steps == [] {
      assert longer[1..] == [];
    } else {
      assert longer[1..] == steps[1..] + [a];
      LeadsOn(Next(s, steps[0]), steps[1..], q, a, r, longer[1..]);
    }
  }

  lemma LeadsNowhere(s: State)
    ensures Leads(s, [], s)
  {
  }

  /** Its metadata is written, its lock is not there yet. */
  function HalfNamed(threads: seq<Phase>): State {
    State(None, true, true, threads, [])
  }

  /** Its file and its lock are there. */
  function Named(sem: int, waiting: int, threads: seq<Phase>): State {
    State(Some(Lock(sem, waiting, false, 0)), true, false, threads, [])
  }

  /** An operation that starts before the file's lock is there goes on without one, */
  lemma LocklessEnters()
    ensures Inv(Unnamed([Outside, Outside]))
    ensures Leads(Unnamed([Outside, Outside]),
                  [CreateFile, Enter(0), AddLock], Named(1, 0, [Lockless, Outside]))
  {
    assert Inv(Unnamed([Outside, Outside]));
    hide Inv, Leads;
    var s := Unnamed([Outside, Outside]);
    LeadsNowhere(s);
    LeadsOn(s, [], Unnamed([Outside, Outside]), CreateFile,
            HalfNamed([Outside, Outside]), [CreateFile]);
    assert [Outside, Outside][0 := Lockless] == [Lockless, Outside];
    LeadsOn(s, [CreateFile], HalfNamed([Outside, Outside]), Enter(0),
            HalfNamed([Lockless, Outside]), [CreateFile, Enter(0)]);
    LeadsOn(s, [CreateFile, Enter(0)], HalfNamed([Lockless, Outside]), AddLock,
            Named(1, 0, [Lockless, Outside]), [CreateFile, Enter(0), AddLock]);
  }

  /** so that it and the next are inside at once; */
  lemma LocklessInside()
    ensures Leads(Unnamed([Outside, Outside]),
                  [CreateFile, Enter(0), AddLock, Enter(1), Take(1), Count(1)],
                  Named(0, 0, [Lockless, Holding]))
  {
    hide Leads;
    var s := Unnamed([Outside, Outside]);
    LocklessEnters();
    assert [Lockless, Outside][1 := Waiting] == [Lockless, Waiting];
    LeadsOn(s, [CreateFile, Enter(0), AddLock], Named(1, 0, [Lockless, Outside]), Enter(1),
            Named(1, 1, [Lockless, Waiting]), [CreateFile, Enter(0), AddLock, Enter(1)]);
    assert [Lockless, Waiting][1 := Woken] == [Lockless, Woken];
    LeadsOn(s, [CreateFile, Enter(0), AddLock, Enter(1)], Named(1, 1, [Lockless, Waiting]), Take(1),
            Named(0, 1, [Lockless, Woken]), [CreateFile, Enter(0), AddLock, Enter(1), Take(1)]);
    assert [Lockless, Woken][1 := Holding] == [Lockless, Holding];
    LeadsOn(s, [CreateFile, Enter(0), AddLock, Enter(1), Take(1)], Named(0, 1, [Lockless, Woken]), Count(1),
            Named(0, 0, [Lockless, Holding]), [CreateFile, Enter(0), AddLock, Enter(1), Take(1), Count(1)]);
  }

  /** and one that found no file either signals a lock it never took, */
  lemma SignalledUntaken()
    ensures Inv(Unnamed([Outside, Outside, Outside]))
    ensures Leads(Unnamed([Outside, Outside, Outside]),
                  [Enter(0), CreateFile, AddLock, Leave(0)],
                  Named(2, 0, [Outside, Outside, Outside]))
  {
    assert Inv(Unnamed([Outside, Outside, Outside]));
    hide Inv, Leads;
    var s := Unnamed([Outside, Outside, Outside]);
    LeadsNowhere(s);
    assert [Outside, Outside, Outside][0 := Lockless] == [Lockless, Outside, Outside];
    LeadsOn(s, [], Unnamed([Outside, Outside, Outside]), Enter(0),
            Unnamed([Lockless, Outside, Outside]), [Enter(0)]);
    LeadsOn(s, [Enter(0)], Unnamed([Lockless, Outside, Outside]), CreateFile,
            HalfNamed([Lockless, Outside, Outside]), [Enter(0), CreateFile]);
    LeadsOn(s, [Enter(0), CreateFile], HalfNamed([Lockless, Outside, Outside]), AddLock,
            Named(1, 0, [Lockless, Outside, Outside]), [Enter(0), CreateFile, AddLock]);
    assert [Lockless, Outside, Outside][0 := Outside] == [Outside, Outside, Outside];
    LeadsOn(s, [Enter(0), CreateFile, AddLock], Named(1, 0, [Lockless, Outside, Outside]), Leave(0),
            Named(2, 0, [Outside, Outside, Outside]), [Enter(0), CreateFile, AddLock, Leave(0)]);
  }

  /** and then two threads hold it at once. */
  lemma TwoHolders()
    ensures Leads(Unnamed([Outside, Outside, Outside]),
                  [Enter(0), CreateFile, AddLock, Leave(0), Enter(1), Enter(2), Take(1), Take(2)],
                  Named(0, 2, [Outside, Woken, Woken]))
  {
    hide Inv, Leads;
    var s := Unnamed([Outside, Outside, Outside]);
    SignalledUntaken();
    assert [Outside, Outside, Outside][1 := Waiting] == [Outside, Waiting, Outside];
    LeadsOn(s, [Enter(0), CreateFile, AddLock, Leave(0)], Named(2, 0, [Outside, Outside, Outside]), Enter(1),
            Named(2, 1, [Outside, Waiting, Outside]), [Enter(0), CreateFile, AddLock, Leave(0), Enter(1)]);
    assert [Outside, Waiting, Outside][2 := Waiting] == [Outside, Waiting, Waiting];
    LeadsOn(s, [Enter(0), CreateFile, AddLock, Leave(0), Enter(1)], Named(2, 1, [Outside, Waiting, Outside]), Enter(2),
            Named(2, 2, [Outside, Waiting, Waiting]), [Enter(0), CreateFile, AddLock, Leave(0), Enter(1), Enter(2)]);
    assert [Outside, Waiting, Waiting][1 := Woken] == [Outside, Woken, Waiting];
    LeadsOn(s, [Enter(0), CreateFile, AddLock, Leave(0), Enter(1), Enter(2)],
      Named(2, 2, [Outside, Waiting, Waiting]), Take(1),
            Named(1, 2, [Outside, Woken, Waiting]), [Enter(0), CreateFile, AddLock, Leave(0), Enter(1), Enter(2),
                  Take(1)]);
    assert [Outside, Woken, Waiting][2 := Woken] == [Outside, Woken, Woken];
    LeadsOn(s, [Enter(0), CreateFile, AddLock, Leave(0), Enter(1), Enter(2), Take(1)],
      Named(1, 2, [Outside, Woken, Waiting]), Take(2),
            Named(0, 2, [Outside, Woken, Woken]), [Enter(0), CreateFile, AddLock, Leave(0), Enter(1), Enter(2),
                  Take(1), Take(2)]);
  }
}
