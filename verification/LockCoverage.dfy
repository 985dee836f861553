/** What the locks protect: every block, and with it the bitmap and the hash index, is only touched
    under its own lock, and under the File:Tag's for all but the block a READ copies. */
module LockCoverage {
  import opened StorageModel
  import opened LockOrder
  import opened LockTraces

  /** From `held` on, block, bitmap and hash index locks are only taken while the File:Tag's is
      held. */
  ghost predicate Covered(ft: FileTag, held: set<LockId>, todo: seq<Action>)
    decreases |todo|
  {
    todo != [] ==>
      match todo[0]
      case Acquire(l) => (l.OfFile? || l.LocksIndex? || OfFile(ft) in held) && Covered(ft, held + {l}, todo[1..])
      case Release(l) => Covered(ft, held - {l}, todo[1..])
  }

  /** Nothing but File:Tag locks and the lock index. */
  ghost predicate Outer(todo: seq<Action>) {
    forall a :: a in todo && a.Acquire? ==> a.lock.OfFile? || a.lock.LocksIndex?
  }

  lemma {:induction false} OuterCovered(ft: FileTag, held: set<LockId>, todo: seq<Action>)
    requires Outer(todo)
    ensures Covered(ft, held, todo)
    decreases |todo|
  {
    if todo != [] {
      var l := todo[0].lock;
      OuterCovered(ft, if todo[0].Acquire? then held + {l} else held - {l}, todo[1..]);
    }
  }

  /** Before the File:Tag's lock. */
  lemma {:induction false} OuterFirst(ft: FileTag, held: set<LockId>, first: seq<Action>, rest: seq<Action>)
    requires Outer(first) && forall now :: Covered(ft, now, rest)
    ensures Covered(ft, held, first + rest)
    decreases |first|
  {
    if first == [] {
      assert first + rest == rest;
    } else {
      var all := first + rest;
      assert all[0] == first[0] && all[1..] == first[1..] + rest;
      var l := first[0].lock;
      OuterFirst(ft, if first[0].Acquire? then held + {l} else held - {l}, first[1..], rest);
    }
  }

  /** While it is held: the body does not give it back. */
  lemma {:induction false} BodyCovered(ft: FileTag, held: set<LockId>, body: seq<Action>, rest: seq<Action>)
    requires OfFile(ft) in held && Release(OfFile(ft)) !in body && Outer(rest)
    ensures Covered(ft, held, body + rest)
    decreases |body|
  {
    var all := body + rest;
    if body == [] {
      assert all == rest;
      OuterCovered(ft, held, rest);
    } else {
      assert all[0] == body[0] && all[1..] == body[1..] + rest;
      var l := body[0].lock;
      BodyCovered(ft, if body[0].Acquire? then held + {l} else held - {l}, body[1..], rest);
    }
  }

  lemma UnderWait(ft: FileTag, held: set<LockId>, body: seq<Action>, rest: seq<Action>)
    requires Release(OfFile(ft)) !in body && Outer(rest)
    ensures Covered(ft, held, Wait(ft) + body + rest)
  {
    var all := Wait(ft) + body + rest;
    assert Wait(ft) == [Acquire(LocksIndex), Release(LocksIndex), Acquire(OfFile(ft))];
    assert all == [Acquire(LocksIndex), Release(LocksIndex), Acquire(OfFile(ft))] + (body + rest);
    assert all[1..][1..][1..] == body + rest;
    BodyCovered(ft, held + {LocksIndex} - {LocksIndex} + {OfFile(ft)}, body, rest);
  }

  // ---------------------------------------------------------------- what the bodies are made of

  lemma {:induction false} InRepeat<T>(xs: seq<T>, each: T -> seq<Action>, a: Action)
    ensures a in Repeat(xs, each) <==> exists x :: x in xs && a in each(x)
  {
    if xs != [] {
      InRepeat(xs[1..], each, a);
      assert xs == [xs[0]] + xs[1..];
    }
  }

  lemma {:induction false} InGrow(extra: nat, a: Action)
    ensures a in GrowActions(extra) <==> extra > 0 && (a == Acquire(OfBlock(0)) || a == Release(OfBlock(0)))
  {
    if extra > 0 { InGrow(extra - 1, a); }
  }

  /** No body gives back a File:Tag lock. */
  lemma BodiesKeep(ft: FileTag)
    ensures forall dropped :: Release(OfFile(ft)) !in Repeat(dropped, DropActions)
    ensures forall dropped :: Release(OfFile(ft)) !in Repeat(dropped, DeleteBlockActions)
    ensures forall blocks :: Release(OfFile(ft)) !in Repeat(blocks, CommitBlockActions)
    ensures forall blocks :: Release(OfFile(ft)) !in Repeat(blocks, LinkActions)
    ensures forall extra :: Release(OfFile(ft)) !in GrowActions(extra)
  {
    var a := Release(OfFile(ft));
    forall dropped { InRepeat(dropped, DropActions, a); }
    forall dropped { InRepeat(dropped, DeleteBlockActions, a); }
    forall blocks { InRepeat(blocks, CommitBlockActions, a); }
    forall blocks { InRepeat(blocks, LinkActions, a); }
    forall extra { InGrow(extra, a); }
  }

  /** Every operation but a READ that finds its block touches blocks, bitmap and hash index only
      while it holds the lock of the File:Tag it changes. */
  lemma ChangesCovered(op: Operation)
    requires !op.OpNoLock? && !op.OpCreate?
    ensures Covered(op.ft, {}, ActionsOf(op)) <==> !(op.OpRead? && op.block.Some?)
  {
    var ft := op.ft;
    BodiesKeep(ft);
    match op
    case OpTruncate(_, run) =>
      var body := match run
        case TruncateRefused => []
        case Grown(extra) => GrowActions(extra)
        case Shrunk(d) => Repeat(d, DropActions);
      UnderWait(ft, {}, body, Signal(ft));
    case OpWrite(_, run) =>
      var body := match run
        case WriteRefused => []
        case InPlace(p) => OnBlock(p, [])
        case NoSpace(p) => OnBlock(p, TouchBitmap(true))
        case Copied(p, q) => OnBlock(p, TouchBitmap(true)) + OnBlock(q, []);
      UnderWait(ft, {}, body, Signal(ft));
    case OpRead(_, block) => ReadCovered(ft, block);
    case OpCommit(_, run) =>
      UnderWait(ft, {}, match run case None => [] case Some(blocks) => Repeat(blocks, CommitBlockActions), Signal(ft));
    case OpTag(src, _, run) => TagCovered(src, ft, run);
    case OpDelete(_, run) => DeleteCovered(ft, run);
  }

  lemma ReadCovered(ft: FileTag, block: Option<nat>)
    ensures Covered(ft, {}, ReadActions(ft, block)) <==> block.None?
  {
    var all := ReadActions(ft, block);
    match block
    case None => OuterCovered(ft, {}, all);
    case Some(p) =>
      var b := all[1..];
      var c := b[1..];
      var d := c[1..];
      var e := d[1..];
      var f := e[1..];
      var g := f[1..];
      assert all[0] == Acquire(LocksIndex) && b[0] == Release(LocksIndex) && c[0] == Acquire(OfFile(ft));
      assert d[0] == Acquire(LocksIndex) && e[0] == Release(OfFile(ft)) && f[0] == Release(LocksIndex);
      assert g[0] == Acquire(OfBlock(p));
      var none: set<LockId> := {};
      var h2 := none + {LocksIndex} - {LocksIndex};
      var h4 := h2 + {OfFile(ft)} + {LocksIndex};
      assert Covered(ft, {}, all) ==> Covered(ft, none + {LocksIndex}, b);
      assert Covered(ft, none + {LocksIndex}, b) ==> Covered(ft, h2, c);
      assert Covered(ft, h2, c) ==> Covered(ft, h2 + {OfFile(ft)}, d);
      assert Covered(ft, h2 + {OfFile(ft)}, d) ==> Covered(ft, h4, e);
      assert Covered(ft, h4, e) ==> Covered(ft, h4 - {OfFile(ft)}, f);
      assert Covered(ft, h4 - {OfFile(ft)}, f) ==> Covered(ft, h4 - {OfFile(ft)} - {LocksIndex}, g);
      assert !Covered(ft, h4 - {OfFile(ft)} - {LocksIndex}, g);
  }

  lemma TagCovered(src: FileTag, ft: FileTag, run: TagRun)
    ensures Covered(ft, {}, TagActions(src, ft, run))
  {
    BodiesKeep(ft);
    var first := Around(LocksIndex, []) + (Wait(src) + Signal(src));
    match run
    case Linked(blocks) =>
      var rest := Wait(ft) + Repeat(blocks, LinkActions) + Signal(ft);
      forall now ensures Covered(ft, now, rest) { UnderWait(ft, now, Repeat(blocks, LinkActions), Signal(ft)); }
      OuterFirst(ft, {}, first, rest);
    case LinkFails(blocks) =>
      var rest := Wait(ft) + Repeat(blocks, LinkActions);
      forall now ensures Covered(ft, now, rest) {
        UnderWait(ft, now, Repeat(blocks, LinkActions), []);
        assert rest + [] == rest;
      }
      OuterFirst(ft, {}, first, rest);
    case _ => OuterCovered(ft, {}, TagActions(src, ft, run));
  }

  lemma DeleteCovered(ft: FileTag, run: DeleteRun)
    ensures Covered(ft, {}, DeleteActions(ft, run))
  {
    BodiesKeep(ft);
    match run
    case DeleteBase =>
    case DeleteMissing => UnderWait(ft, {}, [], Signal(ft));
    case Deleted(dropped, destroyed) =>
      var body := Repeat(dropped, DeleteBlockActions);
      if destroyed {
        UnderWait(ft, {}, body, Signal(ft) + Around(LocksIndex, []));
        assert DeleteActions(ft, run) == Wait(ft) + body + (Signal(ft) + Around(LocksIndex, []));
      } else {
        UnderWait(ft, {}, body + Around(LocksIndex, []), Signal(ft));
      }
  }

  // ---------------------------------------------------------------- which blocks

  /** The blocks an operation goes through. */
  ghost function BlocksOf(op: Operation): set<nat> {
    match op
    case OpNoLock => {}
    case OpCreate(_) => {}
    case OpTruncate(_, run) =>
      (match run
       case TruncateRefused => {}
       case Grown(extra) => if extra > 0 then {0} else {}
       case Shrunk(dropped) => set d | d in dropped :: d.block)
    case OpWrite(_, run) =>
      (match run
       case WriteRefused => {}
       case InPlace(p) => {p}
       case NoSpace(p) => {p}
       case Copied(p, q) => {p, q})
    case OpRead(_, block) => if block.Some? then {block.value} else {}
    case OpCommit(_, run) => if run.Some? then set p, c | c in run.value && p in CommitBlocks(c) :: p else {}
    case OpTag(_, _, run) => if run.Linked? || run.LinkFails? then set p | p in run.blocks else {}
    case OpDelete(_, run) => if run.Deleted? then set d | d in run.dropped :: d.block else {}
  }

  function CommitBlocks(c: CommitRun): set<nat> {
    if c.Reassigned? then {c.p, c.q} else {c.p}
  }

  lemma TruncateBlocks(ft: FileTag, run: TruncateRun, p: nat)
    ensures Acquire(OfBlock(p)) in TruncateActions(ft, run) <==> p in BlocksOf(OpTruncate(ft, run))
  {
    var a := Acquire(OfBlock(p));
    match run
    case TruncateRefused =>
    case Grown(extra) => InGrow(extra, a);
    case Shrunk(dropped) =>
      InRepeat(dropped, DropActions, a);
      assert forall d :: a in DropActions(d) <==> p == d.block;
  }

  lemma CommitBlocksLocked(ft: FileTag, run: Option<seq<CommitRun>>, p: nat)
    ensures Acquire(OfBlock(p)) in CommitActions(ft, run) <==> p in BlocksOf(OpCommit(ft, run))
  {
    var a := Acquire(OfBlock(p));
    if run.Some? {
      InRepeat(run.value, CommitBlockActions, a);
      forall c ensures a in CommitBlockActions(c) <==> p in CommitBlocks(c) { CommitBlock(c, p); }
      hide CommitBlockActions, Repeat, CommitBlocks;
    }
  }

  lemma CommitBlock(c: CommitRun, p: nat)
    ensures Acquire(OfBlock(p)) in CommitBlockActions(c) <==> p in CommitBlocks(c)
  {
    match c
    case Loaded(q) =>
    case Same(q) =>
      assert CommitBlockActions(c) == [Acquire(OfBlock(q))] + Around(HashIndex, []) + [Release(OfBlock(q))];
    case Reassigned(q, r) =>
      assert CommitBlockActions(c) ==
        [Acquire(OfBlock(q))] + Around(HashIndex, []) + [Release(OfBlock(q))] + OnBlock(r, []) + TouchBitmap(q != 0);
  }

  lemma TagBlocks(src: FileTag, ft: FileTag, run: TagRun, p: nat)
    ensures Acquire(OfBlock(p)) in TagActions(src, ft, run) <==> p in BlocksOf(OpTag(src, ft, run))
  {
    var a := Acquire(OfBlock(p));
    if run.Linked? || run.LinkFails? {
      InRepeat(run.blocks, LinkActions, a);
      assert forall x :: a in LinkActions(x) <==> p == x;
    }
  }

  lemma DeleteBlocks(ft: FileTag, run: DeleteRun, p: nat)
    ensures Acquire(OfBlock(p)) in DeleteActions(ft, run) <==> p in BlocksOf(OpDelete(ft, run))
  {
    var a := Acquire(OfBlock(p));
    if run.Deleted? {
      InRepeat(run.dropped, DeleteBlockActions, a);
      assert forall d :: a in DeleteBlockActions(d) <==> p == d.block;
    }
  }

  /** It takes the lock of each of them, and of no other. */
  lemma BlocksLocked(op: Operation, p: nat)
    ensures Acquire(OfBlock(p)) in ActionsOf(op) <==> p in BlocksOf(op)
  {
    hide TruncateActions, CommitActions, TagActions, DeleteActions;
    match op
    case OpTruncate(ft, run) => TruncateBlocks(ft, run, p);
    case OpCommit(ft, run) => CommitBlocksLocked(ft, run, p);
    case OpTag(src, ft, run) => TagBlocks(src, ft, run, p);
    case OpDelete(ft, run) => DeleteBlocks(ft, run, p);
    case _ =>
  }
}
