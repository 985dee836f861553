/** The locks each storage operation takes, for everything it may find on disk: the block lists,
    the link counts and the index answers are free, so the traces cover every interleaving. */
module LockTraces {
  import opened StorageModel
  import opened LockOrder

  // ---------------------------------------------------------------- shared sections

  function Wait(ft: FileTag): seq<Action> {
    Around(LocksIndex, []) + [Acquire(OfFile(ft))]
  }

  function Signal(ft: FileTag): seq<Action> {
    [Acquire(LocksIndex), Release(OfFile(ft)), Release(LocksIndex)]
  }

  /** storage_wait and storage_signal on a name with no lock: each looks, and returns. */
  function NoLock(): seq<Action> {
    Around(LocksIndex, []) + Around(LocksIndex, [])
  }

  function OnBlock(p: nat, part: seq<Action>): seq<Action> {
    Around(OfBlock(p), part)
  }

  function TouchBitmap(when: bool): seq<Action> {
    if when then Around(Bitmap, []) else []
  }

  function Repeat<T>(xs: seq<T>, each: T -> seq<Action>): seq<Action> {
    if xs == [] then [] else each(xs[0]) + Repeat(xs[1..], each)
  }

  // ---------------------------------------------------------------- TRUNCATE

  datatype TruncateRun = TruncateRefused | Grown(extra: nat) | Shrunk(dropped: seq<Dropped>)

  /** A block whose link is removed, and whether that freed it. */
  datatype Dropped = Dropped(block: nat, unlinked: bool)

  function DropActions(d: Dropped): seq<Action> {
    OnBlock(d.block, TouchBitmap(d.block != 0 && d.unlinked))
  }

  function GrowActions(extra: nat): seq<Action> {
    if extra == 0 then [] else OnBlock(0, []) + GrowActions(extra - 1)
  }

  function TruncateActions(ft: FileTag, run: TruncateRun): seq<Action> {
    Wait(ft)
    + (match run
       case TruncateRefused => []
       case Grown(extra) => GrowActions(extra)
       case Shrunk(d) => Repeat(d, DropActions))
    + Signal(ft)
  }

  // ---------------------------------------------------------------- WRITE and READ

  /** Refused, in place, with no free block left, or moved from `p` to the free block `q`. */
  datatype WriteRun = WriteRefused | InPlace(p: nat) | NoSpace(p: nat) | Copied(p: nat, q: nat)

  function WriteActions(ft: FileTag, run: WriteRun): seq<Action> {
    Wait(ft) + (match run
      case WriteRefused => []
      case InPlace(p) => OnBlock(p, [])
      case NoSpace(p) => OnBlock(p, TouchBitmap(true))
      case Copied(p, q) => OnBlock(p, TouchBitmap(true)) + OnBlock(q, [])) + Signal(ft)
  }

  /** The File:Tag lock is given back before the block is read. */
  function ReadActions(ft: FileTag, block: Option<nat>): seq<Action> {
    Wait(ft) + Signal(ft) + match block case None => [] case Some(p) => OnBlock(p, [])
  }

  // ---------------------------------------------------------------- COMMIT

  /** The index had no block for the content, this one, or another. */
  datatype CommitRun = Loaded(p: nat) | Same(p: nat) | Reassigned(p: nat, q: nat)

  /** Loading a digest gives the block back before the index. */
  function CommitBlockActions(c: CommitRun): seq<Action> {
    match c
    case Loaded(p) => [Acquire(OfBlock(p)), Acquire(HashIndex), Release(OfBlock(p)), Release(HashIndex)]
    case Same(p) => OnBlock(p, Around(HashIndex, []))
    case Reassigned(p, q) => OnBlock(p, Around(HashIndex, [])) + OnBlock(q, []) + TouchBitmap(p != 0)
  }

  function CommitActions(ft: FileTag, run: Option<seq<CommitRun>>): seq<Action> {
    Wait(ft) + (match run case None => [] case Some(blocks) => Repeat(blocks, CommitBlockActions)) + Signal(ft)
  }

  // ---------------------------------------------------------------- TAG

  /** The destination exists, the source does not (with or without a lock), or the blocks are linked. */
  datatype TagRun = TagExists | TagNoLock | TagNoSource | Linked(blocks: seq<nat>) | LinkFails(blocks: seq<nat>)

  function LinkActions(p: nat): seq<Action> {
    OnBlock(p, [])
  }

  /** add_lock, then the source's lock, then the destination's; a link that fails returns with the
      destination's lock still held. */
  function TagActions(src: FileTag, dst: FileTag, run: TagRun): seq<Action> {
    match run
    case TagExists => []
    case TagNoLock => Around(LocksIndex, []) + NoLock()
    case TagNoSource => Around(LocksIndex, []) + Wait(src) + Signal(src)
    case Linked(blocks) =>
      Around(LocksIndex, []) + (Wait(src) + Signal(src)) + (Wait(dst) + Repeat(blocks, LinkActions) + Signal(dst))
    case LinkFails(blocks) =>
      Around(LocksIndex, []) + (Wait(src) + Signal(src)) + (Wait(dst) + Repeat(blocks, LinkActions))
  }

  // ---------------------------------------------------------------- DELETE and CREATE

  /** `destroyed`: nobody waits, so remove_lock ends the lock and the signal finds none. */
  datatype DeleteRun = DeleteBase | DeleteMissing | Deleted(dropped: seq<Dropped>, destroyed: bool)

  function DeleteBlockActions(d: Dropped): seq<Action> {
    OnBlock(d.block, if d.block != 0 && d.unlinked then Around(HashIndex, []) + TouchBitmap(true) else [])
  }

  /** remove_lock comes between the last block and the signal. */
  function DeleteActions(ft: FileTag, run: DeleteRun): seq<Action> {
    match run
    case DeleteBase => []
    case DeleteMissing => Wait(ft) + [] + Signal(ft)
    case Deleted(dropped, destroyed) =>
      if destroyed then Wait(ft) + Repeat(dropped, DeleteBlockActions) + Signal(ft) + Around(LocksIndex, [])
      else Wait(ft) + (Repeat(dropped, DeleteBlockActions) + Around(LocksIndex, [])) + Signal(ft)
  }

  function CreateActions(found: bool): seq<Action> {
    if found then [] else Around(LocksIndex, [])
  }

  // ---------------------------------------------------------------- every operation is in order

  /** An operation's body under its File:Tag lock. */
  lemma UnderFile(ft: FileTag, part: seq<Action>)
    requires Neutral({OfFile(ft)}, part)
    ensures Neutral({}, Wait(ft) + part + Signal(ft))
  {
    forall rest | Disciplined({}, rest)
      ensures Disciplined({}, Wait(ft) + part + Signal(ft) + rest)
    {
      var tail := Signal(ft) + rest;
      SignalLast(ft, rest);
      var body := part + tail;
      assert Disciplined({OfFile(ft)}, body);
      WaitFirst(ft, body);
      assert Wait(ft) + part + Signal(ft) + rest == Wait(ft) + body;
    }
  }

  lemma SignalLast(ft: FileTag, rest: seq<Action>)
    requires Disciplined({}, rest)
    ensures Disciplined({OfFile(ft)}, Signal(ft) + rest)
  {
    var all := Signal(ft) + rest;
    var held := {OfFile(ft), LocksIndex};
    assert all[1..][1..][1..] == rest;
    assert held - {OfFile(ft)} == {LocksIndex} && {LocksIndex} - {LocksIndex} == {};
    assert {OfFile(ft)} + {LocksIndex} == held;
  }

  lemma WaitFirst(ft: FileTag, rest: seq<Action>)
    requires Disciplined({OfFile(ft)}, rest)
    ensures Disciplined({}, Wait(ft) + rest)
  {
    var all := Wait(ft) + rest;
    assert all[1..][1..][1..] == rest;
    assert {LocksIndex} - {LocksIndex} == {} && {} + {OfFile(ft)} == {OfFile(ft)};
  }

  lemma BlockNeutral(ft: FileTag, p: nat, part: seq<Action>)
    requires Neutral({OfFile(ft)} + {OfBlock(p)}, part)
    ensures Neutral({OfFile(ft)}, OnBlock(p, part))
  {
    NeutralInside({OfFile(ft)}, OfBlock(p), part);
  }

  lemma BitmapNeutral(held: set<LockId>, when: bool)
    requires forall h :: h in held ==> Rank(h) < 2
    ensures Neutral(held, TouchBitmap(when))
  {
    NeutralAround(held, Bitmap);
    NeutralNothing(held);
  }

  lemma {:induction false} RepeatNeutral<T>(held: set<LockId>, xs: seq<T>, each: T -> seq<Action>)
    requires forall x :: x in xs ==> Neutral(held, each(x))
    ensures Neutral(held, Repeat(xs, each))
  {
    if xs == [] {
      NeutralNothing(held);
    } else {
      RepeatNeutral(held, xs[1..], each);
      NeutralJoin(held, each(xs[0]), Repeat(xs[1..], each));
    }
  }

  lemma TruncateInOrder(ft: FileTag, run: TruncateRun)
    ensures Neutral({}, TruncateActions(ft, run))
  {
    var held := {OfFile(ft)};
    match run
    case TruncateRefused =>
      NeutralNothing(held);
      UnderFile(ft, []);
    case Grown(extra) =>
      GrowNeutral(ft, extra);
      UnderFile(ft, GrowActions(extra));
    case Shrunk(dropped) =>
      forall d | d in dropped
        ensures Neutral(held, DropActions(d))
      {
        BitmapNeutral(held + {OfBlock(d.block)}, d.block != 0 && d.unlinked);
        BlockNeutral(ft, d.block, TouchBitmap(d.block != 0 && d.unlinked));
      }
      RepeatNeutral(held, dropped, DropActions);
      UnderFile(ft, Repeat(dropped, DropActions));
  }

  lemma {:induction false} GrowNeutral(ft: FileTag, extra: nat)
    ensures Neutral({OfFile(ft)}, GrowActions(extra))
  {
    if extra == 0 {
      NeutralNothing({OfFile(ft)});
    } else {
      NeutralAround({OfFile(ft)}, OfBlock(0));
      GrowNeutral(ft, extra - 1);
      NeutralJoin({OfFile(ft)}, OnBlock(0, []), GrowActions(extra - 1));
    }
  }

  lemma WriteInOrder(ft: FileTag, run: WriteRun)
    ensures Neutral({}, WriteActions(ft, run))
  {
    var held := {OfFile(ft)};
    match run
    case WriteRefused =>
      NeutralNothing(held);
      UnderFile(ft, []);
    case InPlace(p) =>
      NeutralAround(held, OfBlock(p));
      UnderFile(ft, OnBlock(p, []));
    case NoSpace(p) =>
      BitmapNeutral(held + {OfBlock(p)}, true);
      BlockNeutral(ft, p, TouchBitmap(true));
      UnderFile(ft, OnBlock(p, TouchBitmap(true)));
    case Copied(p, q) =>
      BitmapNeutral(held + {OfBlock(p)}, true);
      BlockNeutral(ft, p, TouchBitmap(true));
      NeutralAround(held, OfBlock(q));
      NeutralJoin(held, OnBlock(p, TouchBitmap(true)), OnBlock(q, []));
      UnderFile(ft, OnBlock(p, TouchBitmap(true)) + OnBlock(q, []));
  }

  lemma NoLockInOrder()
    ensures Neutral({}, NoLock())
  {
    NeutralAround({}, LocksIndex);
    NeutralJoin({}, Around(LocksIndex, []), Around(LocksIndex, []));
  }

  lemma WaitSignal(ft: FileTag)
    ensures Neutral({}, Wait(ft) + Signal(ft))
  {
    NeutralNothing({OfFile(ft)});
    UnderFile(ft, []);
    assert Wait(ft) + [] + Signal(ft) == Wait(ft) + Signal(ft);
  }

  lemma ReadInOrder(ft: FileTag, block: Option<nat>)
    ensures Neutral({}, ReadActions(ft, block))
  {
    WaitSignal(ft);
    var part := match block case None => [] case Some(p) => OnBlock(p, []);
    if block.Some? { NeutralAround({}, OfBlock(block.value)); } else { NeutralNothing({}); }
    NeutralJoin({}, Wait(ft) + Signal(ft), part);
  }

  lemma CommitInOrder(ft: FileTag, run: Option<seq<CommitRun>>)
    ensures Neutral({}, CommitActions(ft, run))
  {
    var held := {OfFile(ft)};
    match run
    case None =>
      NeutralNothing(held);
      UnderFile(ft, []);
    case Some(blocks) =>
      forall c | c in blocks
        ensures Neutral(held, CommitBlockActions(c))
      {
        CommitBlockNeutral(ft, c);
      }
      RepeatNeutral(held, blocks, CommitBlockActions);
      UnderFile(ft, Repeat(blocks, CommitBlockActions));
  }

  lemma CommitBlockNeutral(ft: FileTag, c: CommitRun)
    ensures Neutral({OfFile(ft)}, CommitBlockActions(c))
  {
    var held := {OfFile(ft)};
    match c
    case Loaded(p) =>
      forall rest | Disciplined(held, rest)
        ensures Disciplined(held, CommitBlockActions(c) + rest)
      {
        LoadedFirst(ft, p, rest);
      }
    case Same(p) =>
      NeutralAround(held + {OfBlock(p)}, HashIndex);
      BlockNeutral(ft, p, Around(HashIndex, []));
    case Reassigned(p, q) =>
      NeutralAround(held + {OfBlock(p)}, HashIndex);
      BlockNeutral(ft, p, Around(HashIndex, []));
      NeutralAround(held, OfBlock(q));
      BitmapNeutral(held, p != 0);
      NeutralJoin(held, OnBlock(p, Around(HashIndex, [])), OnBlock(q, []));
      NeutralJoin(held, OnBlock(p, Around(HashIndex, [])) + OnBlock(q, []), TouchBitmap(p != 0));
  }

  lemma LoadedFirst(ft: FileTag, p: nat, rest: seq<Action>)
    requires Disciplined({OfFile(ft)}, rest)
    ensures Disciplined({OfFile(ft)}, CommitBlockActions(Loaded(p)) + rest)
  {
    var all := CommitBlockActions(Loaded(p)) + rest;
    var (f, b, h) := (OfFile(ft), OfBlock(p), HashIndex);
    var (a1, a2, a3) := (all[1..], all[1..][1..], all[1..][1..][1..]);
    assert a3[1..] == rest;
    assert {f} + {b} == {f, b} && {f, b} + {h} == {f, b, h} && {f, b, h} - {b} == {f, h} && {f, h} - {h} == {f};
    assert Disciplined({f, h}, a3) && Disciplined({f, b, h}, a2) && Disciplined({f, b}, a1);
  }

  lemma TagInOrder(src: FileTag, dst: FileTag, run: TagRun)
    requires !run.LinkFails?
    ensures Neutral({}, TagActions(src, dst, run))
  {
    match run
    case TagExists => NeutralNothing({});
    case TagNoLock =>
      NoLockInOrder();
      NeutralAround({}, LocksIndex);
      NeutralJoin({}, Around(LocksIndex, []), NoLock());
    case TagNoSource =>
      NeutralAround({}, LocksIndex);
      WaitSignal(src);
      NeutralJoin({}, Around(LocksIndex, []), Wait(src) + Signal(src));
      assert TagActions(src, dst, run) == Around(LocksIndex, []) + (Wait(src) + Signal(src));
    case Linked(blocks) =>
      TagLinks(dst, blocks);
      NeutralAround({}, LocksIndex);
      WaitSignal(src);
      NeutralJoin({}, Around(LocksIndex, []), Wait(src) + Signal(src));
      UnderFile(dst, Repeat(blocks, LinkActions));
      NeutralJoin({}, Around(LocksIndex, []) + (Wait(src) + Signal(src)),
                  Wait(dst) + Repeat(blocks, LinkActions) + Signal(dst));
  }

  lemma TagLinks(dst: FileTag, blocks: seq<nat>)
    ensures Neutral({OfFile(dst)}, Repeat(blocks, LinkActions))
  {
    forall p | p in blocks
      ensures Neutral({OfFile(dst)}, LinkActions(p))
    {
      NeutralAround({OfFile(dst)}, OfBlock(p));
    }
    RepeatNeutral({OfFile(dst)}, blocks, LinkActions);
  }

  lemma DeleteInOrder(ft: FileTag, run: DeleteRun)
    ensures Neutral({}, DeleteActions(ft, run))
  {
    var held := {OfFile(ft)};
    match run
    case DeleteBase => NeutralNothing({});
    case DeleteMissing =>
      NeutralNothing(held);
      UnderFile(ft, []);
    case Deleted(dropped, destroyed) =>
      DeleteBlocksNeutral(ft, dropped);
      NeutralAround(held, LocksIndex);
      if destroyed {
        UnderFile(ft, Repeat(dropped, DeleteBlockActions));
        NeutralAround({}, LocksIndex);
        NeutralJoin({}, Wait(ft) + Repeat(dropped, DeleteBlockActions) + Signal(ft), Around(LocksIndex, []));
      } else {
        NeutralJoin(held, Repeat(dropped, DeleteBlockActions), Around(LocksIndex, []));
        UnderFile(ft, Repeat(dropped, DeleteBlockActions) + Around(LocksIndex, []));
      }
  }

  lemma DeleteBlocksNeutral(ft: FileTag, dropped: seq<Dropped>)
    ensures Neutral({OfFile(ft)}, Repeat(dropped, DeleteBlockActions))
  {
    var held := {OfFile(ft)};
    forall d | d in dropped
      ensures Neutral(held, DeleteBlockActions(d))
    {
      var inside := held + {OfBlock(d.block)};
      NeutralAround(inside, HashIndex);
      BitmapNeutral(inside, true);
      NeutralJoin(inside, Around(HashIndex, []), TouchBitmap(true));
      NeutralNothing(inside);
      BlockNeutral(ft, d.block, if d.block != 0 && d.unlinked then Around(HashIndex, []) + TouchBitmap(true) else []);
    }
    RepeatNeutral(held, dropped, DeleteBlockActions);
  }

  // ---------------------------------------------------------------- threads of operations

  datatype Operation =
    | OpNoLock               // any of the others but TAG, on a name with no lock
    | OpCreate(found: bool)
    | OpTruncate(ft: FileTag, truncate: TruncateRun)
    | OpWrite(ft: FileTag, write: WriteRun)
    | OpRead(ft: FileTag, block: Option<nat>)
    | OpCommit(ft: FileTag, commit: Option<seq<CommitRun>>)
    | OpTag(src: FileTag, ft: FileTag, tag: TagRun)
    | OpDelete(ft: FileTag, delete: DeleteRun)

  function ActionsOf(op: Operation): seq<Action> {
    match op
    case OpNoLock => NoLock()
    case OpCreate(found) => CreateActions(found)
    case OpTruncate(ft, run) => TruncateActions(ft, run)
    case OpWrite(ft, run) => WriteActions(ft, run)
    case OpRead(ft, block) => ReadActions(ft, block)
    case OpCommit(ft, run) => CommitActions(ft, run)
    case OpTag(src, ft, run) => TagActions(src, ft, run)
    case OpDelete(ft, run) => DeleteActions(ft, run)
  }

  ghost predicate LinksSucceed(op: Operation) {
    op.OpTag? ==> !op.tag.LinkFails?
  }

  lemma OperationInOrder(op: Operation)
    requires LinksSucceed(op)
    ensures Neutral({}, ActionsOf(op))
  {
    hide Neutral;
    match op
    case OpNoLock => NoLockInOrder();
    case OpCreate(found) => NeutralNothing({}); NeutralAround({}, LocksIndex);
    case OpTruncate(ft, run) => TruncateInOrder(ft, run);
    case OpWrite(ft, run) => WriteInOrder(ft, run);
    case OpRead(ft, block) => ReadInOrder(ft, block);
    case OpCommit(ft, run) => CommitInOrder(ft, run);
    case OpTag(src, ft, run) => TagInOrder(src, ft, run);
    case OpDelete(ft, run) => DeleteInOrder(ft, run);
  }

  /** One thread per Worker connection, each with its operations one after another. */
  function ThreadsOf(work: seq<seq<Operation>>): (threads: seq<Thread>)
    ensures |threads| == |work|
    ensures forall t :: 0 <= t < |work| ==> threads[t] == Thread({}, Repeat(work[t], ActionsOf))
  {
    seq(|work|, t requires 0 <= t < |work| => Thread({}, Repeat(work[t], ActionsOf)))
  }

  /** Whatever the operations find and however they interleave, no state is stuck and every
      operation of every thread completes. */
  lemma StorageNeverDeadlocks(work: seq<seq<Operation>>, order: seq<nat>)
    requires forall t, i :: 0 <= t < |work| && 0 <= i < |work[t]| ==> LinksSucceed(work[t][i])
    requires Schedule(ThreadsOf(work), order)
    ensures var r := Scheduled(ThreadsOf(work), order);
      && |order| <= Work(ThreadsOf(work)) && (|order| == Work(ThreadsOf(work)) <==> Finished(r))
      && (!Finished(r) ==> exists u: nat :: CanStep(r, u))
  {
    var threads := ThreadsOf(work);
    forall t | 0 <= t < |threads|
      ensures Disciplined(threads[t].held, threads[t].todo)
    {
      ThreadInOrder(work[t]);
    }
    EveryoneFinishes(threads, order);
    var r := Scheduled(threads, order);
    if !Finished(r) { NoDeadlock(r); }
  }

  lemma ThreadInOrder(ops: seq<Operation>)
    requires forall i :: 0 <= i < |ops| ==> LinksSucceed(ops[i])
    ensures Disciplined({}, Repeat(ops, ActionsOf))
  {
    forall op | op in ops
      ensures Neutral({}, ActionsOf(op))
    {
      OperationInOrder(op);
    }
    RepeatNeutral({}, ops, ActionsOf);
    assert Repeat(ops, ActionsOf) + [] == Repeat(ops, ActionsOf);
  }

  // ---------------------------------------------------------------- a link that fails

  /** From `held` the actions take only locks the thread does not hold, and end with `after`. */
  ghost predicate Ends(held: set<LockId>, part: seq<Action>, after: set<LockId>)
    decreases |part|
  {
    if part == [] then held == after
    else match part[0]
      case Acquire(l) => l !in held && Ends(held + {l}, part[1..], after)
      case Release(l) => Ends(held - {l}, part[1..], after)
  }

  lemma {:induction false} EndsJoin(held: set<LockId>, a: seq<Action>, between: set<LockId>, b: seq<Action>,
                                    after: set<LockId>)
    requires Ends(held, a, between) && Ends(between, b, after)
    ensures Ends(held, a + b, after)
    decreases |a|
  {
    if a == [] {
      assert a + b == b;
    } else {
      assert (a + b)[1..] == a[1..] + b;
      EndsJoin(if a[0].Acquire? then held + {a[0].lock} else held - {a[0].lock}, a[1..], between, b, after);
    }
  }

  lemma EndsAround(held: set<LockId>, l: LockId)
    requires l !in held
    ensures Ends(held, Around(l, []), held)
  {
    var a := Around(l, []);
    assert a == [Acquire(l), Release(l)] && a[1..] == [Release(l)] && a[1..][1..] == [];
    assert held + {l} - {l} == held;
  }

  lemma EndsWait(ft: FileTag)
    ensures Ends({}, Wait(ft), {OfFile(ft)})
  {
    EndsAround({}, LocksIndex);
    assert [Acquire(OfFile(ft))][1..] == [] && {} + {OfFile(ft)} == {OfFile(ft)};
    EndsJoin({}, Around(LocksIndex, []), {}, [Acquire(OfFile(ft))], {OfFile(ft)});
  }

  lemma EndsSignal(ft: FileTag)
    ensures Ends({OfFile(ft)}, Signal(ft), {})
  {
    var a := Signal(ft);
    var (b, c) := ([Release(OfFile(ft)), Release(LocksIndex)], [Release(LocksIndex)]);
    assert a[1..] == b && b[1..] == c && c[1..] == [];
    var both := {OfFile(ft)} + {LocksIndex};
    assert both - {OfFile(ft)} == {LocksIndex} && {LocksIndex} - {LocksIndex} == {};
    assert Ends({LocksIndex}, c, {}) && Ends(both, b, {});
  }

  lemma {:induction false} EndsLinks(held: set<LockId>, blocks: seq<nat>)
    requires forall p: nat :: OfBlock(p) !in held
    ensures Ends(held, Repeat(blocks, LinkActions), held)
  {
    if blocks != [] {
      EndsAround(held, OfBlock(blocks[0]));
      EndsLinks(held, blocks[1..]);
      EndsJoin(held, LinkActions(blocks[0]), held, Repeat(blocks[1..], LinkActions), held);
    }
  }

  /** TAG with a link that fails ends with the destination's lock. */
  lemma TagKeepsLock(src: FileTag, dst: FileTag, blocks: seq<nat>)
    ensures Ends({}, TagActions(src, dst, LinkFails(blocks)), {OfFile(dst)})
  {
    EndsAround({}, LocksIndex);
    EndsWait(src);
    EndsSignal(src);
    EndsWait(dst);
    EndsLinks({OfFile(dst)}, blocks);
    hide Ends;
    EndsJoin({}, Wait(src), {OfFile(src)}, Signal(src), {});
    EndsJoin({}, Around(LocksIndex, []), {}, Wait(src) + Signal(src), {});
    EndsJoin({}, Wait(dst), {OfFile(dst)}, Repeat(blocks, LinkActions), {OfFile(dst)});
    EndsJoin({}, Around(LocksIndex, []) + (Wait(src) + Signal(src)), {}, Wait(dst) + Repeat(blocks, LinkActions),
             {OfFile(dst)});
  }

  /** Thread `t` runs alone through `part`, whose locks no other thread holds. */
  lemma {:induction false} Alone(threads: seq<Thread>, t: nat, part: seq<Action>, rest: seq<Action>, after: set<LockId>)
    requires t < |threads| && threads[t].todo == part + rest && Ends(threads[t].held, part, after)
    requires forall u, a :: 0 <= u < |threads| && u != t && a in part ==> a.lock !in threads[u].held
    ensures var order := seq(|part|, _ => t);
      Schedule(threads, order) && Scheduled(threads, order) == threads[t := Thread(after, rest)]
    decreases |part|
  {
    var order := seq(|part|, _ => t);
    if part == [] {
      assert part + rest == rest && threads[t := threads[t]] == threads;
    } else {
      var r := StepOf(threads, t);
      assert (part + rest)[0] == part[0] && (part + rest)[1..] == part[1..] + rest;
      assert part[0] in part;
      assert CanStep(threads, t);
      Alone(r, t, part[1..], rest, after);
      assert order[1..] == seq(|part[1..]|, _ => t);
      assert r[t := Thread(after, rest)] == threads[t := Thread(after, rest)];
    }
  }

  lemma {:induction false} ScheduleJoin(threads: seq<Thread>, first: seq<nat>, second: seq<nat>)
    requires Schedule(threads, first) && Schedule(Scheduled(threads, first), second)
    ensures Schedule(threads, first + second)
    ensures Scheduled(threads, first + second) == Scheduled(Scheduled(threads, first), second)
    decreases |first|
  {
    if first == [] {
      assert first + second == second;
    } else {
      assert (first + second)[1..] == first[1..] + second;
      ScheduleJoin(StepOf(threads, first[0]), first[1..], second);
    }
  }

  /** The hypothesis is needed: a TAG whose link fails, and then any operation on the destination
      by another thread, have a schedule that ends with the second waiting for ever. */
  lemma LinkFailureHolds(src: FileTag, dst: FileTag, blocks: seq<nat>, op: Operation) returns (order: seq<nat>)
    requires Wait(dst) <= ActionsOf(op)
    ensures var threads := ThreadsOf([[OpTag(src, dst, LinkFails(blocks))], [op]]);
      && Schedule(threads, order)
      && var r := Scheduled(threads, order);
         && |r| == 2 && r[0].todo == [] && r[1].todo != [] && r[1].todo[0] == Acquire(OfFile(dst))
         && !Finished(r) && forall u: nat :: !CanStep(r, u)
  {
    hide Ends, Schedule, Scheduled, Around, ActionsOf, Repeat;
    var tag := OpTag(src, dst, LinkFails(blocks));
    var threads := ThreadsOf([[tag], [op]]);
    var (first, second) := (ActionsOf(tag), ActionsOf(op));
    OneOperation(tag);
    OneOperation(op);
    TagKeepsLock(src, dst, blocks);
    IsTag(src, dst, blocks);
    assert first + [] == first;
    Alone(threads, 0, first, [], {OfFile(dst)});
    var middle := threads[0 := Thread({OfFile(dst)}, [])];
    var look := LookFirst(dst, second);
    Alone(middle, 1, look, second[2..], {});
    order := seq(|first|, _ => 0) + seq(|look|, _ => 1);
    ScheduleJoin(threads, seq(|first|, _ => 0), seq(|look|, _ => 1));
    LastWaits(Scheduled(threads, order), dst);
  }

  lemma IsTag(src: FileTag, dst: FileTag, blocks: seq<nat>)
    ensures ActionsOf(OpTag(src, dst, LinkFails(blocks))) == TagActions(src, dst, LinkFails(blocks))
  {
  }

  /** storage_wait looks for the lock before it waits for it. */
  lemma LookFirst(ft: FileTag, todo: seq<Action>) returns (look: seq<Action>)
    requires Wait(ft) <= todo
    ensures |look| == 2 && |todo| > 2 && todo == look + todo[2..] && todo[2] == Acquire(OfFile(ft))
    ensures Ends({}, look, {}) && forall a :: a in look ==> a.lock == LocksIndex
  {
    look := Around(LocksIndex, []);
    EndsAround({}, LocksIndex);
    assert Wait(ft) == look + [Acquire(OfFile(ft))];
    assert todo == Wait(ft) + todo[3..];
  }

  lemma LastWaits(threads: seq<Thread>, ft: FileTag)
    requires |threads| == 2 && OfFile(ft) in threads[0].held && threads[0].todo == []
    requires threads[1].todo != [] && threads[1].todo[0] == Acquire(OfFile(ft))
    ensures !Finished(threads) && forall u: nat :: !CanStep(threads, u)
  {
  }

  /** The lock order is what the trace breaks: it ends with a lock. */
  lemma LinkFailureBreaksOrder(src: FileTag, dst: FileTag, blocks: seq<nat>)
    ensures !Disciplined({}, TagActions(src, dst, LinkFails(blocks)))
  {
    TagKeepsLock(src, dst, blocks);
    EndsDisciplined({}, TagActions(src, dst, LinkFails(blocks)), {OfFile(dst)});
  }

  lemma {:induction false} EndsDisciplined(held: set<LockId>, todo: seq<Action>, after: set<LockId>)
    requires Ends(held, todo, after) && after != {}
    ensures !Disciplined(held, todo)
    decreases |todo|
  {
    if todo != [] {
      EndsDisciplined(if todo[0].Acquire? then held + {todo[0].lock} else held - {todo[0].lock}, todo[1..], after);
    }
  }

  lemma OneOperation(op: Operation)
    ensures Repeat([op], ActionsOf) == ActionsOf(op)
  {
    assert [op][1..] == [] && Repeat([op][1..], ActionsOf) == [];
  }

  /** That is every operation but CREATE and TAG, on a name with a lock. */
  lemma WaitsFirst(op: Operation)
    requires !op.OpNoLock? && !op.OpCreate? && !op.OpTag? && (op.OpDelete? ==> !op.delete.DeleteBase?)
    ensures Wait(op.ft) <= ActionsOf(op)
  {
  }
}
