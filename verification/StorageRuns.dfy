/** Whole runs of the Storage module: disciplined runs are runs of the reference map, COMMITED
    files never change, and COMMITED content is stored once. */
module StorageRuns {
  import opened StorageModel
  import opened StorageSpec
  import opened StorageConservation
  import opened StorageInvariant
  import opened StorageDiscipline
  import opened StorageRefinement

  // ---------------------------------------------------------------- refinement of runs

  /** The logical blocks of all files. */
  ghost function SlotsOf(m: FileMap): set<Slot> {
    set ft, i | ft in m && 0 <= i < |m[ft].blocks| :: Slot(ft, i)
  }

  /** A WRITE that the map would carry out can be refused only when there are at least as many
      logical blocks as physical ones. */
  ghost predicate MayRefuse(blockSize: nat, n: nat, m: FileMap, op: Op)
    requires 0 < blockSize
  {
    op.Write? && MapStep(blockSize, m, op).1 == OpExitosa && |SlotsOf(m)| >= n
  }

  /** On a disk of n blocks: the replies are those of the reference map, except for a WRITE that is
      refused for lack of space, and then changes nothing. */
  ghost predicate MapRun(blockSize: nat, n: nat, m: FileMap, ops: seq<Op>, replies: seq<Reply>, m': FileMap)
    requires 0 < blockSize && |replies| == |ops|
    decreases |ops|
  {
    if ops == [] then m' == m
    else if replies[0] == ErrEspInsuficiente then
      MayRefuse(blockSize, n, m, ops[0]) && MapRun(blockSize, n, m, ops[1..], replies[1..], m')
    else
      var (m1, reply) := MapStep(blockSize, m, ops[0]);
      reply == replies[0] && MapRun(blockSize, n, m1, ops[1..], replies[1..], m')
  }

  /** The logical blocks whose physical block is below `k`. */
  function Below(links: map<Slot, nat>, k: nat): set<Slot> {
    set s | s in links && links[s] < k
  }

  lemma {:induction false} CountBelow(d: Disk, p: nat, k: nat)
    requires WellFormed(d) && Counted(d) && p < |d.nlink| && MustCopy(d, p) && 0 < k <= |d.nlink|
    requires LinksTo(d.links, p) != {} && forall q: nat :: 0 < q < |d.nlink| ==> d.nlink[q] >= 2
    ensures |Below(d.links, k)| >= k - 1 + if p < k then 1 else 0
    decreases k
  {
    var links := d.links;
    if k > 1 {
      CountBelow(d, p, k - 1);
      UnreferencedIffCount(d, k - 1);
      assert Below(links, k) == Below(links, k - 1) + LinksTo(links, k - 1);
    } else {
      assert p < 1 ==> LinksTo(links, 0) <= Below(links, 1);
      if p < 1 { NotEmpty(LinksTo(links, 0), Below(links, 1)); }
    }
  }

  lemma NotEmpty<T>(a: set<T>, b: set<T>)
    requires a != {} && a <= b
    ensures |b| >= 1
  {
    assert b != {};
  }

  /** When WRITE finds no block, the files have a logical block for each physical one. */
  lemma RefusedWhenFull(d: Disk, op: Op)
    requires WellFormed(d) && Counted(d) && OutOfSpace(d, op)
    ensures |SlotsOf(Abs(d))| >= |d.content|
  {
    var s := Slot(op.ft, op.l);
    assert s in d.links;
    var p := d.links[s];
    assert s in LinksTo(d.links, p);
    CountBelow(d, p, |d.nlink|);
    assert Below(d.links, |d.nlink|) == d.links.Keys;
    assert SlotsOf(Abs(d)) == d.links.Keys by {
      forall t
        ensures t in SlotsOf(Abs(d)) <==> t in d.links
      {
        assert t in SlotsOf(Abs(d)) <==> HasBlock(d, t);
      }
    }
  }

  /** One step of a run. */
  lemma StepMayRefuse(h: Block -> Digest, blockSize: nat, d: Disk, op: Op)
    requires Inv(h, blockSize, d) && 0 < blockSize
    requires var (d', reply) := Step(h, blockSize, d, op);
      reply == ErrEspInsuficiente && Refines(blockSize, d, op, d', reply)
    ensures MayRefuse(blockSize, |d.content|, Abs(d), op)
  {
    assert WellFormed(d) && Counted(d);
    hide InvPending, Geometry, LinksMatch, Abs, Counted, WriteFile, MayRefuse, MapStep;
    assert op.Write? && OutOfSpace(d, op);
    hide Refines, OutOfSpace;
    WriteMayRefuse(blockSize, d, op.ft, op.l, op.data);
  }

  lemma WriteMayRefuse(blockSize: nat, d: Disk, ft: FileTag, l: int, data: Block)
    requires WellFormed(d) && Counted(d) && 0 < blockSize
    requires OutOfSpace(d, Write(ft, l, data)) && WriteFile(d, ft, l, data).1 == ErrEspInsuficiente
    ensures MayRefuse(blockSize, |d.content|, Abs(d), Write(ft, l, data))
  {
    hide SlotsOf, Geometry, LinksMatch, Abs, Counted, WriteFile;
    RefusedWhenFull(d, Write(ft, l, data));
    RefusedInProgress(d, ft, l, data);
    ReadIsMapRead(d, ft);
  }

  lemma RefusedInProgress(d: Disk, ft: FileTag, l: int, data: Block)
    requires WellFormed(d) && WriteFile(d, ft, l, data).1 == ErrEspInsuficiente
    ensures ft in d.metas && d.metas[ft].estado != Commited && 0 <= l < |d.metas[ft].blocks|
    ensures ft in Abs(d) && |Abs(d)[ft].blocks| == |d.metas[ft].blocks|
  {
  }

  lemma {:induction false} RunRefines(h: Block -> Digest, blockSize: nat, d: Disk, ops: seq<Op>)
    requires Injective(h) && Inv(h, blockSize, d) && 0 < blockSize && Disciplined(h, blockSize, d, ops)
    ensures var (d', replies) := Run(h, blockSize, d, ops);
      Inv(h, blockSize, d') && MapRun(blockSize, |d.content|, Abs(d), ops, replies, Abs(d'))
    decreases |ops|
  {
    assert Conserved(blockSize, d);
    hide Conserved, InvPending, Abs, Step, MapStep, Safe, Injective, MayRefuse;
    if ops != [] {
      StepConserves(h, blockSize, d, ops[0]);
      StepExact(h, blockSize, d, ops[0]);
      StepRefines(h, blockSize, d, ops[0]);
      if Step(h, blockSize, d, ops[0]).1 == ErrEspInsuficiente { StepMayRefuse(h, blockSize, d, ops[0]); }
      RunRefines(h, blockSize, Step(h, blockSize, d, ops[0]).0, ops[1..]);
    }
  }

  ghost predicate FreshRunDisciplined(h: Block -> Digest, blockSize: nat, n: nat, ops: seq<Op>)
    requires 0 < blockSize && 0 < n && n % 8 == 0
  {
    FreshConserved(h, blockSize, n);
    Disciplined(h, blockSize, FreshDisk(h, blockSize, n), ops)
  }

  function FreshRun(h: Block -> Digest, blockSize: nat, n: nat, ops: seq<Op>): (Disk, seq<Reply>)
    requires 0 < blockSize && 0 < n && n % 8 == 0
  {
    FreshConserved(h, blockSize, n);
    Run(h, blockSize, FreshDisk(h, blockSize, n), ops)
  }

  /** From a fresh start on a disk whose block count is a multiple of 8. */
  lemma FreshRunRefines(h: Block -> Digest, blockSize: nat, n: nat, ops: seq<Op>)
    requires Injective(h) && 0 < blockSize && 0 < n && n % 8 == 0
    requires FreshRunDisciplined(h, blockSize, n, ops)
    ensures var (d, replies) := FreshRun(h, blockSize, n, ops);
      && Inv(h, blockSize, d) && |replies| == |ops|
      && MapRun(blockSize, n,
           map[FileTag("initial_file", "BASE") := File(0, [ZeroBlock(blockSize)], WorkInProgress)],
           ops, replies, Abs(d))
  {
    FreshInv(h, blockSize, n);
    var d := FreshDisk(h, blockSize, n);
    assert Contents(d.content, [0]) == [ZeroBlock(blockSize)];
    assert Abs(d) == map[FileTag("initial_file", "BASE") := File(0, [ZeroBlock(blockSize)], WorkInProgress)];
    RunRefines(h, blockSize, d, ops);
  }

  // ---------------------------------------------------------------- COMMITED files are immutable

  lemma {:induction false} CommitedImmutable(blockSize: nat, n: nat, m: FileMap, ops: seq<Op>, replies: seq<Reply>,
                                             m': FileMap, ft: FileTag)
    requires 0 < blockSize && |replies| == |ops| && MapRun(blockSize, n, m, ops, replies, m')
    requires ft in m && m[ft].estado == Commited
    requires Delete(ft) !in ops
    ensures ft in m' && m'[ft] == m[ft]
    decreases |ops|
  {
    if ops != [] {
      if replies[0] == ErrEspInsuficiente {
        CommitedImmutable(blockSize, n, m, ops[1..], replies[1..], m', ft);
      } else {
        CommitedImmutable(blockSize, n, MapStep(blockSize, m, ops[0]).0, ops[1..], replies[1..], m', ft);
      }
    }
  }

  /** Once COMMIT has succeeded, size and contents stay as they are until the file's own DELETE,
      whatever happens to its TAG copies and to the files that share its blocks. */
  lemma CommitedFileKept(h: Block -> Digest, blockSize: nat, d: Disk, ops: seq<Op>, ft: FileTag)
    requires Injective(h) && Inv(h, blockSize, d) && 0 < blockSize && Disciplined(h, blockSize, d, ops)
    requires IsCommited(d, ft) && Delete(ft) !in ops
    ensures var d' := Run(h, blockSize, d, ops).0;
      && IsCommited(d', ft)
      && Abs(d')[ft].tamanio == Abs(d)[ft].tamanio
      && (forall l :: ReadFile(d', ft, l) == ReadFile(d, ft, l))
  {
    RunRefines(h, blockSize, d, ops);
    var (d', replies) := Run(h, blockSize, d, ops);
    CommitedImmutable(blockSize, |d.content|, Abs(d), ops, replies, Abs(d'), ft);
    ReadIsMapRead(d, ft);
    ReadIsMapRead(d', ft);
  }

  lemma ReadIsMapRead(d: Disk, ft: FileTag)
    requires WellFormed(d) && ft in d.metas
    ensures Abs(d)[ft].estado == d.metas[ft].estado
    ensures forall l :: ReadFile(d, ft, l) == ReadOf(Abs(d)[ft].blocks, l)
  {
  }

  function ReadOf(blocks: seq<Block>, l: int): Reply {
    if l > |blocks| then ErrFueraLimite else if l < 0 || l == |blocks| then Fault else Contenido(blocks[l])
  }

  // ---------------------------------------------------------------- deduplication is complete

  /** Non-zero physical blocks that COMMITED files use. */
  ghost function CommitedBlocks(d: Disk): set<nat> {
    set s | s in d.links && IsCommited(d, s.ft) && d.links[s] != 0 :: d.links[s]
  }

  /** Distinct contents of COMMITED files other than the zero block. */
  ghost function CommitedContents(blockSize: nat, d: Disk): set<Block> {
    set s | s in d.links && IsCommited(d, s.ft) && BlockAt(d.content, d.links[s]) != ZeroBlock(blockSize)
      :: BlockAt(d.content, d.links[s])
  }

  /** Two logical blocks of COMMITED files share a physical block exactly when they are equal. */
  lemma CommitedShare(h: Block -> Digest, blockSize: nat, d: Disk, s: Slot, t: Slot)
    requires Inv(h, blockSize, d) && IsSealed(d, {}, s) && IsSealed(d, {}, t)
    ensures d.links[s] == d.links[t] <==> d.content[d.links[s]] == d.content[d.links[t]]
  {
    assert Indexed(h, d, d.links[s]) && Indexed(h, d, d.links[t]);
  }

  lemma CommitedZero(h: Block -> Digest, blockSize: nat, d: Disk, s: Slot)
    requires Inv(h, blockSize, d) && IsSealed(d, {}, s)
    ensures d.links[s] == 0 <==> d.content[d.links[s]] == ZeroBlock(blockSize)
  {
    assert Indexed(h, d, d.links[s]);
  }

  lemma {:induction false} InjectiveImage(xs: set<nat>, f: nat -> Block)
    requires forall x, y :: x in xs && y in xs && f(x) == f(y) ==> x == y
    ensures |set x | x in xs :: f(x)| == |xs|
    decreases |xs|
  {
    if xs != {} {
      var x :| x in xs;
      InjectiveImage(xs - {x}, f);
      assert (set y | y in xs :: f(y)) == {f(x)} + (set y | y in xs - {x} :: f(y));
    }
  }

  /** COMMITED files occupy one block per distinct content. */
  lemma CommitedStoredOnce(h: Block -> Digest, blockSize: nat, d: Disk)
    requires Inv(h, blockSize, d)
    ensures |CommitedBlocks(d)| == |CommitedContents(blockSize, d)|
  {
    assert WellFormed(d);
    var f := (p: nat) => BlockAt(d.content, p);
    var blocks := CommitedBlocks(d);
    hide InvPending, Geometry, LinksMatch, CommitedBlocks, CommitedContents;
    OneBlockEach(h, blockSize, d);
    InjectiveImage(blocks, f);
    ContentsOfBlocks(h, blockSize, d);
    assert (set p | p in blocks :: f(p)) == (set p | p in blocks :: BlockAt(d.content, p));
  }

  lemma InRange(d: Disk, s: Slot)
    requires WellFormed(d) && s in d.links
    ensures d.links[s] < |d.content|
  {
  }

  lemma OneBlockEach(h: Block -> Digest, blockSize: nat, d: Disk)
    requires Inv(h, blockSize, d)
    ensures forall x, y | x in CommitedBlocks(d) && y in CommitedBlocks(d) ::
      BlockAt(d.content, x) == BlockAt(d.content, y) ==> x == y
  {
    assert WellFormed(d);
    hide InvPending, Geometry, LinksMatch;
    forall x, y | x in CommitedBlocks(d) && y in CommitedBlocks(d) && BlockAt(d.content, x) == BlockAt(d.content, y)
      ensures x == y
    {
      var s :| s in d.links && IsCommited(d, s.ft) && d.links[s] == x;
      var t :| t in d.links && IsCommited(d, t.ft) && d.links[t] == y;
      InRange(d, s);
      InRange(d, t);
      CommitedShare(h, blockSize, d, s, t);
    }
  }

  lemma ContentsOfBlocks(h: Block -> Digest, blockSize: nat, d: Disk)
    requires Inv(h, blockSize, d)
    ensures CommitedContents(blockSize, d) == set p | p in CommitedBlocks(d) :: BlockAt(d.content, p)
  {
    assert WellFormed(d);
    hide InvPending, Geometry, LinksMatch;
    var blocks := CommitedBlocks(d);
    forall s | s in d.links && IsCommited(d, s.ft)
      ensures d.links[s] == 0 <==> BlockAt(d.content, d.links[s]) == ZeroBlock(blockSize)
    {
      InRange(d, s);
      CommitedZero(h, blockSize, d, s);
    }
    forall c | c in CommitedContents(blockSize, d)
      ensures exists p :: p in blocks && c == BlockAt(d.content, p)
    {
      var s :| s in d.links && IsCommited(d, s.ft) && BlockAt(d.content, d.links[s]) == c && c != ZeroBlock(blockSize);
      assert d.links[s] in blocks;
    }
  }

  // ---------------------------------------------------------------- the bitmap's spare bits

  /** find_free_block scans every bit of the bitmap file.  On a full disk it answers "none" only
      if the block count fills whole bytes; otherwise it hands out a block that does not exist. */
  lemma FullDiskAnswer(used: seq<bool>, n: nat)
    requires 0 < n && |used| == BitmapBits(n)
    requires forall i :: 0 <= i < |used| ==> (used[i] <==> i < n)
    ensures FindFree(used, 1).None? <==> n % 8 == 0
    ensures n % 8 != 0 ==> FindFree(used, 1) == Some(n)
  {
    if n % 8 != 0 {
      assert n < |used| && !used[n];
    }
  }
}
