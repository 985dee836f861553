/** The conditions for TAG and DELETE are needed for what callers see, not only for the invariant:
    every unsafe one has a continuation in which some answer is not the map's. */
module StorageDamage {
  import opened StorageModel
  import opened StorageSpec
  import opened StorageConservation
  import opened StorageInvariant
  import opened StorageDiscipline
  import opened StorageRefinement
  import opened StorageScripts

  // ---------------------------------------------------------------- damage

  /** The answers are not the map's, and not because the disk is full. */
  ghost predicate Differs(h: Block -> Digest, blockSize: nat, d: Disk, m: FileMap, ops: seq<Op>)
    requires Conserved(blockSize, d) && 0 < blockSize
  {
    var replies := Run(h, blockSize, d, ops).1;
    ErrEspInsuficiente !in replies && replies != MapPlay(blockSize, m, ops).1
  }

  /** Some script shows that the disk is not the map. */
  ghost predicate Damaged(h: Block -> Digest, blockSize: nat, d: Disk, m: FileMap) {
    0 < blockSize && Conserved(blockSize, d) && exists ops :: Differs(h, blockSize, d, m, ops)
  }

  lemma FirstReply(h: Block -> Digest, blockSize: nat, d: Disk, m: FileMap, ops: seq<Op>)
    requires 0 < blockSize && Conserved(blockSize, d) && ops != []
    ensures var (d1, reply) := Step(h, blockSize, d, ops[0]);
      Conserved(blockSize, d1) && Run(h, blockSize, d, ops).1 == [reply] + Run(h, blockSize, d1, ops[1..]).1
    ensures var (m1, reply) := MapStep(blockSize, m, ops[0]);
      MapPlay(blockSize, m, ops).1 == [reply] + MapPlay(blockSize, m1, ops[1..]).1
  {
    StepConserves(h, blockSize, d, ops[0]);
    hide WellFormed, Counted, NoLeak, ZeroIntact, Step, MapStep;
  }

  lemma DiffersBefore(h: Block -> Digest, blockSize: nat, d: Disk, m: FileMap, op: Op, ops: seq<Op>)
    requires 0 < blockSize && Conserved(blockSize, d) && Step(h, blockSize, d, op).1 != ErrEspInsuficiente
    requires var d1 := Step(h, blockSize, d, op).0;
      Conserved(blockSize, d1) && Differs(h, blockSize, d1, MapStep(blockSize, m, op).0, ops)
    ensures Differs(h, blockSize, d, m, [op] + ops)
  {
    hide WellFormed, Counted, NoLeak, ZeroIntact, Step, MapStep;
    var (d1, m1) := (Step(h, blockSize, d, op).0, MapStep(blockSize, m, op).0);
    assert ([op] + ops)[0] == op && ([op] + ops)[1..] == ops;
    FirstReply(h, blockSize, d, m, [op] + ops);
    var (replies, plays) := (Run(h, blockSize, d, [op] + ops).1, MapPlay(blockSize, m, [op] + ops).1);
    assert replies[1..] == Run(h, blockSize, d1, ops).1 && plays[1..] == MapPlay(blockSize, m1, ops).1;
  }

  /** What shows it after an operation shows it before. */
  lemma DamagedBefore(h: Block -> Digest, blockSize: nat, d: Disk, m: FileMap, op: Op)
    requires 0 < blockSize && Conserved(blockSize, d)
    requires Step(h, blockSize, d, op).1 != ErrEspInsuficiente
    requires Damaged(h, blockSize, Step(h, blockSize, d, op).0, MapStep(blockSize, m, op).0)
    ensures exists ops :: Differs(h, blockSize, d, m, [op] + ops)
    ensures Damaged(h, blockSize, d, m)
  {
    hide WellFormed, Counted, NoLeak, ZeroIntact, Step, MapStep, Differs;
    var ops :| Differs(h, blockSize, Step(h, blockSize, d, op).0, MapStep(blockSize, m, op).0, ops);
    DiffersBefore(h, blockSize, d, m, op, ops);
  }

  /** Logical block `s` is physical block `p`. */
  ghost predicate At(d: Disk, s: Slot, p: nat) {
    HasBlock(d, s) && d.metas[s.ft].blocks[s.pos] == p
  }

  ghost predicate InMap(m: FileMap, s: Slot) {
    s.ft in m && s.pos < |m[s.ft].blocks|
  }

  /** A logical block that reads differently. */
  lemma ReadDamages(h: Block -> Digest, blockSize: nat, d: Disk, m: FileMap, s: Slot, p: nat)
    requires 0 < blockSize && Conserved(blockSize, d) && At(d, s, p) && p < |d.content| && InMap(m, s)
    requires d.content[p] != m[s.ft].blocks[s.pos]
    ensures Damaged(h, blockSize, d, m)
  {
    hide LinksMatch, Counted, NoLeak, ZeroIntact;
    var op := Read(s.ft, s.pos);
    assert [op][1..] == [];
    assert Run(h, blockSize, d, [op]).1[0] == Contenido(d.content[p]);
    assert MapPlay(blockSize, m, [op]).1[0] == Contenido(m[s.ft].blocks[s.pos]);
    assert Differs(h, blockSize, d, m, [op]);
  }

  /** An operation on one file leaves the others of the map as they are. */
  lemma MapFrame(blockSize: nat, m: FileMap, op: Op, s: Slot)
    requires 0 < blockSize && InMap(m, s) && s.ft != op.ft
    ensures var r := MapStep(blockSize, m, op).0; InMap(r, s) && r[s.ft] == m[s.ft]
  {
  }

  // ---------------------------------------------------------------- names not in use

  lemma {:induction false} LongerName(names: set<FileTag>) returns (n: nat)
    ensures forall ft :: ft in names ==> |ft.file| < n
    decreases names
  {
    n := 0;
    if names != {} {
      var ft :| ft in names;
      n := LongerName(names - {ft});
      if n <= |ft.file| { n := |ft.file| + 1; }
    }
  }

  /** A File:Tag that neither has, and that is not initial_file:BASE. */
  lemma NewName(names: set<FileTag>) returns (ft: FileTag)
    ensures ft !in names && !IsBaseFile(ft)
  {
    var n := LongerName(names);
    ft := FileTag(seq(n + 13, _ => 'x'), "");
    assert |ft.file| == n + 13 && |"initial_file"| == 12;
  }

  // ---------------------------------------------------------------- a block in use that is marked free

  /** A block content of the right length that is not `c`. */
  function OtherBlock(blockSize: nat, c: Block): (b: Block)
    requires 0 < blockSize
    ensures b != c && |b| == blockSize
  {
    var ones := seq(blockSize, _ => '1');
    assert ones[0] != ZeroBlock(blockSize)[0];
    if c == ZeroBlock(blockSize) then ones else ZeroBlock(blockSize)
  }

  lemma SizesOf(blockSize: nat, d: Disk)
    requires Conserved(blockSize, d)
    ensures 0 < |d.content| == |d.used| == |d.nlink| && d.used[0]
  {
  }

  /** A WRITE to an unwritten block takes the first free block. */
  lemma FirstWriteIs(d: Disk, ft: FileTag, l: nat, q: nat, data: Block)
    requires WellFormed(d) && At(d, Slot(ft, l), 0) && d.metas[ft].estado != Commited
    requires FindFree(d.used, 1) == Some(q)
    ensures var (r, reply) := WriteFile(d, ft, l, data);
      && reply == OpExitosa && q < |d.content| && r.content == d.content[q := data] && r.used == d.used[q := true]
      && r.index == d.index
      && r.metas == d.metas[ft := d.metas[ft].(blocks := d.metas[ft].blocks[l := q])]
  {
    assert HasBlock(d, Slot(ft, l)) && Slot(ft, l) in d.links;
  }

  /** Writing a file block by block reaches every free block in turn. */
  lemma {:induction false} FillDamages(h: Block -> Digest, blockSize: nat, d: Disk, m: FileMap, f: FileTag, l: nat,
                                       s: Slot, p: nat, y: Block)
    requires 0 < blockSize && Conserved(blockSize, d) && At(d, s, p) && InMap(m, s) && f != s.ft
    requires f in d.metas && d.metas[f].estado != Commited
    requires forall j :: l <= j < |d.metas[f].blocks| ==> d.metas[f].blocks[j] == 0
    requires 0 < p < |d.used| && !d.used[p] && y != m[s.ft].blocks[s.pos]
    requires FindFree(d.used, 1).Some? && FindFree(d.used, 1).value + |d.metas[f].blocks| > p + l
    ensures Damaged(h, blockSize, d, m)
    decreases |d.metas[f].blocks| - l
  {
    hide WellFormed, Counted, NoLeak, ZeroIntact, WriteFile, MapStep, Damaged;
    var q := FindFree(d.used, 1).value;
    assert q <= p;
    assert HasBlock(d, Slot(f, l)) && At(d, Slot(f, l), 0);
    FirstWriteIs(d, f, l, q, y);
    SizesOf(blockSize, d);
    var op := Write(f, l, y);
    StepConserves(h, blockSize, d, op);
    MapFrame(blockSize, m, op, s);
    var (r, m1) := (Step(h, blockSize, d, op).0, MapStep(blockSize, m, op).0);
    assert r == WriteFile(d, f, l, y).0;
    assert At(r, s, p);
    if q == p {
      ReadDamages(h, blockSize, r, m1, s, p);
    } else {
      NextFree(d.used, q, p);
      FillDamages(h, blockSize, r, m1, f, l + 1, s, p, y);
    }
    DamagedBefore(h, blockSize, d, m, op);
  }

  lemma NextFree(used: seq<bool>, q: nat, p: nat)
    requires FindFree(used, 1) == Some(q) && 0 < p < |used| && !used[p] && p != q
    ensures var r := used[q := true]; !r[p] && FindFree(r, 1).Some? && FindFree(r, 1).value > q
  {
    assert forall j :: 1 <= j < q ==> used[j];
  }

  // ---------------------------------------------------------------- TRUNCATE

  lemma {:induction false} BlocksOfSize(blockSize: nat, n: nat)
    requires 0 < blockSize
    ensures NeededBlocks(blockSize, n * blockSize) == n
  {
    if n > 0 {
      assert n * blockSize - blockSize == (n - 1) * blockSize;
      BlocksOfSize(blockSize, n - 1);
    }
  }

  lemma {:induction false} GrowUsed(d: Disk, ft: FileTag, needed: nat)
    requires WellFormed(d) && ft in d.metas
    ensures Grow(d, ft, needed).used == d.used
    decreases needed - |d.metas[ft].blocks|
  {
    hide Geometry, LinksMatch, GrowOne;
    if |d.metas[ft].blocks| < needed {
      GrowOneUsed(d, ft);
      GrowUsed(GrowOne(d, ft), ft, needed);
    }
  }

  lemma GrowOneUsed(d: Disk, ft: FileTag)
    requires WellFormed(d) && ft in d.metas
    ensures GrowOne(d, ft).used == d.used
  {
    hide Geometry, LinksMatch;
  }

  /** A new file of `n` unwritten blocks. */
  lemma GrowNew(blockSize: nat, d: Disk, ft: FileTag, n: nat)
    requires 0 < blockSize && WellFormed(d) && ft in d.metas && d.metas[ft] == Metadata(0, [], WorkInProgress)
    ensures var (r, reply) := TruncateFile(blockSize, d, ft, n * blockSize);
      && reply == OpExitosa && r.content == d.content && r.index == d.index && r.used == d.used
      && r.metas == d.metas[ft := Metadata(n * blockSize, Zeros(n), WorkInProgress)]
  {
    hide Geometry, LinksMatch, Grow, Shrink, NeededBlocks;
    BlocksOfSize(blockSize, n);
    TruncateMetas(blockSize, d, ft, n * blockSize);
    GrowUsed(d, ft, n);
    GrowMetas(d, ft, n);
    NothingToShrink(Grow(d, ft, n), ft, n);
    assert [] + Zeros(n) == Zeros(n);
  }

  lemma NothingToShrink(d: Disk, ft: FileTag, needed: nat)
    requires WellFormed(d) && ft in d.metas && |d.metas[ft].blocks| <= needed
    ensures Shrink(d, ft, needed) == d
  {
  }

  /** The disk after CREATE. */
  lemma CreateIs(d: Disk, ft: FileTag)
    requires WellFormed(d) && ft !in d.metas
    ensures CreateFile(d, ft) == (d.(metas := d.metas[ft := Metadata(0, [], WorkInProgress)]), OpExitosa)
  {
    hide Geometry, LinksMatch;
  }

  /** Any file that uses a block marked free comes to read differently: a new file is written until
      it is given the block. */
  lemma FreeLinkedDamages(h: Block -> Digest, blockSize: nat, d: Disk, m: FileMap, s: Slot, p: nat)
    requires 0 < blockSize && Conserved(blockSize, d) && At(d, s, p) && InMap(m, s) && p < |d.used| && !d.used[p]
    ensures Damaged(h, blockSize, d, m)
  {
    hide WellFormed, Counted, NoLeak, CreateFile, TruncateFile, WriteFile, MapStep, Damaged;
    SizesOf(blockSize, d);
    assert 0 < p;
    var f := NewName(d.metas.Keys);
    var y := OtherBlock(blockSize, m[s.ft].blocks[s.pos]);
    var (create, grow) := (Create(f), Truncate(f, p * blockSize));
    CreateIs(d, f);
    StepConserves(h, blockSize, d, create);
    MapFrame(blockSize, m, create, s);
    var (d1, m1) := (Step(h, blockSize, d, create).0, MapStep(blockSize, m, create).0);
    GrowNew(blockSize, d1, f, p);
    StepConserves(h, blockSize, d1, grow);
    MapFrame(blockSize, m1, grow, s);
    var (d2, m2) := (Step(h, blockSize, d1, grow).0, MapStep(blockSize, m1, grow).0);
    assert At(d2, s, p);
    assert FindFree(d2.used, 1).Some?;
    FillDamages(h, blockSize, d2, m2, f, 0, s, p, y);
    DamagedBefore(h, blockSize, d1, m1, grow);
    DamagedBefore(h, blockSize, d, m, create);
  }

  // ---------------------------------------------------------------- a shared block the index does not give

  /** COMMIT frees the block of a logical block whose content the index has elsewhere. */
  lemma {:induction false} CommitFrees(h: Block -> Digest, d: Disk, ft: FileTag, i: nat, j: nat, p: nat)
    requires WellFormed(d) && At(d, Slot(ft, j), p) && i <= j && 0 < p < |d.content|
    requires h(d.content[p]) in d.index && d.index[h(d.content[p])] != p
    ensures p < |d.used| == |CommitFrom(h, d, ft, i).used| && !CommitFrom(h, d, ft, i).used[p]
    decreases j - i
  {
    hide Geometry, LinksMatch, CommitOne;
    assert HasBlock(d, Slot(ft, i));
    CommitOneNames(h, d, ft, i);
    var r := CommitOne(h, d, ft, i);
    CommitOneAt(h, d, ft, i);
    if i == j {
      CommitUsed(h, r, ft, i + 1, p);
    } else {
      assert At(r, Slot(ft, j), p);
      CommitFrees(h, r, ft, i + 1, j, p);
    }
  }

  lemma CommitOneAt(h: Block -> Digest, d: Disk, ft: FileTag, i: nat)
    requires WellFormed(d) && HasBlock(d, Slot(ft, i))
    ensures var (r, p) := (CommitOne(h, d, ft, i), d.metas[ft].blocks[i]);
      && |d.used| == |r.used| == |d.content| && p < |d.content|
      && (forall x: nat :: x < |d.used| && r.used[x] ==> d.used[x])
      && (forall j :: 0 <= j < |d.metas[ft].blocks| && j != i ==> r.metas[ft].blocks[j] == d.metas[ft].blocks[j])
      && (p != 0 && h(d.content[p]) in d.index && d.index[h(d.content[p])] != p ==> !r.used[p])
  {
    ContentIs(d, ft, i);
  }

  /** COMMIT marks no block as used. */
  lemma {:induction false} CommitUsed(h: Block -> Digest, d: Disk, ft: FileTag, i: nat, p: nat)
    requires WellFormed(d) && ft in d.metas && i <= |d.metas[ft].blocks| && p < |d.used| && !d.used[p]
    ensures var r := CommitFrom(h, d, ft, i); |r.used| == |d.used| && !r.used[p]
    decreases |d.metas[ft].blocks| - i
  {
    hide Geometry, LinksMatch, CommitOne;
    if i < |d.metas[ft].blocks| {
      assert HasBlock(d, Slot(ft, i));
      CommitOneAt(h, d, ft, i);
      CommitUsed(h, CommitOne(h, d, ft, i), ft, i + 1, p);
    }
  }

  /** Neither the file nor its blocks change when COMMIT is of another. */
  lemma CommitOthers(h: Block -> Digest, d: Disk, ft: FileTag, s: Slot, p: nat)
    requires WellFormed(d) && ft in d.metas && s.ft != ft && At(d, s, p)
    ensures var (r, reply) := CommitFile(h, d, ft); reply == OpExitosa && At(r, s, p) && r.content == d.content
  {
    hide WellFormed, CommitFile;
    CommitMetas(h, d, ft);
    CommitAnswer(h, d, ft);
  }

  lemma CommitAnswer(h: Block -> Digest, d: Disk, ft: FileTag)
    requires WellFormed(d) && ft in d.metas
    ensures CommitFile(h, d, ft).1 == OpExitosa && CommitFile(h, d, ft).0.content == d.content
  {
    hide WellFormed, CommitFrom;
  }

  lemma TagUsed(d: Disk, src: FileTag, dst: FileTag)
    requires WellFormed(d)
    ensures TagFile(d, src, dst).0.used == d.used
  {
    hide Geometry, LinksMatch, TagFrom;
    if dst !in d.metas && src in CreateFile(d, dst).0.metas {
      var source := CreateFile(d, dst).0.metas[src];
      BlocksInDisk(CreateFile(d, dst).0, src);
      TagFromUsed(SetSize(CreateFile(d, dst).0, dst, source.tamanio), dst, source.blocks, 0);
    }
  }

  lemma {:induction false} TagFromUsed(d: Disk, dst: FileTag, source: seq<nat>, i: nat)
    requires WellFormed(d) && dst in d.metas && InDisk(d, source) && i <= |source|
    ensures TagFrom(d, dst, source, i).used == d.used
    decreases |source| - i
  {
    hide Geometry, LinksMatch;
    if i < |source| {
      TagOneUsed(d, dst, source[i]);
      TagFromUsed(TagOne(d, dst, source[i]), dst, source, i + 1);
    }
  }

  lemma TagOneUsed(d: Disk, dst: FileTag, p: nat)
    requires WellFormed(d) && dst in d.metas && p < |d.content|
    ensures TagOne(d, dst, p).used == d.used
  {
    hide Geometry, LinksMatch;
  }

  /** The index has the content of the file's block elsewhere: a TAG copy, once COMMITED, frees the
      block. */
  lemma ElsewhereDamages(h: Block -> Digest, blockSize: nat, d: Disk, m: FileMap, s: Slot, p: nat)
    requires 0 < blockSize && Conserved(blockSize, d) && At(d, s, p) && InMap(m, s) && 0 < p < |d.content|
    requires h(d.content[p]) in d.index && d.index[h(d.content[p])] != p
    ensures Damaged(h, blockSize, d, m)
  {
    hide WellFormed, Counted, NoLeak, ZeroIntact, TagFile, CommitFile, MapStep, Damaged;
    assert WellFormed(d);
    var f := NewName(d.metas.Keys);
    var (tag, commit) := (Tag(s.ft, f), Commit(f));
    var d1 := Step(h, blockSize, d, tag).0;
    TagMetas(d, s.ft, f);
    TagAnswer(d, s.ft, f);
    StepConserves(h, blockSize, d, tag);
    MapFrame(blockSize, m, tag, s);
    var m1 := MapStep(blockSize, m, tag).0;
    assert At(d1, Slot(f, s.pos), p) && At(d1, s, p);
    CopyFreed(h, blockSize, d1, f, s, p);
    StepConserves(h, blockSize, d1, commit);
    MapFrame(blockSize, m1, commit, s);
    FreeLinkedDamages(h, blockSize, Step(h, blockSize, d1, commit).0, MapStep(blockSize, m1, commit).0, s, p);
    DamagedBefore(h, blockSize, d1, m1, commit);
    DamagedBefore(h, blockSize, d, m, tag);
  }

  lemma TagAnswer(d: Disk, src: FileTag, dst: FileTag)
    requires WellFormed(d) && dst !in d.metas && src in d.metas
    ensures TagFile(d, src, dst).1 == OpExitosa
  {
    hide Geometry, LinksMatch, TagFrom;
  }

  lemma CopyFreed(h: Block -> Digest, blockSize: nat, d: Disk, f: FileTag, s: Slot, p: nat)
    requires 0 < blockSize && Conserved(blockSize, d) && At(d, s, p) && At(d, Slot(f, s.pos), p) && s.ft != f
    requires 0 < p < |d.content| && h(d.content[p]) in d.index && d.index[h(d.content[p])] != p
    ensures var (r, reply) := CommitFile(h, d, f); reply == OpExitosa && At(r, s, p) && p < |r.used| && !r.used[p]
  {
    CommitOthers(h, d, f, s, p);
    CommitFrees(h, d, f, 0, s.pos, p);
    hide Conserved, CommitFrom, At;
  }

  // ---------------------------------------------------------------- a new file of one block

  /** CREATE, TRUNCATE to one block and WRITE. */
  function NewFile(blockSize: nat, d: Disk, f: FileTag, c: Block): Disk
    requires WellFormed(d) && 0 < blockSize
  {
    WriteFile(TruncateFile(blockSize, CreateFile(d, f).0, f, 1 * blockSize).0, f, 0, c).0
  }

  function NewMap(blockSize: nat, m: FileMap, f: FileTag, c: Block): FileMap
    requires 0 < blockSize
  {
    var m2 := MapStep(blockSize, MapStep(blockSize, m, Create(f)).0, Truncate(f, 1 * blockSize)).0;
    MapStep(blockSize, m2, Write(f, 0, c)).0
  }

  lemma NewMapIs(blockSize: nat, m: FileMap, f: FileTag, c: Block)
    requires 0 < blockSize
    ensures forall s :: InMap(m, s) && s.ft != f ==>
      InMap(NewMap(blockSize, m, f, c), s) && NewMap(blockSize, m, f, c)[s.ft] == m[s.ft]
    ensures f !in m ==> NewMap(blockSize, m, f, c) == m[f := File(1 * blockSize, [c], WorkInProgress)]
  {
    BlocksOfSize(blockSize, 1);
    hide NeededBlocks;
    if f !in m {
      var m1 := m[f := File(0, [], WorkInProgress)];
      var m2 := m1[f := File(1 * blockSize, [ZeroBlock(blockSize)], WorkInProgress)];
      assert Resized(blockSize, [], 1) == [ZeroBlock(blockSize)];
      assert MapStep(blockSize, m1, Truncate(f, 1 * blockSize)).0 == m2;
      assert [ZeroBlock(blockSize)][0 := c] == [c];
      assert m2[f := File(1 * blockSize, [c], WorkInProgress)] == m[f := File(1 * blockSize, [c], WorkInProgress)];
    }
  }

  /** The new file takes the first free block; nothing else changes. */
  lemma NewFileIs(blockSize: nat, d: Disk, f: FileTag, c: Block)
    requires 0 < blockSize && WellFormed(d) && f !in d.metas && FindFree(d.used, 1).Some?
    ensures var (r, q) := (NewFile(blockSize, d, f, c), FindFree(d.used, 1).value);
      && 0 < q < |d.content| && WellFormed(r) && r.content == d.content[q := c] && r.used == d.used[q := true]
      && r.index == d.index && r.metas == d.metas[f := Metadata(1 * blockSize, [q], WorkInProgress)]
  {
    hide WellFormed, CreateFile, TruncateFile, WriteFile;
    CreateIs(d, f);
    var d1 := CreateFile(d, f).0;
    GrowNew(blockSize, d1, f, 1);
    var d2 := TruncateFile(blockSize, d1, f, 1 * blockSize).0;
    assert Zeros(1) == [0] && [0][0 := FindFree(d.used, 1).value] == [FindFree(d.used, 1).value];
    assert At(d2, Slot(f, 0), 0);
    FirstWriteIs(d2, f, 0, FindFree(d.used, 1).value, c);
  }

  lemma NewFileDamages(h: Block -> Digest, blockSize: nat, d: Disk, m: FileMap, f: FileTag, c: Block)
    requires 0 < blockSize && Conserved(blockSize, d) && f !in d.metas && FindFree(d.used, 1).Some?
    requires Damaged(h, blockSize, NewFile(blockSize, d, f, c), NewMap(blockSize, m, f, c))
    ensures Damaged(h, blockSize, d, m)
  {
    hide WellFormed, Counted, NoLeak, ZeroIntact, CreateFile, TruncateFile, WriteFile, MapStep, Damaged;
    var (create, grow, write) := (Create(f), Truncate(f, 1 * blockSize), Write(f, 0, c));
    CreateIs(d, f);
    StepConserves(h, blockSize, d, create);
    var (d1, m1) := (Step(h, blockSize, d, create).0, MapStep(blockSize, m, create).0);
    GrowNew(blockSize, d1, f, 1);
    StepConserves(h, blockSize, d1, grow);
    var (d2, m2) := (Step(h, blockSize, d1, grow).0, MapStep(blockSize, m1, grow).0);
    assert At(d2, Slot(f, 0), 0);
    FirstWriteIs(d2, f, 0, FindFree(d.used, 1).value, c);
    DamagedBefore(h, blockSize, d2, m2, write);
    DamagedBefore(h, blockSize, d1, m1, grow);
    DamagedBefore(h, blockSize, d, m, create);
  }

  lemma NewFileConserves(h: Block -> Digest, blockSize: nat, d: Disk, f: FileTag, c: Block)
    requires 0 < blockSize && Conserved(blockSize, d)
    ensures Conserved(blockSize, NewFile(blockSize, d, f, c))
  {
    hide WellFormed, Counted, NoLeak, ZeroIntact, CreateFile, TruncateFile, WriteFile;
    StepConserves(h, blockSize, d, Create(f));
    var d1 := CreateFile(d, f).0;
    TruncateConserves(blockSize, d1, f, 1 * blockSize);
    WriteConserves(blockSize, TruncateFile(blockSize, d1, f, 1 * blockSize).0, f, 0, c);
  }

  /** COMMIT of a file of one block whose content is not in the index. */
  lemma CommitLoads(h: Block -> Digest, d: Disk, f: FileTag, q: nat)
    requires WellFormed(d) && f in d.metas && d.metas[f].blocks == [q] && q < |d.content|
    requires h(d.content[q]) !in d.index
    ensures CommitFile(h, d, f) ==
      (d.(index := d.index[h(d.content[q]) := q], metas := d.metas[f := d.metas[f].(estado := Commited)]), OpExitosa)
  {
    FirstSlot(d, f, q);
    hide WellFormed, CommitFile, CommitOne;
    CommitOneIs(h, d, f, q);
    CommitOneBlock(h, d, f);
  }

  /** COMMIT of a file of one block whose content the index has. */
  lemma CommitMoves(h: Block -> Digest, d: Disk, f: FileTag, q: nat)
    requires WellFormed(d) && f in d.metas && d.metas[f].blocks == [q] && q < |d.content|
    requires h(d.content[q]) in d.index
    ensures var (r, reply) := CommitFile(h, d, f);
      && reply == OpExitosa && r.content == d.content
      && r.metas == d.metas[f := Metadata(d.metas[f].tamanio, [d.index[h(d.content[q])]], Commited)]
  {
    hide WellFormed, CommitFile, CommitOne;
    FirstSlot(d, f, q);
    CommitOneIs(h, d, f, q);
    CommitOneBlock(h, d, f);
    var moved := d.metas[f].(blocks := [d.index[h(d.content[q])]]);
    UpdateTwice(d.metas, f, moved, moved.(estado := Commited));
  }

  lemma UpdateTwice<K, V>(m: map<K, V>, k: K, first: V, second: V)
    ensures m[k := first][k := second] == m[k := second]
  {
  }

  lemma FirstSlot(d: Disk, f: FileTag, q: nat)
    requires WellFormed(d) && f in d.metas && d.metas[f].blocks == [q]
    ensures HasBlock(d, Slot(f, 0)) && Slot(f, 0) in d.links && d.links[Slot(f, 0)] == q
  {
    assert HasBlock(d, Slot(f, 0));
  }

  lemma CommitOneBlock(h: Block -> Digest, d: Disk, f: FileTag)
    requires WellFormed(d) && HasBlock(d, Slot(f, 0)) && |d.metas[f].blocks| == 1
    ensures CommitFile(h, d, f) == (SetCommited(CommitOne(h, d, f, 0), f), OpExitosa)
  {
    hide WellFormed, CommitOne;
    var d1 := CommitOne(h, d, f, 0);
    assert CommitFrom(h, d1, f, 1) == d1;
    assert CommitFrom(h, d, f, 0) == d1;
  }

  lemma CommitOneIs(h: Block -> Digest, d: Disk, f: FileTag, q: nat)
    requires WellFormed(d) && HasBlock(d, Slot(f, 0)) && Slot(f, 0) in d.links && d.links[Slot(f, 0)] == q
    requires d.metas[f].blocks == [q] && q < |d.content|
    ensures var (r, key) := (CommitOne(h, d, f, 0), h(d.content[q]));
      && (key !in d.index ==> r == d.(index := d.index[key := q]))
      && (key in d.index ==>
            r.index == d.index && r.metas == d.metas[f := d.metas[f].(blocks := [d.index[key]])])
  {
    hide Geometry, LinksMatch, Reassign;
    var key := h(d.content[q]);
    if key in d.index {
      IndexInDisk(d, key);
      ReassignMetas(d, f, d.index[key]);
      assert [q][0 := d.index[key]] == [d.index[key]];
      assert d.metas[f := d.metas[f]] == d.metas;
    }
  }

  lemma ReassignMetas(d: Disk, f: FileTag, q: nat)
    requires WellFormed(d) && HasBlock(d, Slot(f, 0)) && q < |d.content|
    ensures var r := Reassign(d, f, 0, q);
      r.index == d.index && r.metas == d.metas[f := d.metas[f].(blocks := d.metas[f].blocks[0 := q])]
  {
    hide Geometry, LinksMatch;
  }

  /** A block in use that the index does not give for its content, and that is not block 0. */
  lemma UnindexedDamages(h: Block -> Digest, blockSize: nat, d: Disk, m: FileMap, s: Slot, p: nat)
    requires 0 < blockSize && Conserved(blockSize, d) && At(d, s, p) && InMap(m, s) && 0 < p < |d.content|
    requires !Indexed(h, d, p) && (h(d.content[p]) in d.index || FindFree(d.used, 1).Some?)
    ensures Damaged(h, blockSize, d, m)
  {
    hide WellFormed, Counted, NoLeak, ZeroIntact, NewFile, NewMap, CommitFile, MapStep, Damaged;
    SizesOf(blockSize, d);
    if !d.used[p] {
      FreeLinkedDamages(h, blockSize, d, m, s, p);
    } else if h(d.content[p]) in d.index {
      ElsewhereDamages(h, blockSize, d, m, s, p);
    } else {
      var f := NewName(d.metas.Keys);
      var (c, q) := (d.content[p], FindFree(d.used, 1).value);
      NewFileIs(blockSize, d, f, c);
      NewFileConserves(h, blockSize, d, f, c);
      NewMapIs(blockSize, m, f, c);
      var (d1, m1) := (NewFile(blockSize, d, f, c), NewMap(blockSize, m, f, c));
      CommitLoads(h, d1, f, q);
      StepConserves(h, blockSize, d1, Commit(f));
      MapFrame(blockSize, m1, Commit(f), s);
      ElsewhereDamages(h, blockSize, Step(h, blockSize, d1, Commit(f)).0, MapStep(blockSize, m1, Commit(f)).0, s, p);
      DamagedBefore(h, blockSize, d1, m1, Commit(f));
      NewFileDamages(h, blockSize, d, m, f, c);
    }
  }

  // ---------------------------------------------------------------- unsafe TAG

  lemma TagDamages(h: Block -> Digest, blockSize: nat, d: Disk, src: FileTag, dst: FileTag)
    requires 0 < blockSize && Inv(h, blockSize, d) && FindFree(d.used, 1).Some? && !TagSafe(h, d, src, dst)
    ensures exists ops :: Differs(h, blockSize, d, Abs(d), [Tag(src, dst)] + ops)
  {
    var j :| 0 <= j < |d.metas[src].blocks| && !Indexed(h, d, d.metas[src].blocks[j]);
    hide InvPending, WellFormed, Counted, NoLeak, ZeroIntact, TagSafe, TagFile, MapStep, Damaged, Abs, Indexed, Differs;
    InvConserved(h, blockSize, d);
    var (s, p, op) := (Slot(src, j), d.metas[src].blocks[j], Tag(src, dst));
    ContentIs(d, src, j);
    StepConserves(h, blockSize, d, op);
    MapFrame(blockSize, Abs(d), op, s);
    var r := Step(h, blockSize, d, op).0;
    TagCopies(h, d, s, p, dst, r);
    UnindexedDamages(h, blockSize, r, MapStep(blockSize, Abs(d), op).0, s, p);
    DamagedBefore(h, blockSize, d, Abs(d), op);
  }

  /** The source keeps the block it shares now. */
  lemma TagCopies(h: Block -> Digest, d: Disk, s: Slot, p: nat, dst: FileTag, r: Disk)
    requires WellFormed(d) && dst !in d.metas && At(d, s, p) && !Indexed(h, d, p) && r == TagFile(d, s.ft, dst).0
    ensures TagFile(d, s.ft, dst).1 == OpExitosa
    ensures At(r, s, p) && r.content == d.content && !Indexed(h, r, p) && r.used == d.used
  {
    hide WellFormed, TagFile, Indexed;
    TagMetas(d, s.ft, dst);
    IndexSame(h, d, r, dst);
    TagAnswer(d, s.ft, dst);
    TagUsed(d, s.ft, dst);
  }

  // ---------------------------------------------------------------- unsafe DELETE of a file in progress

  /** The digest of the zero block has left the index: a second copy of the zero block takes its
      place there and is forgotten in turn. */
  lemma ZeroDamages(h: Block -> Digest, blockSize: nat, d: Disk, m: FileMap, a: nat, b: nat)
    requires 0 < blockSize && Conserved(blockSize, d) && LiveUsed(d) && 0 < |d.content|
    requires h(d.content[0]) !in d.index
    requires 0 < a < |d.used| && 0 < b < |d.used| && a != b && !d.used[a] && !d.used[b]
    ensures Damaged(h, blockSize, d, m)
  {
    hide WellFormed, Counted, NoLeak, ZeroIntact, LiveUsed, NewFile, NewMap, CommitFile, MapStep, Damaged;
    var f := NewName(d.metas.Keys + m.Keys);
    var (c, z, commit) := (d.content[0], FindFree(d.used, 1).value, Commit(f));
    NewFileIs(blockSize, d, f, c);
    NewFileConserves(h, blockSize, d, f, c);
    NewMapIs(blockSize, m, f, c);
    var (d1, m1) := (NewFile(blockSize, d, f, c), NewMap(blockSize, m, f, c));
    CommitLoads(h, d1, f, z);
    SizesOf(blockSize, d);
    StepConserves(h, blockSize, d1, commit);
    CommitInMap(blockSize, m1, f);
    var (d2, m2) := (Step(h, blockSize, d1, commit).0, MapStep(blockSize, m1, commit).0);
    assert FindFree(d2.used, 1).Some? by { NextFree(d.used, z, if a == z then b else a); }
    ForgottenDamages(h, blockSize, d, d2, m2, f, z);
    DamagedBefore(h, blockSize, d1, m1, commit);
    NewFileDamages(h, blockSize, d, m, f, c);
  }

  lemma CommitInMap(blockSize: nat, m: FileMap, f: FileTag)
    requires 0 < blockSize && InMap(m, Slot(f, 0))
    ensures InMap(MapStep(blockSize, m, Commit(f)).0, Slot(f, 0))
  {
  }

  /** Files `f`, COMMITED with the content of block 0 in block `z`, is new since `d`. */
  lemma ForgottenDamages(h: Block -> Digest, blockSize: nat, d: Disk, d2: Disk, m: FileMap, f: FileTag, z: nat)
    requires 0 < blockSize && Conserved(blockSize, d) && Conserved(blockSize, d2) && LiveUsed(d)
    requires 0 < z < |d.content| == |d2.content| == |d.used| && d2.content[z] == d2.content[0]
    requires FindFree(d2.used, 1).Some? && d2.used == d.used[z := true] && InMap(m, Slot(f, 0))
    requires f in d2.metas && d2.metas[f].blocks == [z]
    requires forall g :: g in d2.metas && g != f ==> g in d.metas && d2.metas[g] == d.metas[g]
    ensures Damaged(h, blockSize, d2, m)
  {
    hide WellFormed, Counted, NoLeak, ZeroIntact, LiveUsed, NewFile, NewMap, DeleteFile, MapStep, Damaged;
    var g := NewName(d2.metas.Keys);
    var (c, w, delete) := (d2.content[0], FindFree(d2.used, 1).value, Delete(g));
    assert w != z && !d.used[w];
    NewFileIs(blockSize, d2, g, c);
    NewFileConserves(h, blockSize, d2, g, c);
    NewMapIs(blockSize, m, g, c);
    var (d3, m3) := (NewFile(blockSize, d2, g, c), NewMap(blockSize, m, g, c));
    OnlyNew(d, d3, f, g, z, w);
    DeletedAlone(h, blockSize, d3, g, w);
    StepConserves(h, blockSize, d3, delete);
    MapFrame(blockSize, m3, delete, Slot(f, 0));
    var (d4, m4) := (Step(h, blockSize, d3, delete).0, MapStep(blockSize, m3, delete).0);
    assert At(d4, Slot(f, 0), z);
    UnindexedDamages(h, blockSize, d4, m4, Slot(f, 0), z);
    DamagedBefore(h, blockSize, d3, m3, delete);
    NewFileDamages(h, blockSize, d2, m, g, c);
  }

  lemma LiveAt(d: Disk, s: Slot, p: nat)
    requires WellFormed(d) && LiveUsed(d) && At(d, s, p)
    ensures p < |d.used| && d.used[p]
  {
    assert s in d.links && d.links[s] == p;
  }

  /** No file but the new one has its block. */
  lemma OnlyNew(d: Disk, d3: Disk, f: FileTag, g: FileTag, z: nat, w: nat)
    requires WellFormed(d) && LiveUsed(d) && w < |d.used| && !d.used[w] && w != z && f != g
    requires f in d3.metas && d3.metas[f].blocks == [z]
    requires forall x :: x in d3.metas && x != f && x != g ==> x in d.metas && d3.metas[x] == d.metas[x]
    ensures forall s :: At(d3, s, w) ==> s.ft == g
  {
    hide WellFormed, LiveUsed;
    forall s | At(d3, s, w)
      ensures s.ft == g
    {
      if s.ft != g && s.ft != f {
        assert At(d, s, w);
        LiveAt(d, s, w);
      }
    }
  }

  /** DELETE of a file of one block that no other file has. */
  lemma DeletedAlone(h: Block -> Digest, blockSize: nat, d: Disk, g: FileTag, w: nat)
    requires Conserved(blockSize, d) && g in d.metas && !IsBaseFile(g) && d.metas[g].blocks == [w]
    requires 0 < w < |d.content| && forall s :: At(d, s, w) ==> s.ft == g
    ensures var (r, reply) := DeleteFile(h, d, g);
      && reply == OpExitosa && r.content == d.content && r.metas == d.metas - {g}
      && h(d.content[w]) !in r.index && w < |r.used| && !r.used[w]
  {
    DeleteIsDeleted(h, blockSize, d, g);
    AloneReleased(d, g, w);
    hide WellFormed, Counted, NoLeak, ZeroIntact, Released, IsBaseFile, At;
    assert h(d.content[w]) in Digests(h, d.content, Released(d, g, 0));
  }

  lemma AloneReleased(d: Disk, g: FileTag, w: nat)
    requires WellFormed(d) && g in d.metas && d.metas[g].blocks == [w] && 0 < w
    requires forall s :: At(d, s, w) ==> s.ft == g
    ensures w in Released(d, g, 0)
  {
    assert d.metas[g].blocks[0..] == [w] && w in [w];
    var rest := d.links - SlotsFrom(d, g, 0);
    forall s | s in rest
      ensures rest[s] != w
    {
      assert s in d.links && s !in SlotsFrom(d, g, 0) && HasBlock(d, s);
      assert s.ft != g && !At(d, s, w);
    }
    assert LinksTo(rest, w) == {};
  }

  lemma DeleteAnswer(h: Block -> Digest, d: Disk, ft: FileTag)
    requires WellFormed(d) && ft in d.metas && !IsBaseFile(ft)
    ensures DeleteFile(h, d, ft).1 == OpExitosa
  {
  }

  /** Block `q` is the one the index gave for the content of the released block `p`. */
  ghost predicate Displaced(h: Block -> Digest, d: Disk, ft: FileTag, p: nat, q: nat) {
    && ft in d.metas && !IsCommited(d, ft) && p in Released(d, ft, 0) && p != q
    && p < |d.content| && h(d.content[p]) in d.index && d.index[h(d.content[p])] == q
  }

  /** The digest leaves the index with the released block. */
  lemma DigestLeaves(h: Block -> Digest, blockSize: nat, d: Disk, ft: FileTag, p: nat, q: nat, r: Disk)
    requires Inv(h, blockSize, d) && Displaced(h, d, ft, p, q) && Deleted(h, d, ft, r)
    ensures q < |r.content| && h(r.content[q]) !in r.index && r.content == d.content
    ensures q != 0 ==> exists t :: At(d, t, q) && At(r, t, q) && t.ft != ft
  {
    hide InvPending, WellFormed, Released;
    InvConserved(h, blockSize, d);
    EntryOwned(h, blockSize, d, h(d.content[p]));
    assert h(d.content[p]) in Digests(h, d.content, Released(d, ft, 0));
    if q != 0 {
      var t :| IsSealed(d, {}, t) && d.links[t] == q;
      SealedSlot(d, t);
      assert At(d, t, q) && At(r, t, q) && t.ft != ft;
    }
  }

  lemma EntryOwned(h: Block -> Digest, blockSize: nat, d: Disk, key: Digest)
    requires Inv(h, blockSize, d) && key in d.index
    ensures d.index[key] < |d.content| && h(d.content[d.index[key]]) == key
    ensures d.index[key] != 0 ==> Owned(d, {}, d.index[key])
  {
  }

  lemma InvConserved(h: Block -> Digest, blockSize: nat, d: Disk)
    requires Inv(h, blockSize, d)
    ensures Conserved(blockSize, d) && LiveUsed(d) && Indexed(h, d, 0)
  {
  }

  /** And the block is free. */
  lemma BlockFreed(h: Block -> Digest, blockSize: nat, d: Disk, ft: FileTag, p: nat, q: nat, r: Disk)
    requires Inv(h, blockSize, d) && Displaced(h, d, ft, p, q) && Deleted(h, d, ft, r)
    ensures LiveUsed(r) && 0 < p < |r.used| == |d.used| && !r.used[p] && d.used[p]
    ensures forall x: nat :: x < |d.used| && !d.used[x] ==> !r.used[x]
  {
    hide InvPending, WellFormed;
    InvConserved(h, blockSize, d);
    DeleteKeepsLiveUsed(h, d, ft, r);
    ReleasedUsed(d, ft, p);
  }

  lemma ReleasedUsed(d: Disk, ft: FileTag, p: nat)
    requires WellFormed(d) && LiveUsed(d) && ft in d.metas && p in Released(d, ft, 0)
    ensures 0 < p < |d.used| && d.used[p]
  {
    ReleasedIsBlock(d, ft, p);
    var i :| 0 <= i < |d.metas[ft].blocks| && d.metas[ft].blocks[i] == p;
    assert HasBlock(d, Slot(ft, i)) && At(d, Slot(ft, i), p);
    LiveAt(d, Slot(ft, i), p);
  }

  lemma DisplacedDamages(h: Block -> Digest, blockSize: nat, d: Disk, ft: FileTag, p: nat, q: nat)
    requires 0 < blockSize && Inv(h, blockSize, d) && FindFree(d.used, 1).Some?
    requires Displaced(h, d, ft, p, q) && !IsBaseFile(ft)
    ensures exists ops :: Differs(h, blockSize, d, Abs(d), [Delete(ft)] + ops)
  {
    assert ft in d.metas;
    hide WellFormed, Counted, NoLeak, ZeroIntact, InvPending, DeleteFile, MapStep, Damaged, Abs, Indexed, Displaced;
    hide Differs, Deleted, IsBaseFile, LiveUsed;
    InvConserved(h, blockSize, d);
    var op := Delete(ft);
    var (r, m) := (Step(h, blockSize, d, op).0, MapStep(blockSize, Abs(d), op).0);
    DeleteIsDeleted(h, blockSize, d, ft);
    DeleteAnswer(h, d, ft);
    DigestLeaves(h, blockSize, d, ft, p, q, r);
    BlockFreed(h, blockSize, d, ft, p, q, r);
    StepConserves(h, blockSize, d, op);
    assert FindFree(r.used, 1).Some?;
    if q == 0 {
      ZeroDamages(h, blockSize, r, m, p, FindFree(d.used, 1).value);
    } else {
      var t :| At(d, t, q) && At(r, t, q) && t.ft != ft;
      FileIs(d, t.ft);
      MapFrame(blockSize, Abs(d), op, t);
      NotInIndex(h, r, q);
      UnindexedDamages(h, blockSize, r, m, t, q);
    }
    DamagedBefore(h, blockSize, d, Abs(d), op);
  }

  lemma DeleteInProgressDamages(h: Block -> Digest, blockSize: nat, d: Disk, ft: FileTag)
    requires 0 < blockSize && Inv(h, blockSize, d) && FindFree(d.used, 1).Some? && ft in d.metas
    requires !IsCommited(d, ft) && !DeleteSafe(h, d, ft)
    ensures exists ops :: Differs(h, blockSize, d, Abs(d), [Delete(ft)] + ops)
  {
    hide InvPending, Differs, Abs, Released;
    var p: nat :| p in Released(d, ft, 0) && p < |d.content| && h(d.content[p]) in d.index && !Indexed(h, d, p);
    DisplacedDamages(h, blockSize, d, ft, p, d.index[h(d.content[p])]);
  }

  lemma NotInIndex(h: Block -> Digest, d: Disk, q: nat)
    requires q < |d.content| && h(d.content[q]) !in d.index
    ensures !Indexed(h, d, q)
  {
  }

  // ---------------------------------------------------------------- unsafe DELETE of a COMMITED file

  /** The files with block `p`. */
  ghost function Linkers(d: Disk, p: nat): set<FileTag> {
    set g | g in d.metas && p in d.metas[g].blocks
  }

  ghost predicate OnlyInProgress(d: Disk, p: nat) {
    forall g :: g in Linkers(d, p) ==> d.metas[g].estado != Commited
  }

  /** TRUNCATE to fewer blocks. */
  lemma ShrinkIs(blockSize: nat, d: Disk, ft: FileTag, n: nat)
    requires 0 < blockSize && Conserved(blockSize, d) && LiveUsed(d) && ft in d.metas
    requires d.metas[ft].estado != Commited && n <= |d.metas[ft].blocks|
    ensures var (r, reply) := TruncateFile(blockSize, d, ft, n * blockSize);
      && reply == OpExitosa && r.content == d.content && r.index == d.index && LiveUsed(r)
      && |r.used| == |d.used| && (forall x: nat :: x < |d.used| && r.used[x] ==> d.used[x])
      && r.metas == d.metas[ft := Metadata(n * blockSize, d.metas[ft].blocks[..n], WorkInProgress)]
  {
    hide Geometry, LinksMatch, Grow, Shrink, NeededBlocks, Counted, LiveUsed;
    BlocksOfSize(blockSize, n);
    TruncateMetas(blockSize, d, ft, n * blockSize);
    GrowEnough(d, ft, n);
    ShrinkUsed(blockSize, d, ft, n);
    SizeLive(Shrink(d, ft, n), ft, n * blockSize);
  }

  lemma SizeLive(d: Disk, ft: FileTag, size: int)
    requires WellFormed(d) && LiveUsed(d) && ft in d.metas
    ensures LiveUsed(SetSize(d, ft, size))
  {
    hide WellFormed;
  }

  lemma ShrinkOneFrees(d: Disk, ft: FileTag)
    requires WellFormed(d) && Counted(d) && ft in d.metas && d.metas[ft].blocks != []
    ensures var r := ShrinkOne(d, ft);
      |r.used| == |d.used| && forall x: nat :: x < |d.used| && r.used[x] ==> d.used[x]
  {
    ShrinkOneMoves(d, ft);
    hide WellFormed, Counted, ShrinkOne, LinksTo;
  }

  lemma {:induction false} ShrinkUsed(blockSize: nat, d: Disk, ft: FileTag, n: nat)
    requires Conserved(blockSize, d) && LiveUsed(d) && ft in d.metas
    ensures var r := Shrink(d, ft, n);
      LiveUsed(r) && |r.used| == |d.used| && forall x: nat :: x < |d.used| && r.used[x] ==> d.used[x]
    decreases |d.metas[ft].blocks|
  {
    hide WellFormed, ShrinkOne, LiveUsed, Counted, NoLeak, ZeroIntact;
    if n < |d.metas[ft].blocks| {
      ShrinkOneFrees(d, ft);
      ShrinkOneLiveUsed(d, ft);
      ShrinkOneConserves(blockSize, d, ft);
      ShrinkUsed(blockSize, ShrinkOne(d, ft), ft, n);
    }
  }

  /** A block that only one logical block has is overwritten in place, with the index still giving it
      for what it held: the next file COMMITED with that content gets the new one. */
  lemma AloneDamages(h: Block -> Digest, blockSize: nat, d: Disk, m: FileMap, s: Slot, p: nat)
    requires 0 < blockSize && Conserved(blockSize, d) && LiveUsed(d) && At(d, s, p) && 0 < p && Indexed(h, d, p)
    requires FindFree(d.used, 1).Some? && d.metas[s.ft].estado != Commited
    requires forall t :: At(d, t, p) ==> t == s
    ensures Damaged(h, blockSize, d, m)
  {
    LiveAt(d, s, p);
    var c := d.content[p];
    assert h(c) in d.index && d.index[h(c)] == p && p < |d.content|;
    hide WellFormed, Counted, NoLeak, ZeroIntact, LiveUsed, NewFile, NewMap, CommitFile, WriteFile, MapStep, Damaged;
    hide Indexed;
    var y := OtherBlock(blockSize, c);
    var write := Write(s.ft, s.pos, y);
    InPlace(blockSize, d, s, p, y);
    StepConserves(h, blockSize, d, write);
    var (d1, m1) := (Step(h, blockSize, d, write).0, MapStep(blockSize, m, write).0);
    StaleDamages(h, blockSize, d1, m1, p, c);
    DamagedBefore(h, blockSize, d, m, write);
  }

  lemma InPlace(blockSize: nat, d: Disk, s: Slot, p: nat, y: Block)
    requires Conserved(blockSize, d) && At(d, s, p) && 0 < p && d.metas[s.ft].estado != Commited
    requires forall t :: At(d, t, p) ==> t == s
    ensures p < |d.content| && WriteFile(d, s.ft, s.pos, y) == (d.(content := d.content[p := y]), OpExitosa)
  {
    assert HasBlock(d, s) && s in d.links && d.links[s] == p && p < |d.nlink|;
    forall t | t in LinksTo(d.links, p)
      ensures t == s
    {
      assert HasBlock(d, t) && At(d, t, p);
    }
    assert LinksTo(d.links, p) == {s};
    assert !MustCopy(d, p);
  }

  /** The index gives block `p` for content `c`, which it no longer has. */
  lemma StaleDamages(h: Block -> Digest, blockSize: nat, d: Disk, m: FileMap, p: nat, c: Block)
    requires 0 < blockSize && Conserved(blockSize, d) && FindFree(d.used, 1).Some?
    requires h(c) in d.index && d.index[h(c)] == p && p < |d.content| && p < |d.used| && d.used[p] && d.content[p] != c
    ensures Damaged(h, blockSize, d, m)
  {
    hide WellFormed, Counted, NoLeak, ZeroIntact, NewFile, NewMap, CommitFile, MapStep, Damaged;
    var f := NewName(d.metas.Keys + m.Keys);
    var (q, commit) := (FindFree(d.used, 1).value, Commit(f));
    NewFileIs(blockSize, d, f, c);
    NewFileConserves(h, blockSize, d, f, c);
    NewMapIs(blockSize, m, f, c);
    var (d1, m1) := (NewFile(blockSize, d, f, c), NewMap(blockSize, m, f, c));
    CommitMoves(h, d1, f, q);
    StepConserves(h, blockSize, d1, commit);
    CommitKeeps(blockSize, m1, f);
    var (d2, m2) := (Step(h, blockSize, d1, commit).0, MapStep(blockSize, m1, commit).0);
    assert At(d2, Slot(f, 0), p);
    ReadDamages(h, blockSize, d2, m2, Slot(f, 0), p);
    DamagedBefore(h, blockSize, d1, m1, commit);
    NewFileDamages(h, blockSize, d, m, f, c);
  }

  lemma CommitKeeps(blockSize: nat, m: FileMap, f: FileTag)
    requires 0 < blockSize && f in m
    ensures var r := MapStep(blockSize, m, Commit(f)).0; f in r && r[f].blocks == m[f].blocks
  {
  }

  /** Files in progress share a block that the index still gives: all but one logical block let go of
      it. */
  lemma {:induction false} SharedDamages(h: Block -> Digest, blockSize: nat, d: Disk, m: FileMap, s: Slot, p: nat)
    requires 0 < blockSize && Conserved(blockSize, d) && LiveUsed(d) && At(d, s, p) && 0 < p && Indexed(h, d, p)
    requires FindFree(d.used, 1).Some? && OnlyInProgress(d, p)
    ensures Damaged(h, blockSize, d, m)
    decreases |Linkers(d, p)|
  {
    hide WellFormed, Counted, NoLeak, ZeroIntact, LiveUsed, TruncateFile, MapStep, Damaged, Indexed;
    assert s.ft in Linkers(d, p);
    if g :| g in Linkers(d, p) && g != s.ft {
      var op := Truncate(g, 0 * blockSize);
      ShrinkIs(blockSize, d, g, 0);
      StepConserves(h, blockSize, d, op);
      var r := Step(h, blockSize, d, op).0;
      IndexSame(h, d, r, g);
      assert Linkers(r, p) == Linkers(d, p) - {g};
      SharedDamages(h, blockSize, r, MapStep(blockSize, m, op).0, s, p);
      DamagedBefore(h, blockSize, d, m, op);
    } else {
      OneFileDamages(h, blockSize, d, m, s, p);
    }
  }

  lemma {:induction false} FirstAt(blocks: seq<nat>, p: nat) returns (i: nat)
    requires p in blocks
    ensures i < |blocks| && blocks[i] == p && forall j :: 0 <= j < i ==> blocks[j] != p
    decreases blocks
  {
    i := 0;
    if blocks[0] != p {
      i := FirstAt(blocks[1..], p);
      i := i + 1;
      assert forall j :: 0 < j < i ==> blocks[j] == blocks[1..][j - 1];
    }
  }

  lemma OneFileDamages(h: Block -> Digest, blockSize: nat, d: Disk, m: FileMap, s: Slot, p: nat)
    requires 0 < blockSize && Conserved(blockSize, d) && LiveUsed(d) && At(d, s, p) && 0 < p && Indexed(h, d, p)
    requires FindFree(d.used, 1).Some? && d.metas[s.ft].estado != Commited
    requires forall g :: g in Linkers(d, p) ==> g == s.ft
    ensures Damaged(h, blockSize, d, m)
  {
    hide WellFormed, Counted, NoLeak, ZeroIntact, LiveUsed, TruncateFile, MapStep, Damaged, Indexed;
    var i := FirstAt(d.metas[s.ft].blocks, p);
    var op := Truncate(s.ft, (i + 1) * blockSize);
    ShrinkIs(blockSize, d, s.ft, i + 1);
    StepConserves(h, blockSize, d, op);
    var r := Step(h, blockSize, d, op).0;
    IndexSame(h, d, r, s.ft);
    forall t | At(r, t, p)
      ensures t == Slot(s.ft, i)
    {
      assert t.ft != s.ft ==> t.ft in Linkers(d, p);
      assert t.ft == s.ft ==> r.metas[t.ft].blocks[t.pos] == d.metas[s.ft].blocks[t.pos];
    }
    assert At(r, Slot(s.ft, i), p);
    AloneDamages(h, blockSize, r, MapStep(blockSize, m, op).0, Slot(s.ft, i), p);
    DamagedBefore(h, blockSize, d, m, op);
  }

  /** A file in progress alone keeps block `p` of the COMMITED file. */
  ghost predicate Abandoned(d: Disk, ft: FileTag, s: Slot, p: nat) {
    && IsCommited(d, ft) && s in d.links && d.links[s] == p && p != 0 && s.ft != ft && p in d.metas[ft].blocks
    && !CommitedElsewhere(d, ft, p)
  }

  lemma AbandonedStaysIndexed(h: Block -> Digest, blockSize: nat, d: Disk, ft: FileTag, r: Disk, s: Slot, p: nat)
    requires Inv(h, blockSize, d) && Deleted(h, d, ft, r) && Abandoned(d, ft, s, p)
    ensures Indexed(h, r, p) && At(r, s, p)
  {
    hide InvPending, Geometry, CommitedElsewhere;
    InvConserved(h, blockSize, d);
    DeletedLinks(h, d, ft, r);
    CommitedBlockIndexed(h, blockSize, d, ft, p);
    assert s in LinksTo(r.links, p) && HasBlock(d, s);
    OtherDigests(h, blockSize, d, ft, p);
  }

  /** A COMMITED file's blocks have different contents. */
  lemma OtherDigests(h: Block -> Digest, blockSize: nat, d: Disk, ft: FileTag, p: nat)
    requires Inv(h, blockSize, d) && IsCommited(d, ft) && Indexed(h, d, p) && p !in Released(d, ft, 0)
    ensures h(d.content[p]) !in Digests(h, d.content, Released(d, ft, 0))
  {
    hide InvPending;
    forall x: nat | x in Released(d, ft, 0) && x < |d.content|
      ensures h(d.content[x]) != h(d.content[p])
    {
      ReleasedIsBlock(d, ft, x);
      CommitedBlockIndexed(h, blockSize, d, ft, x);
    }
  }

  lemma AbandonedInProgress(h: Block -> Digest, blockSize: nat, d: Disk, ft: FileTag, r: Disk, s: Slot, p: nat)
    requires Inv(h, blockSize, d) && Deleted(h, d, ft, r) && Abandoned(d, ft, s, p)
    ensures OnlyInProgress(r, p)
    ensures LiveUsed(r) && |r.used| == |d.used| && (forall x: nat :: x < |d.used| && !d.used[x] ==> !r.used[x])
  {
    hide InvPending, Geometry;
    InvConserved(h, blockSize, d);
    DeleteKeepsLiveUsed(h, d, ft, r);
    forall g | g in Linkers(r, p)
      ensures r.metas[g].estado != Commited
    {
      var i :| 0 <= i < |r.metas[g].blocks| && r.metas[g].blocks[i] == p;
      assert HasBlock(d, Slot(g, i)) && Slot(g, i) in d.links && d.links[Slot(g, i)] == p;
      assert !IsSealed(d, {}, Slot(g, i));
    }
  }

  lemma AbandonedIs(d: Disk, ft: FileTag, s: Slot, p: nat)
    requires Abandoned(d, ft, s, p)
    ensures ft in d.metas && 0 < p
  {
  }

  lemma AbandonedDamages(h: Block -> Digest, blockSize: nat, d: Disk, ft: FileTag, s: Slot, p: nat)
    requires 0 < blockSize && Inv(h, blockSize, d) && FindFree(d.used, 1).Some?
    requires Abandoned(d, ft, s, p) && !IsBaseFile(ft)
    ensures exists ops :: Differs(h, blockSize, d, Abs(d), [Delete(ft)] + ops)
  {
    hide WellFormed, Counted, NoLeak, ZeroIntact, InvPending, DeleteFile, MapStep, Damaged, Abs, Indexed, Abandoned;
    hide Differs, Deleted, IsBaseFile, LiveUsed, OnlyInProgress;
    InvConserved(h, blockSize, d);
    AbandonedIs(d, ft, s, p);
    var op := Delete(ft);
    DeleteIsDeleted(h, blockSize, d, ft);
    DeleteAnswer(h, d, ft);
    StepConserves(h, blockSize, d, op);
    var (r, m) := (Step(h, blockSize, d, op).0, MapStep(blockSize, Abs(d), op).0);
    AbandonedStaysIndexed(h, blockSize, d, ft, r, s, p);
    AbandonedInProgress(h, blockSize, d, ft, r, s, p);
    assert FindFree(r.used, 1).Some?;
    SharedDamages(h, blockSize, r, m, s, p);
    DamagedBefore(h, blockSize, d, Abs(d), op);
  }

  lemma DeleteCommitedDamages(h: Block -> Digest, blockSize: nat, d: Disk, ft: FileTag)
    requires 0 < blockSize && Inv(h, blockSize, d) && FindFree(d.used, 1).Some?
    requires IsCommited(d, ft) && !DeleteSafe(h, d, ft)
    ensures exists ops :: Differs(h, blockSize, d, Abs(d), [Delete(ft)] + ops)
  {
    hide InvPending, Differs, Abs, CommitedElsewhere;
    var s :| s in d.links && s.ft != ft && d.links[s] != 0 && d.links[s] in d.metas[ft].blocks
      && !CommitedElsewhere(d, ft, d.links[s]);
    AbandonedDamages(h, blockSize, d, ft, s, d.links[s]);
  }

  // ---------------------------------------------------------------- the conditions are what callers see

  /** On a disciplined disk with a free block, every TAG or DELETE that is not safe is followed by
      some script whose answers, none of them for lack of space, are not all the map's. */
  lemma UnsafeShows(h: Block -> Digest, blockSize: nat, d: Disk, op: Op)
    requires 0 < blockSize && Inv(h, blockSize, d) && FindFree(d.used, 1).Some? && !Safe(h, d, op)
    ensures exists ops :: Differs(h, blockSize, d, Abs(d), [op] + ops)
  {
    hide WellFormed, InvPending, Differs, TagSafe, DeleteSafe, Abs;
    match op
    case Tag(src, dst) => TagDamages(h, blockSize, d, src, dst);
    case Delete(ft) =>
      UnsafeDeletes(h, d, ft);
      if IsCommited(d, ft) {
        DeleteCommitedDamages(h, blockSize, d, ft);
      } else {
        DeleteInProgressDamages(h, blockSize, d, ft);
      }
    case _ =>
  }

  lemma UnsafeDeletes(h: Block -> Digest, d: Disk, ft: FileTag)
    requires !DeleteSafe(h, d, ft)
    ensures ft in d.metas && !IsBaseFile(ft)
  {
  }

  /** There is a free block before each operation. */
  ghost predicate Roomy(h: Block -> Digest, blockSize: nat, d: Disk, ops: seq<Op>)
    requires Conserved(blockSize, d) && 0 < blockSize
    decreases |ops|
  {
    ops == [] ||
    (StepConserves(h, blockSize, d, ops[0]);
     FindFree(d.used, 1).Some? && Roomy(h, blockSize, Step(h, blockSize, d, ops[0]).0, ops[1..]))
  }

  /** With a free block every operation is the map's. */
  lemma RoomyStep(h: Block -> Digest, blockSize: nat, d: Disk, op: Op)
    requires Injective(h) && 0 < blockSize && Inv(h, blockSize, d) && FindFree(d.used, 1).Some?
    ensures var (d1, reply) := Step(h, blockSize, d, op);
      reply != ErrEspInsuficiente && Abs(d1) == MapStep(blockSize, Abs(d), op).0
  {
    var q := FindFree(d.used, 1).value;
    BitmapExact(h, blockSize, d, q);
    hide InvPending, Step, MapStep, Abs, Injective;
    StepRefines(h, blockSize, d, op);
    assert !OutOfSpace(d, op) by {
      InvConserved(h, blockSize, d);
      SizesOf(blockSize, d);
      assert d.nlink[q] < 2;
    }
  }

  /** A script that is not disciplined, cut after some operation, has a continuation that shows it. */
  lemma {:induction false} UndisciplinedShows(h: Block -> Digest, blockSize: nat, d: Disk, ops: seq<Op>)
      returns (n: nat, more: seq<Op>)
    requires Injective(h) && 0 < blockSize && Inv(h, blockSize, d)
    requires Roomy(h, blockSize, d, ops) && !Disciplined(h, blockSize, d, ops)
    ensures n <= |ops| && Differs(h, blockSize, d, Abs(d), ops[..n] + more)
    decreases |ops|
  {
    hide WellFormed, Counted, NoLeak, ZeroIntact, InvPending, Step, MapStep, Safe, Abs, Injective, Differs;
    InvConserved(h, blockSize, d);
    var (d1, reply) := Step(h, blockSize, d, ops[0]);
    if !Safe(h, d, ops[0]) {
      UnsafeShows(h, blockSize, d, ops[0]);
      n := 1;
      more :| Differs(h, blockSize, d, Abs(d), [ops[0]] + more);
      assert ops[..1] == [ops[0]];
    } else {
      StepExact(h, blockSize, d, ops[0]);
      RoomyStep(h, blockSize, d, ops[0]);
      StepConserves(h, blockSize, d, ops[0]);
      n, more := UndisciplinedShows(h, blockSize, d1, ops[1..]);
      DiffersBefore(h, blockSize, d, Abs(d), ops[0], ops[1..][..n] + more);
      assert [ops[0]] + (ops[1..][..n] + more) == ops[..n + 1] + more;
      n := n + 1;
    }
  }
}
