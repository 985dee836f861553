/** What goes wrong when a TAG or a DELETE is not safe: two runs from a fresh start, on a disk of
    eight blocks of one character, after which a file that nobody wrote to reads differently. */
module StorageCounterexamples {
  import opened StorageModel
  import opened StorageConservation
  import opened StorageInvariant
  import opened StorageDiscipline

  const Base := FileTag("initial_file", "BASE")
  const A := FileTag("a", "t")
  const B := FileTag("b", "t")
  const C := FileTag("c", "t")
  const D := FileTag("d", "t")
  const E := FileTag("e", "t")

  function Plain(b: Block): Digest { b }

  function Wip(tamanio: int, blocks: seq<nat>): Metadata {
    Metadata(tamanio, blocks, WorkInProgress)
  }

  // ---------------------------------------------------------------- runs

  /** The operations lead from disk d to disk r. */
  ghost predicate Leads(d: Disk, ops: seq<Op>, r: Disk) {
    Conserved(1, d) && Conserved(1, r) && Run(Plain, 1, d, ops).0 == r
  }

  lemma LeadsOne(d: Disk, op: Op, r: Disk)
    requires Conserved(1, d) && Step(Plain, 1, d, op).0 == r
    ensures Leads(d, [op], r)
  {
    hide Geometry, LinksMatch, Counted, NoLeak, ZeroIntact, Step;
    StepConserves(Plain, 1, d, op);
    assert [op][1..] == [] && Run(Plain, 1, r, []).0 == r;
    assert Run(Plain, 1, d, [op]).0 == r;
  }

  lemma {:induction false} LeadsTwice(d: Disk, first: seq<Op>, q: Disk, second: seq<Op>, r: Disk)
    requires Leads(d, first, q) && Leads(q, second, r)
    ensures Leads(d, first + second, r)
    decreases |first|
  {
    hide Geometry, LinksMatch, Counted, NoLeak, ZeroIntact, Step;
    if first == [] {
      assert first + second == second;
    } else {
      var both := first + second;
      assert both[0] == first[0] && both[1..] == first[1..] + second;
      StepConserves(Plain, 1, d, first[0]);
      LeadsTwice(Step(Plain, 1, d, first[0]).0, first[1..], q, second, r);
    }
  }

  lemma SameDisk(a: Disk, b: Disk)
    requires a.content == b.content && a.used == b.used && a.nlink == b.nlink
    requires a.links == b.links && a.index == b.index && a.metas == b.metas
    ensures a == b
  {
  }

  // ---------------------------------------------------------------- operations on files of one block

  /** A new file of one block, in the fresh physical block `q`. */
  function WithFile(d: Disk, ft: FileTag, q: nat, data: Block): Disk
    requires q < |d.content| == |d.used| == |d.nlink|
  {
    d.(content := d.content[q := data], used := d.used[q := true], nlink := d.nlink[q := d.nlink[q] + 1],
       links := d.links[Slot(ft, 0) := q], metas := d.metas[ft := Wip(1, [q])])
  }

  function FileOps(ft: FileTag, data: Block): seq<Op> {
    [Create(ft), Truncate(ft, 1), Write(ft, 0, data)]
  }

  lemma NewFile(d: Disk, ft: FileTag, q: nat, data: Block)
    requires Conserved(1, d) && ft !in d.metas && FindFree(d.used, 1) == Some(q) && q < |d.content|
    ensures |d.content| == |d.used| == |d.nlink| && Leads(d, FileOps(ft, data), WithFile(d, ft, q, data))
  {
    SizesMatch(d);
    hide Conserved, Leads, FindFree, FileOps;
    var a := d.(metas := d.metas[ft := Wip(0, [])]);
    var b := WithZero(a, ft);
    EmptyFile(d, ft);
    NewBlock(a, ft);
    LeadsTwice(d, [Create(ft)], a, [Truncate(ft, 1)], b);
    assert [Create(ft)] + [Truncate(ft, 1)] == [Create(ft), Truncate(ft, 1)];
    FirstWrite(b, ft, q, data);
    NewFileEnd(d, ft, q, data);
    LeadsTwice(d, [Create(ft), Truncate(ft, 1)], b, [Write(ft, 0, data)], WithFile(d, ft, q, data));
  }

  lemma NewFileEnd(d: Disk, ft: FileTag, q: nat, data: Block)
    requires 0 < q < |d.content| == |d.used| == |d.nlink|
    ensures Written(WithZero(d.(metas := d.metas[ft := Wip(0, [])]), ft), ft, q, data) == WithFile(d, ft, q, data)
    ensures [Create(ft), Truncate(ft, 1)] + [Write(ft, 0, data)] == FileOps(ft, data)
  {
    SameDisk(Written(WithZero(d.(metas := d.metas[ft := Wip(0, [])]), ft), ft, q, data), WithFile(d, ft, q, data));
  }

  lemma SizesMatch(d: Disk)
    requires Conserved(1, d)
    ensures 0 < |d.content| == |d.used| == |d.nlink|
  {
  }

  lemma LedConserved(d: Disk, ops: seq<Op>, r: Disk)
    requires Leads(d, ops, r)
    ensures Conserved(1, d) && Conserved(1, r)
  {
  }

  lemma EmptyFile(d: Disk, ft: FileTag)
    requires Conserved(1, d) && ft !in d.metas
    ensures var a := d.(metas := d.metas[ft := Wip(0, [])]); Conserved(1, a) && Leads(d, [Create(ft)], a)
  {
    var a := d.(metas := d.metas[ft := Wip(0, [])]);
    LeadsOne(d, Create(ft), a);
    LedConserved(d, [Create(ft)], a);
  }

  function WithZero(d: Disk, ft: FileTag): Disk
    requires 0 < |d.nlink|
  {
    d.(nlink := d.nlink[0 := d.nlink[0] + 1], links := d.links[Slot(ft, 0) := 0], metas := d.metas[ft := Wip(1, [0])])
  }

  lemma NewBlock(d: Disk, ft: FileTag)
    requires Conserved(1, d) && ft in d.metas && d.metas[ft] == Wip(0, [])
    ensures 0 < |d.nlink| && Conserved(1, WithZero(d, ft)) && Leads(d, [Truncate(ft, 1)], WithZero(d, ft))
  {
    hide Geometry, LinksMatch, Counted, NoLeak, ZeroIntact, Leads, WithZero, TruncateFile;
    SizesMatch(d);
    NoLink(d, ft);
    NewBlockShape(d, ft);
    LeadsOne(d, Truncate(ft, 1), WithZero(d, ft));
    LedConserved(d, [Truncate(ft, 1)], WithZero(d, ft));
  }

  lemma NewBlockShape(d: Disk, ft: FileTag)
    requires WellFormed(d) && ft in d.metas && d.metas[ft] == Wip(0, []) && Slot(ft, 0) !in d.links && 0 < |d.nlink|
    ensures TruncateFile(1, d, ft, 1).0 == WithZero(d, ft)
  {
    hide Geometry, LinksMatch;
    assert [] + [0] == [0];
    var g := GrowOne(d, ft);
    assert g.metas[ft].blocks == [0];
    assert |g.metas[ft].blocks| == 1;
    assert Grow(g, ft, 1) == g;
    assert Grow(d, ft, 1) == g;
    assert Shrink(g, ft, 1) == g;
    SameDisk(SetSize(g, ft, 1), WithZero(d, ft));
  }

  function Written(d: Disk, ft: FileTag, q: nat, data: Block): Disk
    requires 0 < q < |d.content| == |d.used| == |d.nlink|
  {
    d.(content := d.content[q := data], used := d.used[q := true],
       nlink := d.nlink[0 := d.nlink[0] - 1][q := d.nlink[q] + 1], links := d.links[Slot(ft, 0) := q],
       metas := d.metas[ft := Wip(1, [q])])
  }

  lemma FirstWrite(d: Disk, ft: FileTag, q: nat, data: Block)
    requires Conserved(1, d) && ft in d.metas && d.metas[ft] == Wip(1, [0])
    requires FindFree(d.used, 1) == Some(q) && q < |d.content|
    ensures |d.content| == |d.used| == |d.nlink| && Leads(d, [Write(ft, 0, data)], Written(d, ft, q, data))
  {
    hide Geometry, LinksMatch, Counted, NoLeak, ZeroIntact, Written, WriteFile;
    SizesMatch(d);
    LinkOf(d, ft, 0);
    FirstWriteShape(d, ft, q, data);
    LeadsOne(d, Write(ft, 0, data), Written(d, ft, q, data));
  }

  lemma FirstWriteShape(d: Disk, ft: FileTag, q: nat, data: Block)
    requires WellFormed(d) && ft in d.metas && d.metas[ft] == Wip(1, [0]) && |d.content| == |d.used| == |d.nlink|
    requires FindFree(d.used, 1) == Some(q) && q < |d.content|
    requires Slot(ft, 0) in d.links && d.links[Slot(ft, 0)] == 0
    ensures WriteFile(d, ft, 0, data).0 == Written(d, ft, q, data)
  {
    hide Geometry, LinksMatch, FindFree;
    var s := Slot(ft, 0);
    assert [0][0 := q] == [q];
    assert (d.links - {s})[s := q] == d.links[s := q];
    SameDisk(Overwrite(Redirect(d, ft, 0, q), q, data), Written(d, ft, q, data));
  }

  /** COMMIT of content the index does not have. */
  lemma CommitNew(d: Disk, ft: FileTag, p: nat)
    requires Conserved(1, d) && ft in d.metas && d.metas[ft] == Wip(1, [p])
    requires p < |d.content| && d.content[p] !in d.index
    ensures Leads(d, [Commit(ft)],
      d.(index := d.index[d.content[p] := p], metas := d.metas[ft := Metadata(1, [p], Commited)]))
  {
    hide Geometry, LinksMatch, Counted, NoLeak, ZeroIntact;
    LinkOf(d, ft, p);
    var d1 := d.(index := d.index[d.content[p] := p]);
    assert CommitOne(Plain, d, ft, 0) == d1 && CommitFrom(Plain, d, ft, 0) == d1;
    LeadsOne(d, Commit(ft), d1.(metas := d.metas[ft := Metadata(1, [p], Commited)]));
  }

  /** COMMIT of content the index has in block `q`: the old block is freed. */
  function Moved(d: Disk, ft: FileTag, p: nat, q: nat): Disk
    requires p < |d.nlink| && q < |d.nlink| && p < |d.used|
  {
    d.(used := d.used[p := false], nlink := d.nlink[p := d.nlink[p] - 1][q := d.nlink[q] + 1],
       links := d.links[Slot(ft, 0) := q], metas := d.metas[ft := Metadata(1, [q], Commited)])
  }

  lemma CommitMoved(d: Disk, ft: FileTag, p: nat, q: nat)
    requires Conserved(1, d) && ft in d.metas && d.metas[ft] == Wip(1, [p])
    requires 0 < p < |d.content| && d.content[p] in d.index && d.index[d.content[p]] == q != p
    ensures q < |d.content| == |d.nlink| == |d.used| && Leads(d, [Commit(ft)], Moved(d, ft, p, q))
  {
    hide Geometry, LinksMatch, Counted, NoLeak, ZeroIntact, Moved, CommitFile;
    SizesMatch(d);
    LinkOf(d, ft, p);
    IndexOf(d, d.content[p]);
    CommitMovedShape(d, ft, p, q);
    LeadsOne(d, Commit(ft), Moved(d, ft, p, q));
  }

  lemma CommitMovedShape(d: Disk, ft: FileTag, p: nat, q: nat)
    requires WellFormed(d) && ft in d.metas && d.metas[ft] == Wip(1, [p]) && |d.content| == |d.nlink| == |d.used|
    requires 0 < p < |d.content| && q < |d.content| && d.content[p] in d.index && d.index[d.content[p]] == q != p
    requires Slot(ft, 0) in d.links && d.links[Slot(ft, 0)] == p
    ensures CommitFile(Plain, d, ft).0 == Moved(d, ft, p, q)
  {
    hide Geometry, LinksMatch, Reassign, Moved;
    ReassignedIs(d, ft, p, q);
    var d1 := Reassign(d, ft, 0, q);
    assert CommitOne(Plain, d, ft, 0) == d1;
    hide CommitOne;
    assert CommitFrom(Plain, d1, ft, 1) == d1;
    assert CommitFrom(Plain, d, ft, 0) == d1;
  }

  lemma ReassignedIs(d: Disk, ft: FileTag, p: nat, q: nat)
    requires WellFormed(d) && ft in d.metas && d.metas[ft] == Wip(1, [p]) && |d.content| == |d.nlink| == |d.used|
    requires 0 < p < |d.content| && q < |d.content| && p != q
    requires Slot(ft, 0) in d.links && d.links[Slot(ft, 0)] == p
    ensures SetCommited(Reassign(d, ft, 0, q), ft) == Moved(d, ft, p, q)
  {
    hide Geometry, LinksMatch;
    var s := Slot(ft, 0);
    assert [p][0 := q] == [q];
    assert (d.links - {s})[s := q] == d.links[s := q];
    SameDisk(SetCommited(Reassign(d, ft, 0, q), ft), Moved(d, ft, p, q));
  }

  /** The hard link of a file of one block. */
  lemma LinkOf(d: Disk, ft: FileTag, p: nat)
    requires WellFormed(d) && ft in d.metas && d.metas[ft].blocks == [p]
    ensures Slot(ft, 0) in d.links && d.links[Slot(ft, 0)] == p && p < |d.content|
  {
    assert HasBlock(d, Slot(ft, 0));
  }

  lemma IndexOf(d: Disk, key: Digest)
    requires WellFormed(d) && key in d.index
    ensures d.index[key] < |d.content|
  {
  }

  /** A file that does not exist has no hard link. */
  lemma NoLink(d: Disk, ft: FileTag)
    requires WellFormed(d) && (ft in d.metas ==> d.metas[ft].blocks == [])
    ensures Slot(ft, 0) !in d.links
  {
    assert !HasBlock(d, Slot(ft, 0));
  }

  function Tagged(d: Disk, dst: FileTag, p: nat): Disk
    requires p < |d.nlink|
  {
    d.(nlink := d.nlink[p := d.nlink[p] + 1], links := d.links[Slot(dst, 0) := p], metas := d.metas[dst := Wip(1, [p])])
  }

  lemma TagOneBlock(d: Disk, src: FileTag, dst: FileTag, p: nat)
    requires Conserved(1, d) && src in d.metas && d.metas[src].tamanio == 1 && d.metas[src].blocks == [p]
    requires p < |d.content| && dst !in d.metas
    ensures p < |d.nlink| && Leads(d, [Tag(src, dst)], Tagged(d, dst, p))
  {
    hide Geometry, LinksMatch, Counted, NoLeak, ZeroIntact, Tagged, TagFile;
    SizesMatch(d);
    NoLink(d, dst);
    TagShape(d, src, dst, p);
    LeadsOne(d, Tag(src, dst), Tagged(d, dst, p));
  }

  lemma TagShape(d: Disk, src: FileTag, dst: FileTag, p: nat)
    requires WellFormed(d) && src in d.metas && d.metas[src].tamanio == 1 && d.metas[src].blocks == [p]
    requires p < |d.content| == |d.nlink| && dst !in d.metas && Slot(dst, 0) !in d.links
    ensures TagFile(d, src, dst).0 == Tagged(d, dst, p)
  {
    hide Geometry, LinksMatch;
    var d2 := SetSize(CreateFile(d, dst).0, dst, 1);
    assert d2.metas == d.metas[dst := Wip(1, [])];
    assert TagFrom(d2, dst, [p], 0) == TagOne(d2, dst, p);
    assert [] + [p] == [p];
    SameDisk(TagOne(d2, dst, p), Tagged(d, dst, p));
  }

  /** DELETE of a file whose one block nobody shares. */
  function WithoutFile(d: Disk, ft: FileTag, p: nat): Disk
    requires p < |d.content| && p < |d.nlink| && p < |d.used|
  {
    d.(used := d.used[p := false], nlink := d.nlink[p := d.nlink[p] - 1], links := d.links - {Slot(ft, 0)},
       index := d.index - {d.content[p]}, metas := d.metas - {ft})
  }

  lemma DeleteOneBlock(d: Disk, ft: FileTag, p: nat)
    requires Conserved(1, d) && ft in d.metas && d.metas[ft] == Wip(1, [p]) && !IsBaseFile(ft)
    requires 0 < p < |d.content| && p < |d.nlink| && d.nlink[p] == 2
    ensures p < |d.used| && Leads(d, [Delete(ft)], WithoutFile(d, ft, p))
  {
    hide Geometry, LinksMatch, Counted, NoLeak, ZeroIntact;
    SizesMatch(d);
    LinkOf(d, ft, p);
    AllLinked(d, ft);
    var d1 := DeleteOne(Plain, d, ft, 0);
    assert DeleteFrom(Plain, d, ft, 0) == d1;
    SameDisk(DeleteFile(Plain, d, ft).0, WithoutFile(d, ft, p));
    LeadsOne(d, Delete(ft), WithoutFile(d, ft, p));
  }

  // ---------------------------------------------------------------- two files with the same content

  /** Eight blocks after a fresh start. */
  function Fresh(): Disk {
    Disk(["0", "0", "0", "0", "0", "0", "0", "0"],
         [true, false, false, false, false, false, false, false],
         [2, 1, 1, 1, 1, 1, 1, 1],
         map[Slot(Base, 0) := 0], map["0" := 0], map[Base := Wip(0, [0])])
  }

  lemma FreshIsFresh()
    ensures FreshDisk(Plain, 1, 8) == Fresh() && Inv(Plain, 1, Fresh())
  {
    var d := FreshDisk(Plain, 1, 8);
    FreshInv(Plain, 1, 8);
    assert ZeroBlock(1) == "0";
    SameDisk(d, Fresh());
  }

  /** A COMMITED file A and a file B in progress with the same content, in blocks 1 and 2. */
  function Duplicate(): Disk {
    Disk(["0", "x", "x", "0", "0", "0", "0", "0"],
         [true, true, true, false, false, false, false, false],
         [2, 2, 2, 1, 1, 1, 1, 1],
         map[Slot(Base, 0) := 0, Slot(A, 0) := 1, Slot(B, 0) := 2],
         map["0" := 0, "x" := 1],
         map[Base := Wip(0, [0]), A := Metadata(1, [1], Commited), B := Wip(1, [2])])
  }

  function DuplicateOps(): seq<Op> {
    FileOps(A, "x") + [Commit(A)] + FileOps(B, "x")
  }

  /** Only A so far. */
  function OnlyA(): Disk {
    Disk(["0", "x", "0", "0", "0", "0", "0", "0"],
         [true, true, false, false, false, false, false, false],
         [2, 2, 1, 1, 1, 1, 1, 1],
         map[Slot(Base, 0) := 0, Slot(A, 0) := 1],
         map["0" := 0],
         map[Base := Wip(0, [0]), A := Wip(1, [1])])
  }

  function CommitedA(): Disk {
    OnlyA().(index := map["0" := 0, "x" := 1], metas := map[Base := Wip(0, [0]), A := Metadata(1, [1], Commited)])
  }

  lemma MakesA()
    ensures Leads(Fresh(), FileOps(A, "x"), OnlyA())
  {
    FreshIsFresh();
    hide Leads, Conserved;
    assert FindFree(Fresh().used, 1) == Some(1);
    NewFile(Fresh(), A, 1, "x");
    SameDisk(WithFile(Fresh(), A, 1, "x"), OnlyA());
  }

  lemma CommitsA()
    requires Conserved(1, OnlyA())
    ensures Leads(OnlyA(), [Commit(A)], CommitedA())
  {
    hide Leads, Conserved;
    CommitNew(OnlyA(), A, 1);
    var r := OnlyA().(index := OnlyA().index["x" := 1], metas := OnlyA().metas[A := Metadata(1, [1], Commited)]);
    SameDisk(r, CommitedA());
  }

  lemma MakesB()
    requires Conserved(1, CommitedA())
    ensures Leads(CommitedA(), FileOps(B, "x"), Duplicate())
  {
    hide Leads, Conserved;
    assert FindFree(CommitedA().used, 2) == Some(2);
    NewFile(CommitedA(), B, 2, "x");
    SameDisk(WithFile(CommitedA(), B, 2, "x"), Duplicate());
  }

  lemma ReachesDuplicate()
    ensures Leads(Fresh(), DuplicateOps(), Duplicate())
  {
    hide Leads, FileOps, Fresh, OnlyA, CommitedA, Duplicate;
    MakesA();
    LedConserved(Fresh(), FileOps(A, "x"), OnlyA());
    CommitsA();
    LedConserved(OnlyA(), [Commit(A)], CommitedA());
    MakesB();
    LeadsTwice(Fresh(), FileOps(A, "x"), OnlyA(), [Commit(A)], CommitedA());
    LeadsTwice(Fresh(), FileOps(A, "x") + [Commit(A)], CommitedA(), FileOps(B, "x"), Duplicate());
  }

  /** The invariant holds there; TAG and DELETE of B would both break it. */
  lemma DuplicateUnsafe()
    ensures Inv(Plain, 1, Duplicate())
    ensures !TagSafe(Plain, Duplicate(), B, C) && !DeleteSafe(Plain, Duplicate(), B)
  {
    hide Leads, Conserved, InvPending, Duplicate, DuplicateOps, TagSafe, DeleteSafe;
    ReachesDuplicate();
    LedConserved(Fresh(), DuplicateOps(), Duplicate());
    DuplicateInv();
    DuplicateTagUnsafe();
    DuplicateDeleteUnsafe();
  }

  lemma DuplicateInv()
    requires Conserved(1, Duplicate())
    ensures Inv(Plain, 1, Duplicate())
  {
    hide Conserved;
    var d := Duplicate();
    assert IsSealed(d, {}, Slot(A, 0)) && d.links[Slot(A, 0)] == 1;
  }

  lemma DuplicateTagUnsafe()
    ensures !TagSafe(Plain, Duplicate(), B, C)
  {
    assert !Indexed(Plain, Duplicate(), Duplicate().metas[B].blocks[0]);
  }

  lemma DuplicateDeleteUnsafe()
    ensures !DeleteSafe(Plain, Duplicate(), B)
  {
    OnlyBReleased();
    hide Released;
    assert !Indexed(Plain, Duplicate(), 2);
  }

  lemma OnlyBReleased()
    ensures 2 in Released(Duplicate(), B, 0)
  {
    var d := Duplicate();
    assert d.links - SlotsFrom(d, B, 0) == map[Slot(Base, 0) := 0, Slot(A, 0) := 1] by {
      assert Slot(B, 0) in SlotsFrom(d, B, 0);
    }
    assert 2 in d.metas[B].blocks[0..];
  }

  // ---------------------------------------------------------------- an unsafe TAG

  function TagOps(): seq<Op> {
    [Tag(B, C)] + [Commit(C)] + FileOps(E, "y")
  }

  /** C is committed to block 1 and block 2, still B's, is free and then taken for E. */
  function AfterTag(): Disk {
    WithFile(Moved(Tagged(Duplicate(), C, 2), C, 2, 1), E, 2, "y")
  }

  lemma TagRun()
    requires Conserved(1, Duplicate())
    ensures Leads(Duplicate(), TagOps(), AfterTag())
  {
    hide Leads, Conserved, FileOps;
    var a := Tagged(Duplicate(), C, 2);
    TagOneBlock(Duplicate(), B, C, 2);
    LedConserved(Duplicate(), [Tag(B, C)], a);
    CommitMoved(a, C, 2, 1);
    var b := Moved(a, C, 2, 1);
    LeadsTwice(Duplicate(), [Tag(B, C)], a, [Commit(C)], b);
    LedConserved(a, [Commit(C)], b);
    assert FindFree(b.used, 1) == Some(2) by { assert b.used[1] && !b.used[2] && FindFree(b.used, 2) == Some(2); }
    NewFile(b, E, 2, "y");
    LeadsTwice(Duplicate(), [Tag(B, C)] + [Commit(C)], b, FileOps(E, "y"), AfterTag());
  }

  /** TAG of the file in progress, COMMIT of the copy, then a write to a new file: B, which
      nobody wrote to, changes from "x" to "y". */
  lemma UnsafeTagLosesData()
    ensures FreshDisk(Plain, 1, 8) == Fresh()
    ensures Leads(Fresh(), DuplicateOps(), Duplicate()) && ReadFile(Duplicate(), B, 0) == Contenido("x")
    ensures Leads(Fresh(), DuplicateOps() + TagOps(), AfterTag()) && ReadFile(AfterTag(), B, 0) == Contenido("y")
  {
    hide Geometry, LinksMatch, Counted, NoLeak, ZeroIntact, Leads, TagOps, DuplicateOps, Duplicate, AfterTag, ReadFile;
    ReachesDuplicate();
    LedConserved(Fresh(), DuplicateOps(), Duplicate());
    FreshIsFresh();
    TagRun();
    LeadsTwice(Fresh(), DuplicateOps(), Duplicate(), TagOps(), AfterTag());
    LedConserved(Duplicate(), TagOps(), AfterTag());
    TagReads();
  }

  lemma TagReads()
    requires WellFormed(Duplicate()) && WellFormed(AfterTag())
    ensures ReadFile(Duplicate(), B, 0) == Contenido("x") && ReadFile(AfterTag(), B, 0) == Contenido("y")
  {
    hide Geometry, LinksMatch;
    assert AfterTag().metas[B] == Wip(1, [2]) && AfterTag().content[2] == "y";
  }

  // ---------------------------------------------------------------- an unsafe DELETE

  function AfterDelete(): Disk {
    WithoutFile(Duplicate(), B, 2)
  }

  /** Deleting B takes the index entry of A's block with it, */
  lemma UnsafeDeleteLosesIndex()
    ensures Leads(Fresh(), DuplicateOps() + [Delete(B)], AfterDelete())
    ensures var d := AfterDelete();
      && "x" !in d.index && IsCommited(d, A) && Slot(A, 0) in d.links && d.links[Slot(A, 0)] == 1 && d.content[1] == "x"
      && !Inv(Plain, 1, d)
  {
    hide Conserved, Leads, DuplicateOps, InvPending, IsCommited;
    ReachesDuplicate();
    LedConserved(Fresh(), DuplicateOps(), Duplicate());
    assert Duplicate().metas[B] == Wip(1, [2]) && !IsBaseFile(B);
    DeleteOneBlock(Duplicate(), B, 2);
    LeadsTwice(Fresh(), DuplicateOps(), Duplicate(), [Delete(B)], AfterDelete());
    IndexLost();
  }

  lemma IndexLost()
    ensures var d := AfterDelete();
      && "x" !in d.index && IsCommited(d, A) && Slot(A, 0) in d.links && d.links[Slot(A, 0)] == 1 && d.content[1] == "x"
      && !Inv(Plain, 1, d)
  {
    hide Conserved;
    var d := AfterDelete();
    assert Slot(A, 0) in d.links && d.links[Slot(A, 0)] == 1;
    assert IsSealed(d, {}, Slot(A, 0));
    assert !Indexed(Plain, d, 1);
  }

  function TwiceOps(): seq<Op> {
    FileOps(C, "x") + [Commit(C)]
  }

  function AfterTwice(): Disk {
    var d := WithFile(AfterDelete(), C, 2, "x");
    d.(index := d.index["x" := 2], metas := d.metas[C := Metadata(1, [2], Commited)])
  }

  lemma CommitsTwice()
    requires Conserved(1, AfterDelete())
    ensures Leads(AfterDelete(), TwiceOps(), AfterTwice())
  {
    hide Leads, Conserved, FileOps;
    var d := AfterDelete();
    assert FindFree(d.used, 1) == Some(2) by { assert d.used[1] && !d.used[2] && FindFree(d.used, 2) == Some(2); }
    NewFile(d, C, 2, "x");
    var a := WithFile(d, C, 2, "x");
    LedConserved(d, FileOps(C, "x"), a);
    CommitNew(a, C, 2);
    LeadsTwice(d, FileOps(C, "x"), a, [Commit(C)], AfterTwice());
  }

  function LossOps(): seq<Op> {
    [Tag(A, D)] + [Commit(D)] + FileOps(E, "y")
  }

  function AfterLoss(): Disk {
    WithFile(Moved(Tagged(AfterTwice(), D, 1), D, 1, 2), E, 1, "y")
  }

  /** Block 1 is free although A is still linked to it. */
  lemma LossFacts()
    ensures var d := AfterTwice();
      && A in d.metas && d.metas[A].tamanio == 1 && d.metas[A].blocks == [1] && D !in d.metas
      && |d.content| == |d.nlink| == |d.used| == 8
      && d.content[1] in d.index && d.index[d.content[1]] == 2
      && var b := Moved(Tagged(d, D, 1), D, 1, 2); E !in b.metas && FindFree(b.used, 1) == Some(1)
  {
  }

  lemma LossRun()
    requires Conserved(1, AfterTwice())
    ensures Leads(AfterTwice(), LossOps(), AfterLoss())
  {
    LossFacts();
    hide Leads, Conserved, FileOps, AfterTwice;
    var d := AfterTwice();
    var a := Tagged(d, D, 1);
    TagOneBlock(d, A, D, 1);
    LedConserved(d, [Tag(A, D)], a);
    CommitMoved(a, D, 1, 2);
    var b := Moved(a, D, 1, 2);
    LeadsTwice(d, [Tag(A, D)], a, [Commit(D)], b);
    LedConserved(a, [Commit(D)], b);
    NewFile(b, E, 1, "y");
    LeadsTwice(d, [Tag(A, D)] + [Commit(D)], b, FileOps(E, "y"), AfterLoss());
  }

  /** so that its content is committed a second time, in another block; a copy of A committed then
      frees A's block, and a write to a new file changes A, which is COMMITED. */
  lemma UnsafeDeleteLosesData()
    ensures Leads(Fresh(), DuplicateOps() + [Delete(B)] + TwiceOps(), AfterTwice())
    ensures var d := AfterTwice();
      && IsCommited(d, A) && IsCommited(d, C) && d.metas[A].blocks == [1] && d.metas[C].blocks == [2]
      && ReadFile(d, A, 0) == ReadFile(d, C, 0) == Contenido("x")
    ensures Leads(Fresh(), DuplicateOps() + [Delete(B)] + TwiceOps() + LossOps(), AfterLoss())
    ensures IsCommited(AfterLoss(), A) && ReadFile(AfterLoss(), A, 0) == Contenido("y")
  {
    UnsafeDeleteLosesIndex();
    hide Geometry, LinksMatch, Counted, NoLeak, ZeroIntact, Leads, DuplicateOps, TwiceOps, LossOps, InvPending;
    LedConserved(Fresh(), DuplicateOps() + [Delete(B)], AfterDelete());
    CommitsTwice();
    LedConserved(AfterDelete(), TwiceOps(), AfterTwice());
    LossRun();
    LedConserved(AfterTwice(), LossOps(), AfterLoss());
    LeadsTwice(Fresh(), DuplicateOps() + [Delete(B)], AfterDelete(), TwiceOps(), AfterTwice());
    LeadsTwice(Fresh(), DuplicateOps() + [Delete(B)] + TwiceOps(), AfterTwice(), LossOps(), AfterLoss());
  }
}
