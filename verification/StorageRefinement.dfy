/** The sharing is invisible: the store behaves like the map of `StorageSpec`. */
module StorageRefinement {
  import opened StorageModel
  import opened StorageSpec
  import opened StorageConservation
  import opened StorageInvariant
  import opened StorageDiscipline

  // ---------------------------------------------------------------- abstraction

  /** Content of block `p`; block numbers of a well-formed disk are always in range. */
  function BlockAt(content: seq<Block>, p: nat): Block {
    if p < |content| then content[p] else ""
  }

  function Contents(content: seq<Block>, blocks: seq<nat>): (r: seq<Block>)
    ensures |r| == |blocks| && forall i :: 0 <= i < |r| ==> r[i] == BlockAt(content, blocks[i])
  {
    seq(|blocks|, i requires 0 <= i < |blocks| => BlockAt(content, blocks[i]))
  }

  function FileOf(content: seq<Block>, meta: Metadata): File {
    File(meta.tamanio, Contents(content, meta.blocks), meta.estado)
  }

  function DiskView(content: seq<Block>, metas: map<FileTag, Metadata>): FileMap {
    map ft | ft in metas :: FileOf(content, metas[ft])
  }

  /** What the disk means to the callers of the Storage module. */
  function Abs(d: Disk): FileMap {
    DiskView(d.content, d.metas)
  }

  lemma ViewUpdate(content: seq<Block>, metas: map<FileTag, Metadata>, ft: FileTag, meta: Metadata)
    ensures DiskView(content, metas[ft := meta]) == DiskView(content, metas)[ft := FileOf(content, meta)]
  {
  }

  /** Contents are extensional: they depend on the content of the listed blocks only. */
  lemma SameContents(a: seq<Block>, x: seq<nat>, b: seq<Block>, y: seq<nat>)
    requires |x| == |y| && forall i :: 0 <= i < |x| ==> BlockAt(a, x[i]) == BlockAt(b, y[i])
    ensures Contents(a, x) == Contents(b, y)
  {
  }

  // ---------------------------------------------------------------- TRUNCATE

  lemma GrowOneAbs(blockSize: nat, d: Disk, ft: FileTag)
    requires Conserved(blockSize, d) && ft in d.metas
    ensures var f := Abs(d)[ft];
      Abs(GrowOne(d, ft)) == Abs(d)[ft := f.(blocks := f.blocks + [ZeroBlock(blockSize)])]
  {
    hide Geometry, LinksMatch, Counted, NoLeak, ZeroBlock;
    var b := d.metas[ft].blocks;
    ViewUpdate(d.content, d.metas, ft, d.metas[ft].(blocks := b + [0]));
    assert Contents(d.content, b + [0]) == Contents(d.content, b) + [ZeroBlock(blockSize)];
  }

  lemma {:induction false} GrowAbs(blockSize: nat, d: Disk, ft: FileTag, needed: nat)
    requires Conserved(blockSize, d) && ft in d.metas
    ensures var f := Abs(d)[ft];
      Abs(Grow(d, ft, needed)) ==
        if |f.blocks| < needed then Abs(d)[ft := f.(blocks := Resized(blockSize, f.blocks, needed))] else Abs(d)
    decreases needed - |d.metas[ft].blocks|
  {
    hide Geometry, LinksMatch, Counted, NoLeak, ZeroIntact, ZeroBlock, GrowOne;
    if |d.metas[ft].blocks| < needed {
      GrowOneConserves(blockSize, d, ft);
      GrowOneAbs(blockSize, d, ft);
      GrowAbs(blockSize, GrowOne(d, ft), ft, needed);
      var b := Abs(d)[ft].blocks;
      assert Resized(blockSize, b, needed) ==
        if |b| + 1 < needed then Resized(blockSize, b + [ZeroBlock(blockSize)], needed)
        else b + [ZeroBlock(blockSize)];
    }
  }

  lemma ShrinkOneMetas(d: Disk, ft: FileTag)
    requires WellFormed(d) && ft in d.metas && d.metas[ft].blocks != []
    ensures var (r, b) := (ShrinkOne(d, ft), d.metas[ft].blocks);
      r.index == d.index && r.metas == d.metas[ft := d.metas[ft].(blocks := b[..|b| - 1])]
  {
    assert HasBlock(d, Slot(ft, |d.metas[ft].blocks| - 1));
  }

  lemma ShrinkOneAbs(d: Disk, ft: FileTag)
    requires WellFormed(d) && ft in d.metas && d.metas[ft].blocks != []
    ensures var f := Abs(d)[ft];
      Abs(ShrinkOne(d, ft)) == Abs(d)[ft := f.(blocks := f.blocks[..|f.blocks| - 1])]
  {
    hide Geometry, LinksMatch, ShrinkOne;
    var b := d.metas[ft].blocks;
    var b' := b[..|b| - 1];
    ShrinkOneMetas(d, ft);
    ViewUpdate(d.content, d.metas, ft, d.metas[ft].(blocks := b'));
    assert Contents(d.content, b') == Contents(d.content, b)[..|b| - 1];
  }

  lemma {:induction false} ShrinkAbs(d: Disk, ft: FileTag, needed: nat)
    requires WellFormed(d) && ft in d.metas
    ensures var f := Abs(d)[ft];
      Abs(Shrink(d, ft, needed)) ==
        if needed < |f.blocks| then Abs(d)[ft := f.(blocks := f.blocks[..needed])] else Abs(d)
    decreases |d.metas[ft].blocks|
  {
    hide Geometry, LinksMatch, ShrinkOne;
    if needed < |d.metas[ft].blocks| {
      ShrinkOneAbs(d, ft);
      ShrinkAbs(ShrinkOne(d, ft), ft, needed);
      var b := Abs(d)[ft].blocks;
      assert b[..|b| - 1][..needed] == b[..needed];
    }
  }

  lemma TruncateAbs(blockSize: nat, d: Disk, ft: FileTag, size: nat)
    requires Conserved(blockSize, d) && 0 < blockSize
    ensures var r := TruncateFile(blockSize, d, ft, size);
      (Abs(r.0), r.1) == MapStep(blockSize, Abs(d), Truncate(ft, size))
  {
    hide Geometry, LinksMatch, Counted, NoLeak, ZeroIntact, ZeroBlock, Grow, Shrink, NeededBlocks;
    if ft in d.metas && d.metas[ft].estado != Commited {
      var needed := NeededBlocks(blockSize, size);
      GrowAbs(blockSize, d, ft, needed);
      var d1 := Grow(d, ft, needed);
      ShrinkAbs(d1, ft, needed);
      var d2 := Shrink(d1, ft, needed);
      ViewUpdate(d2.content, d2.metas, ft, d2.metas[ft].(tamanio := size));
      var f := Abs(d)[ft];
      var wanted := f.(blocks := Resized(blockSize, f.blocks, needed));
      assert f.blocks[..|f.blocks|] == f.blocks && Abs(d)[ft := f] == Abs(d);
      assert Abs(d2) == Abs(d)[ft := wanted];
      assert FileOf(d2.content, d2.metas[ft]) == wanted;
      var final := File(size, wanted.blocks, WorkInProgress);
      assert FileOf(d2.content, d2.metas[ft].(tamanio := size)) == final;
      assert Abs(d)[ft := wanted][ft := final] == Abs(d)[ft := final];
    }
  }

  // ---------------------------------------------------------------- WRITE

  lemma NotInFiles(d: Disk, q: nat)
    requires WellFormed(d) && LinksTo(d.links, q) == {}
    ensures forall g, i :: g in d.metas && 0 <= i < |d.metas[g].blocks| ==> d.metas[g].blocks[i] != q
  {
    forall g, i | g in d.metas && 0 <= i < |d.metas[g].blocks|
      ensures d.metas[g].blocks[i] != q
    {
      assert HasBlock(d, Slot(g, i)) && Slot(g, i) !in LinksTo(d.links, q);
    }
  }

  /** New content for a block that no other logical block uses. */
  lemma WriteBlockView(content: seq<Block>, metas: map<FileTag, Metadata>, ft: FileTag, l: nat, q: nat, data: Block)
    requires ft in metas && l < |metas[ft].blocks| && q < |content|
    requires forall g, i :: g in metas && 0 <= i < |metas[g].blocks| && (g != ft || i != l) ==> metas[g].blocks[i] != q
    ensures var meta := metas[ft].(blocks := metas[ft].blocks[l := q]);
      var f := FileOf(content, metas[ft]);
      DiskView(content[q := data], metas[ft := meta]) ==
        DiskView(content, metas)[ft := f.(blocks := f.blocks[l := data])]
  {
    var meta := metas[ft].(blocks := metas[ft].blocks[l := q]);
    var content' := content[q := data];
    assert Contents(content', meta.blocks) == Contents(content, metas[ft].blocks)[l := data];
    forall g | g in metas && g != ft
      ensures FileOf(content', metas[g]) == FileOf(content, metas[g])
    {
      SameContents(content', metas[g].blocks, content, metas[g].blocks);
    }
  }

  lemma WriteCopyAbs(d: Disk, ft: FileTag, l: nat, q: nat, data: Block)
    requires WellFormed(d) && HasBlock(d, Slot(ft, l)) && q < |d.content| && LinksTo(d.links, q) == {}
    ensures var f := Abs(d)[ft];
      Abs(Overwrite(Redirect(d, ft, l, q), q, data)) == Abs(d)[ft := f.(blocks := f.blocks[l := data])]
  {
    NotInFiles(d, q);
    hide Geometry, LinksMatch;
    WriteBlockView(d.content, d.metas, ft, l, q, data);
  }

  lemma WriteInPlaceAbs(d: Disk, ft: FileTag, l: nat, data: Block)
    requires WellFormed(d) && HasBlock(d, Slot(ft, l))
    requires LinksTo(d.links, d.metas[ft].blocks[l]) == {Slot(ft, l)}
    ensures var f := Abs(d)[ft];
      Abs(Overwrite(d, d.metas[ft].blocks[l], data)) == Abs(d)[ft := f.(blocks := f.blocks[l := data])]
  {
    var p := d.metas[ft].blocks[l];
    forall g, i | g in d.metas && 0 <= i < |d.metas[g].blocks| && (g != ft || i != l)
      ensures d.metas[g].blocks[i] != p
    {
      assert HasBlock(d, Slot(g, i)) && Slot(g, i) !in LinksTo(d.links, p);
    }
    WriteBlockView(d.content, d.metas, ft, l, p, data);
    assert d.metas[ft].blocks[l := p] == d.metas[ft].blocks;
    assert d.metas[ft := d.metas[ft]] == d.metas;
  }

  /** WRITE stops for lack of space only when it needs a copy and every block is in use. */
  ghost predicate OutOfSpace(d: Disk, op: Op) {
    && op.Write? && 0 <= op.l && HasBlock(d, Slot(op.ft, op.l))
    && d.metas[op.ft].blocks[op.l] < |d.nlink| && MustCopy(d, d.metas[op.ft].blocks[op.l])
    && forall p: nat :: 0 < p < |d.nlink| ==> d.nlink[p] >= 2
  }

  lemma NoFreeBlock(h: Block -> Digest, blockSize: nat, d: Disk)
    requires Inv(h, blockSize, d) && FindFree(d.used, 1).None?
    ensures forall p: nat :: 0 < p < |d.nlink| ==> d.nlink[p] >= 2
  {
    forall p: nat | 0 < p < |d.nlink|
      ensures d.nlink[p] >= 2
    {
      BitmapExact(h, blockSize, d, p);
    }
  }

  lemma WriteAbs(h: Block -> Digest, blockSize: nat, d: Disk, ft: FileTag, l: int, data: Block)
    requires Inv(h, blockSize, d) && 0 < blockSize
    ensures var r := WriteFile(d, ft, l, data);
      if r.1 == ErrEspInsuficiente then r.0 == d && OutOfSpace(d, Write(ft, l, data))
      else (Abs(r.0), r.1) == MapStep(blockSize, Abs(d), Write(ft, l, data))
  {
    if ft in d.metas && d.metas[ft].estado != Commited && 0 <= l < |d.metas[ft].blocks| {
      var s := Slot(ft, l);
      assert HasBlock(d, s) && s in d.links && d.links[s] == d.metas[ft].blocks[l];
      hide LinksMatch, Counted, NoLeak, IndexSound, SealedIndexed, SharedIndexed, Redirect, Overwrite;
      if MustCopy(d, d.links[s]) {
        if FindFree(d.used, 1).Some? {
          FreshBlockIsUnused(h, blockSize, d, {});
          WriteCopyAbs(d, ft, l, FindFree(d.used, 1).value, data);
        } else {
          NoFreeBlock(h, blockSize, d);
        }
      } else {
        ExclusiveNotIndexed(h, blockSize, d, s);
        WriteInPlaceAbs(d, ft, l, data);
      }
    }
  }

  // ---------------------------------------------------------------- COMMIT

  lemma ReassignAbs(d: Disk, ft: FileTag, i: nat, q: nat)
    requires WellFormed(d) && HasBlock(d, Slot(ft, i)) && q < |d.content|
    requires d.content[q] == BlockAt(d.content, d.metas[ft].blocks[i])
    ensures Abs(Reassign(d, ft, i, q)) == Abs(d)
  {
    hide Geometry, LinksMatch, Reassign;
    var b := d.metas[ft].blocks;
    ReassignedMetas(d, ft, i, q);
    ViewUpdate(d.content, d.metas, ft, d.metas[ft].(blocks := b[i := q]));
    SameContents(d.content, b[i := q], d.content, b);
  }

  lemma ReassignedMetas(d: Disk, ft: FileTag, i: nat, q: nat)
    requires WellFormed(d) && HasBlock(d, Slot(ft, i)) && q < |d.content|
    ensures Reassign(d, ft, i, q).metas == d.metas[ft := d.metas[ft].(blocks := d.metas[ft].blocks[i := q])]
  {
    hide LinksMatch;
  }

  lemma CommitOneAbs(h: Block -> Digest, blockSize: nat, d: Disk, pending: set<Slot>, ft: FileTag, i: nat)
    requires Injective(h) && InvPending(h, blockSize, d, pending) && HasBlock(d, Slot(ft, i))
    ensures Abs(CommitOne(h, d, ft, i)) == Abs(d)
  {
    var s := Slot(ft, i);
    assert s in d.links && d.links[s] == d.metas[ft].blocks[i];
    hide LinksMatch, Counted, NoLeak, SealedIndexed, SharedIndexed, Reassign, DiskView;
    var key := LogicalDigest(h, d, s);
    if key in d.index && d.index[key] != d.links[s] {
      ReassignAbs(d, ft, i, d.index[key]);
    }
  }

  lemma {:induction false} CommitFromAbs(h: Block -> Digest, blockSize: nat, d: Disk, ft: FileTag, i: nat)
    requires Injective(h) && ft in d.metas && i <= |d.metas[ft].blocks|
    requires InvPending(h, blockSize, d, PassedOver(ft, i))
    ensures Abs(CommitFrom(h, d, ft, i)) == Abs(d)
    decreases |d.metas[ft].blocks| - i
  {
    assert WellFormed(d);
    hide Geometry, LinksMatch, InvPending, CommitOne, Abs, Injective, PassedOver;
    if i < |d.metas[ft].blocks| {
      assert HasBlock(d, Slot(ft, i));
      CommitOneAbs(h, blockSize, d, PassedOver(ft, i), ft, i);
      CommitOneInv(h, blockSize, d, PassedOver(ft, i), ft, i);
      PassOneMore(ft, i);
      CommitFromAbs(h, blockSize, CommitOne(h, d, ft, i), ft, i + 1);
    }
  }

  lemma CommitAbs(h: Block -> Digest, blockSize: nat, d: Disk, ft: FileTag)
    requires Injective(h) && Inv(h, blockSize, d) && 0 < blockSize
    ensures var r := CommitFile(h, d, ft);
      (Abs(r.0), r.1) == MapStep(blockSize, Abs(d), Commit(ft))
  {
    assert WellFormed(d);
    hide Geometry, LinksMatch, InvPending, CommitFrom, Injective, Abs, SetCommited, PassedOver;
    assert ft in Abs(d) <==> ft in d.metas by { AbsKeys(d); }
    if ft in d.metas {
      NonePassed(ft);
      CommitFromAbs(h, blockSize, d, ft, 0);
      SealedAbs(CommitFrom(h, d, ft, 0), ft);
    }
  }

  lemma AbsKeys(d: Disk)
    ensures Abs(d).Keys == d.metas.Keys
  {
  }

  lemma NonePassed(ft: FileTag)
    ensures PassedOver(ft, 0) == {}
  {
  }

  lemma SealedAbs(d: Disk, ft: FileTag)
    requires WellFormed(d) && ft in d.metas
    ensures ft in Abs(d) && Abs(SetCommited(d, ft)) == Abs(d)[ft := Abs(d)[ft].(estado := Commited)]
  {
    hide Geometry, LinksMatch;
    ViewUpdate(d.content, d.metas, ft, d.metas[ft].(estado := Commited));
  }

  // ---------------------------------------------------------------- TAG, DELETE, CREATE

  lemma CreateAbs(blockSize: nat, d: Disk, ft: FileTag)
    requires WellFormed(d) && 0 < blockSize
    ensures var r := CreateFile(d, ft); (Abs(r.0), r.1) == MapStep(blockSize, Abs(d), Create(ft))
  {
    hide Geometry, LinksMatch;
    ViewUpdate(d.content, d.metas, ft, Metadata(0, [], WorkInProgress));
  }

  lemma TagOneAbs(d: Disk, dst: FileTag, p: nat)
    requires WellFormed(d) && dst in d.metas && p < |d.content|
    ensures var f := Abs(d)[dst];
      Abs(TagOne(d, dst, p)) == Abs(d)[dst := f.(blocks := f.blocks + [d.content[p]])]
  {
    hide Geometry, LinksMatch;
    var b := d.metas[dst].blocks;
    ViewUpdate(d.content, d.metas, dst, d.metas[dst].(blocks := b + [p]));
    assert Contents(d.content, b + [p]) == Contents(d.content, b) + [d.content[p]];
  }

  lemma {:induction false} TagFromAbs(d: Disk, dst: FileTag, source: seq<nat>, i: nat)
    requires WellFormed(d) && dst in d.metas && InDisk(d, source) && i <= |source|
    requires dst in Abs(d) && Abs(d)[dst].blocks == Contents(d.content, source)[..i]
    ensures var f := Abs(d)[dst];
      Abs(TagFrom(d, dst, source, i)) == Abs(d)[dst := f.(blocks := Contents(d.content, source))]
    decreases |source| - i
  {
    hide Geometry, LinksMatch, TagOne, DiskView;
    var all := Contents(d.content, source);
    if i < |source| {
      var d1 := TagOne(d, dst, source[i]);
      assert all[..i] + [all[i]] == all[..i + 1];
      TagOneAbs(d, dst, source[i]);
      TagFromAbs(d1, dst, source, i + 1);
      assert Abs(d)[dst := Abs(d1)[dst]][dst := Abs(d1)[dst].(blocks := all)] ==
        Abs(d)[dst := Abs(d1)[dst].(blocks := all)];
    } else {
      assert all[..i] == all;
      assert Abs(d)[dst := Abs(d)[dst]] == Abs(d);
    }
  }

  lemma TagCopyAbs(d: Disk, src: FileTag, dst: FileTag)
    requires WellFormed(d) && src in d.metas && dst in d.metas && d.metas[dst] == Metadata(0, [], WorkInProgress)
    ensures var source := d.metas[src];
      var d1 := SetSize(d, dst, source.tamanio);
      && InDisk(d1, source.blocks)
      && Abs(TagFrom(d1, dst, source.blocks, 0)) ==
           Abs(d)[dst := FileOf(d.content, source).(estado := WorkInProgress)]
  {
    hide LinksMatch, TagFrom;
    var source := d.metas[src];
    var d1 := SetSize(d, dst, source.tamanio);
    assert InDisk(d1, source.blocks);
    hide Geometry, InDisk;
    var empty := Metadata(source.tamanio, [], WorkInProgress);
    ViewUpdate(d.content, d.metas, dst, empty);
    assert Contents(d.content, []) == Contents(d.content, source.blocks)[..0];
    TagFromAbs(d1, dst, source.blocks, 0);
    var copy := FileOf(d.content, source).(estado := WorkInProgress);
    assert FileOf(d.content, empty).(blocks := copy.blocks) == copy;
  }

  lemma TagAbs(blockSize: nat, d: Disk, src: FileTag, dst: FileTag)
    requires WellFormed(d) && 0 < blockSize
    ensures var r := TagFile(d, src, dst); (Abs(r.0), r.1) == MapStep(blockSize, Abs(d), Tag(src, dst))
  {
    hide Geometry, LinksMatch, TagFrom;
    CreateAbs(blockSize, d, dst);
    if dst !in d.metas {
      var d1 := CreateFile(d, dst).0;
      if src in d1.metas {
        TagCopyAbs(d1, src, dst);
        var copy := FileOf(d1.content, d1.metas[src]).(estado := WorkInProgress);
        assert src == dst ==> copy == File(0, [], WorkInProgress);
        assert src != dst ==> copy == Abs(d)[src].(estado := WorkInProgress);
        assert Abs(d1)[dst := copy] == Abs(d)[dst := copy];
      }
    }
  }

  lemma DeleteAbs(h: Block -> Digest, blockSize: nat, d: Disk, ft: FileTag)
    requires Conserved(blockSize, d) && 0 < blockSize
    ensures var r := DeleteFile(h, d, ft); (Abs(r.0), r.1) == MapStep(blockSize, Abs(d), Delete(ft))
  {
    if ft in d.metas && !IsBaseFile(ft) {
      DeleteIsDeleted(h, blockSize, d, ft);
      assert Abs(DeleteFile(h, d, ft).0) == Abs(d) - {ft};
    }
  }

  // ---------------------------------------------------------------- the refinement

  /** One operation on the disk is one operation on the map, space permitting. */
  ghost predicate Refines(blockSize: nat, d: Disk, op: Op, d': Disk, reply: Reply)
    requires 0 < blockSize
  {
    if reply == ErrEspInsuficiente then OutOfSpace(d, op) && Abs(d') == Abs(d)
    else (Abs(d'), reply) == MapStep(blockSize, Abs(d), op)
  }

  lemma StepRefines(h: Block -> Digest, blockSize: nat, d: Disk, op: Op)
    requires Injective(h) && Inv(h, blockSize, d) && 0 < blockSize
    ensures var (d', reply) := Step(h, blockSize, d, op);
      Refines(blockSize, d, op, d', reply)
  {
    hide LinksMatch, Counted, NoLeak, IndexSound, SealedIndexed, SharedIndexed;
    match op {
      case Create(ft) => CreateAbs(blockSize, d, ft);
      case Truncate(ft, size) => TruncateAbs(blockSize, d, ft, size);
      case Write(ft, l, data) => WriteAbs(h, blockSize, d, ft, l, data);
      case Read(ft, l) =>
      case Commit(ft) => CommitAbs(h, blockSize, d, ft);
      case Tag(src, dst) => TagAbs(blockSize, d, src, dst);
      case Delete(ft) => DeleteAbs(h, blockSize, d, ft);
    }
  }
}
