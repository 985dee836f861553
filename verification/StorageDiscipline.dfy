/** TAG and DELETE do not always keep the deduplication invariant.  Here are the exact
    conditions, readable off the disk before the call, under which they do. */
module StorageDiscipline {
  import opened StorageModel
  import opened StorageConservation
  import opened StorageInvariant

  // ---------------------------------------------------------------- TAG

  /** Every block the copy will share is the index's block for its content. */
  ghost predicate TagSafe(h: Block -> Digest, d: Disk, src: FileTag, dst: FileTag) {
    dst in d.metas || src !in d.metas ||
    forall j :: 0 <= j < |d.metas[src].blocks| ==> Indexed(h, d, d.metas[src].blocks[j])
  }

  lemma TagOneInv(h: Block -> Digest, blockSize: nat, d: Disk, dst: FileTag, p: nat)
    requires Inv(h, blockSize, d) && dst in d.metas && !IsCommited(d, dst) && Indexed(h, d, p)
    ensures Inv(h, blockSize, TagOne(d, dst, p)) && !IsCommited(TagOne(d, dst, p), dst)
    ensures forall x: nat :: Indexed(h, TagOne(d, dst, p), x) <==> Indexed(h, d, x)
  {
    TagOneConserves(blockSize, d, dst, p);
    IndexedIsUsed(h, blockSize, d, {}, p);
    var s := Slot(dst, |d.metas[dst].blocks|);
    assert !HasBlock(d, s) && s !in d.links;
    assert WellFormed(d);
    hide InvPending, Conserved, LinksMatch;
    AppendInv(h, blockSize, d, TagOne(d, dst, p), s, p);
  }

  lemma {:induction false} TagFromInv(h: Block -> Digest, blockSize: nat, d: Disk, dst: FileTag, source: seq<nat>,
                                      i: nat)
    requires Inv(h, blockSize, d) && dst in d.metas && !IsCommited(d, dst) && i <= |source|
    requires forall j :: 0 <= j < |source| ==> Indexed(h, d, source[j])
    ensures InDisk(d, source) && Inv(h, blockSize, TagFrom(d, dst, source, i))
    decreases |source| - i
  {
    if i < |source| {
      TagOneInv(h, blockSize, d, dst, source[i]);
      TagFromInv(h, blockSize, TagOne(d, dst, source[i]), dst, source, i + 1);
    }
  }

  lemma TagOneShape(d: Disk, dst: FileTag, p: nat)
    requires WellFormed(d) && dst in d.metas && p < |d.content|
    ensures var r := TagOne(d, dst, p);
      r.content == d.content && r.index == d.index && r.nlink == d.nlink[p := d.nlink[p] + 1]
  {
    assert !HasBlock(d, Slot(dst, |d.metas[dst].blocks|));
  }

  /** TAG writes no content, leaves the index alone and only adds references. */
  lemma {:induction false} TagFromShape(d: Disk, dst: FileTag, source: seq<nat>, i: nat)
    requires WellFormed(d) && dst in d.metas && InDisk(d, source) && i <= |source|
    ensures var r := TagFrom(d, dst, source, i);
      && r.content == d.content && r.index == d.index && |r.nlink| == |d.nlink|
      && (forall p: nat :: p < |d.nlink| ==> r.nlink[p] >= d.nlink[p])
    decreases |source| - i
  {
    if i < |source| {
      TagOneShape(d, dst, source[i]);
      TagFromShape(TagOne(d, dst, source[i]), dst, source, i + 1);
    }
  }

  /** Each block of the source gains a reference. */
  lemma {:induction false} TagFromShares(d: Disk, dst: FileTag, source: seq<nat>, i: nat, j: nat)
    requires WellFormed(d) && dst in d.metas && InDisk(d, source) && i <= j < |source|
    ensures var r := TagFrom(d, dst, source, i);
      |r.nlink| == |d.nlink| && r.nlink[source[j]] > d.nlink[source[j]]
    decreases |source| - i
  {
    hide LinksMatch;
    var d1 := TagOne(d, dst, source[i]);
    TagOneShape(d, dst, source[i]);
    if i == j {
      TagFromShape(d1, dst, source, i + 1);
    } else {
      TagFromShares(d1, dst, source, i + 1, j);
    }
  }

  lemma SharedTwice(h: Block -> Digest, blockSize: nat, d: Disk, src: FileTag, j: nat)
    requires Conserved(blockSize, d) && HasBlock(d, Slot(src, j))
    ensures d.nlink[d.metas[src].blocks[j]] >= 2
  {
    var p := d.metas[src].blocks[j];
    assert Slot(src, j) in LinksTo(d.links, p);
    UnreferencedIffCount(d, p);
  }

  lemma TagExact(h: Block -> Digest, blockSize: nat, d: Disk, src: FileTag, dst: FileTag)
    requires Inv(h, blockSize, d)
    ensures Inv(h, blockSize, TagFile(d, src, dst).0) <==> TagSafe(h, d, src, dst)
  {
    CreateInv(h, blockSize, d, dst);
    if dst !in d.metas {
      var d1 := CreateFile(d, dst).0;
      if src in d1.metas {
        var d2 := SetSize(d1, dst, d1.metas[src].tamanio);
        SetSizeInv(h, blockSize, d1, dst, d1.metas[src].tamanio);
        assert forall x: nat :: Indexed(h, d2, x) <==> Indexed(h, d, x);
        assert d2.nlink == d.nlink && InDisk(d2, d1.metas[src].blocks);
        hide Geometry, LinksMatch, Counted, NoLeak, InvPending, Indexed;
        CopyExact(h, blockSize, d, d2, src, dst, d1.metas[src].blocks);
      }
    }
  }

  /** The copying loop alone. */
  lemma CopyExact(h: Block -> Digest, blockSize: nat, d: Disk, d2: Disk, src: FileTag, dst: FileTag, source: seq<nat>)
    requires Inv(h, blockSize, d) && Inv(h, blockSize, d2) && dst in d2.metas && !IsCommited(d2, dst)
    requires InDisk(d2, source)
    requires d2.nlink == d.nlink && forall x: nat :: Indexed(h, d2, x) <==> Indexed(h, d, x)
    requires if src in d.metas then source == d.metas[src].blocks else source == []
    ensures Inv(h, blockSize, TagFrom(d2, dst, source, 0)) <==>
      forall j :: 0 <= j < |source| ==> Indexed(h, d, source[j])
  {
    assert WellFormed(d) && WellFormed(d2);
    if forall j :: 0 <= j < |source| ==> Indexed(h, d, source[j]) {
      hide Geometry, LinksMatch, InvPending, Indexed;
      TagFromInv(h, blockSize, d2, dst, source, 0);
    } else {
      var j :| 0 <= j < |source| && !Indexed(h, d, source[j]);
      SharedTwice(h, blockSize, d, src, j);
      TagFromShares(d2, dst, source, 0, j);
      TagFromShape(d2, dst, source, 0);
      SharedUnindexed(h, blockSize, d2, TagFrom(d2, dst, source, 0), source[j]);
    }
  }

  /** A block shared by two logical blocks and not indexed. */
  lemma SharedUnindexed(h: Block -> Digest, blockSize: nat, d: Disk, r: Disk, p: nat)
    requires r.content == d.content && r.index == d.index && 0 < p < |r.nlink| && r.nlink[p] > 2 && !Indexed(h, d, p)
    ensures !Inv(h, blockSize, r)
  {
    assert !Indexed(h, r, p);
    hide Conserved;
  }

  /** A COMMITED source is always safe to TAG. */
  lemma CommitedSourceSafe(h: Block -> Digest, blockSize: nat, d: Disk, src: FileTag, dst: FileTag)
    requires Inv(h, blockSize, d) && IsCommited(d, src)
    ensures TagSafe(h, d, src, dst)
  {
    forall j | 0 <= j < |d.metas[src].blocks|
      ensures Indexed(h, d, d.metas[src].blocks[j])
    {
      assert HasBlock(d, Slot(src, j));
      assert IsSealed(d, {}, Slot(src, j));
    }
  }

  // ---------------------------------------------------------------- DELETE

  /** A COMMITED file may go when each non-zero block that other files keep is also kept by
      another COMMITED file; a file in progress, when no block that disappears with it has
      content that the index associates with a different block. */
  ghost predicate DeleteSafe(h: Block -> Digest, d: Disk, ft: FileTag) {
    IsBaseFile(ft) || ft !in d.metas ||
    if IsCommited(d, ft) then
      forall s :: s in d.links && s.ft != ft && d.links[s] != 0 && d.links[s] in d.metas[ft].blocks ==>
        CommitedElsewhere(d, ft, d.links[s])
    else
      forall p: nat :: p in Released(d, ft, 0) && p < |d.content| && h(d.content[p]) in d.index ==>
        Indexed(h, d, p)
  }

  ghost predicate CommitedElsewhere(d: Disk, ft: FileTag, p: nat) {
    exists t: Slot :: t.ft != ft && IsSealed(d, {}, t) && d.links[t] == p
  }

  /** The disk DELETE leaves, as a relation on the disk before. */
  ghost predicate Deleted(h: Block -> Digest, d: Disk, ft: FileTag, r: Disk) {
    && Geometry(d) && ft in d.metas
    && r.links == d.links - SlotsFrom(d, ft, 0)
    && r.metas == d.metas - {ft}
    && r.content == d.content && |r.nlink| == |d.nlink| && |r.used| == |d.used|
    && (forall p: nat :: p < |d.used| ==> (r.used[p] <==> d.used[p] && p !in Released(d, ft, 0)))
    && r.index == d.index - Digests(h, d.content, Released(d, ft, 0))
  }

  lemma DeleteIsDeleted(h: Block -> Digest, blockSize: nat, d: Disk, ft: FileTag)
    requires Conserved(blockSize, d) && ft in d.metas && !IsBaseFile(ft)
    ensures Deleted(h, d, ft, DeleteFile(h, d, ft).0)
  {
    AllLinked(d, ft);
    DeleteFromEffect(h, d, ft, 0);
  }

  /** DELETE unlinks the file's own logical blocks and no other. */
  lemma DeletedLinks(h: Block -> Digest, d: Disk, ft: FileTag, r: Disk)
    requires WellFormed(d) && Deleted(h, d, ft, r)
    ensures forall s :: s in r.links <==> s in d.links && s.ft != ft
    ensures forall s :: IsSealed(r, {}, s) <==> IsSealed(d, {}, s) && s.ft != ft
    ensures forall p: nat :: p in Released(d, ft, 0) <==> p != 0 && p in d.metas[ft].blocks && LinksTo(r.links, p) == {}
  {
    forall s
      ensures s in r.links <==> s in d.links && s.ft != ft
    {
      if s in d.links { assert HasBlock(d, s); }
    }
    assert d.metas[ft].blocks[0..] == d.metas[ft].blocks;
  }

  /** When the deletion is safe, only released blocks leave the index. */
  lemma SafeKeepsIndexed(h: Block -> Digest, blockSize: nat, d: Disk, ft: FileTag, r: Disk, p: nat)
    requires Inv(h, blockSize, d) && Deleted(h, d, ft, r) && !IsBaseFile(ft)
    requires DeleteSafe(h, d, ft) && Indexed(h, d, p) && p !in Released(d, ft, 0)
    ensures Indexed(h, r, p)
  {
    var key := h(d.content[p]);
    if x: nat :| x in Released(d, ft, 0) && x < |d.content| && h(d.content[x]) == key {
      assert Indexed(h, d, x) by {
        if IsCommited(d, ft) {
          assert d.metas[ft].blocks[0..] == d.metas[ft].blocks;
          var j :| 0 <= j < |d.metas[ft].blocks| && d.metas[ft].blocks[j] == x;
          assert HasBlock(d, Slot(ft, j)) && IsSealed(d, {}, Slot(ft, j));
        }
      }
    }
  }

  lemma DeleteKeepsLiveUsed(h: Block -> Digest, d: Disk, ft: FileTag, r: Disk)
    requires WellFormed(d) && LiveUsed(d) && Deleted(h, d, ft, r)
    ensures LiveUsed(r)
  {
    DeletedLinks(h, d, ft, r);
    forall s | s in r.links && r.links[s] < |r.used|
      ensures r.used[r.links[s]]
    {
      assert s in LinksTo(r.links, r.links[s]);
    }
  }

  lemma DeleteSafeIndexSound(h: Block -> Digest, blockSize: nat, d: Disk, ft: FileTag, r: Disk)
    requires Inv(h, blockSize, d) && Deleted(h, d, ft, r) && !IsBaseFile(ft) && DeleteSafe(h, d, ft)
    ensures IndexSound(h, r, {})
  {
    hide InvPending, DeleteSafe;
    forall k | k in r.index
      ensures k in d.index && r.index[k] == d.index[k] && r.content == d.content
      ensures d.index[k] < |d.content| && h(d.content[d.index[k]]) == k && (d.index[k] == 0 || Owned(r, {}, d.index[k]))
    {
      EntryStays(h, blockSize, d, ft, r, k);
    }
  }

  lemma EntryStays(h: Block -> Digest, blockSize: nat, d: Disk, ft: FileTag, r: Disk, k: Digest)
    requires Inv(h, blockSize, d) && Deleted(h, d, ft, r) && !IsBaseFile(ft) && DeleteSafe(h, d, ft) && k in r.index
    ensures k in d.index && d.index[k] < |d.content| && h(d.content[d.index[k]]) == k
    ensures d.index[k] == 0 || Owned(r, {}, d.index[k])
  {
    var x := d.index[k];
    assert x == 0 || Owned(d, {}, x);
    assert WellFormed(d) && h(d.content[x]) == k && x < |d.content|;
    hide InvPending, DeleteSafe, Geometry;
    if x != 0 {
      DeletedLinks(h, d, ft, r);
      var t :| IsSealed(d, {}, t) && d.links[t] == x;
      if t.ft == ft {
        assert HasBlock(d, t) && x in d.metas[ft].blocks;
        assert x !in Released(d, ft, 0);
        OwnedElsewhere(h, d, ft, r, x);
      } else {
        assert IsSealed(r, {}, t) && r.links[t] == x;
      }
    }
  }

  /** A block of the deleted COMMITED file that stays in use is owned by another COMMITED file. */
  lemma OwnedElsewhere(h: Block -> Digest, d: Disk, ft: FileTag, r: Disk, x: nat)
    requires WellFormed(d) && Deleted(h, d, ft, r) && IsCommited(d, ft) && !IsBaseFile(ft) && DeleteSafe(h, d, ft)
    requires x != 0 && x in d.metas[ft].blocks && LinksTo(r.links, x) != {}
    ensures Owned(r, {}, x)
  {
    DeletedLinks(h, d, ft, r);
    var s :| s in LinksTo(r.links, x);
    assert CommitedElsewhere(d, ft, d.links[s]);
    hide DeleteSafe, Deleted, Geometry, LinksMatch;
    var t: Slot :| t.ft != ft && IsSealed(d, {}, t) && d.links[t] == x;
    assert IsSealed(r, {}, t) && r.links[t] == x;
  }

  lemma DeleteSafeInv(h: Block -> Digest, blockSize: nat, d: Disk, ft: FileTag)
    requires Inv(h, blockSize, d) && ft in d.metas && !IsBaseFile(ft) && DeleteSafe(h, d, ft)
    ensures Inv(h, blockSize, DeleteFile(h, d, ft).0)
  {
    var r := DeleteFile(h, d, ft).0;
    DeleteConserves(h, blockSize, d, ft);
    DeleteIsDeleted(h, blockSize, d, ft);
    DeleteKeepsLiveUsed(h, d, ft, r);
    DeleteSafeIndexSound(h, blockSize, d, ft, r);
    DeleteSafeIndexed(h, blockSize, d, ft, r);
    hide Deleted, DeleteSafe, Conserved;
  }

  lemma DeleteSafeIndexed(h: Block -> Digest, blockSize: nat, d: Disk, ft: FileTag, r: Disk)
    requires Inv(h, blockSize, d) && Deleted(h, d, ft, r) && !IsBaseFile(ft) && DeleteSafe(h, d, ft)
    requires Conserved(blockSize, r)
    ensures Indexed(h, r, 0) && SealedIndexed(h, r, {}) && SharedIndexed(h, r)
  {
    DeletedLinks(h, d, ft, r);
    hide DeleteSafe, LinksMatch;
    SafeKeepsIndexed(h, blockSize, d, ft, r, 0);
    forall s | IsSealed(r, {}, s)
      ensures Indexed(h, r, r.links[s])
    {
      assert s in LinksTo(r.links, r.links[s]);
      SafeKeepsIndexed(h, blockSize, d, ft, r, r.links[s]);
    }
    forall p: nat | 0 < p < |r.nlink| && r.nlink[p] > 2
      ensures Indexed(h, r, p)
    {
      UnreferencedIffCount(r, p);
      FewerLinks(d.links, r.links, p);
      SafeKeepsIndexed(h, blockSize, d, ft, r, p);
    }
  }

  lemma FewerLinks(more: map<Slot, nat>, fewer: map<Slot, nat>, p: nat)
    requires forall s :: s in fewer ==> s in more && more[s] == fewer[s]
    ensures |LinksTo(fewer, p)| <= |LinksTo(more, p)|
  {
    var rest := LinksTo(more, p) - LinksTo(fewer, p);
    assert LinksTo(more, p) == rest + LinksTo(fewer, p);
  }

  lemma UnsafeBreaksCommited(h: Block -> Digest, blockSize: nat, d: Disk, ft: FileTag, r: Disk, s: Slot)
    requires Inv(h, blockSize, d) && Deleted(h, d, ft, r) && IsCommited(d, ft)
    requires s in d.links && s.ft != ft && d.links[s] != 0 && d.links[s] in d.metas[ft].blocks
    requires !CommitedElsewhere(d, ft, d.links[s])
    ensures !IndexSound(h, r, {})
  {
    DeletedLinks(h, d, ft, r);
    var p := d.links[s];
    var key := h(d.content[p]);
    CommitedBlockIndexed(h, blockSize, d, ft, p);
    assert s in LinksTo(r.links, p);
    forall x: nat | x in Released(d, ft, 0) && x < |d.content|
      ensures h(d.content[x]) != key
    {
      CommitedBlockIndexed(h, blockSize, d, ft, x);
    }
    assert key in r.index && r.index[key] == p;
    forall t | IsSealed(r, {}, t)
      ensures r.links[t] != p
    {
      assert IsSealed(d, {}, t) && d.links[t] == r.links[t] && t.ft != ft;
    }
  }

  lemma CommitedBlockIndexed(h: Block -> Digest, blockSize: nat, d: Disk, ft: FileTag, p: nat)
    requires Inv(h, blockSize, d) && IsCommited(d, ft) && p in d.metas[ft].blocks
    ensures Indexed(h, d, p)
  {
    var j :| 0 <= j < |d.metas[ft].blocks| && d.metas[ft].blocks[j] == p;
    assert HasBlock(d, Slot(ft, j)) && IsSealed(d, {}, Slot(ft, j));
  }

  lemma UnsafeBreaksInProgress(h: Block -> Digest, blockSize: nat, d: Disk, ft: FileTag, r: Disk, p: nat)
    requires Inv(h, blockSize, d) && Deleted(h, d, ft, r) && !IsCommited(d, ft)
    requires p in Released(d, ft, 0) && p < |d.content| && h(d.content[p]) in d.index && !Indexed(h, d, p)
    ensures !Indexed(h, r, 0) || !SealedIndexed(h, r, {})
  {
    DeletedLinks(h, d, ft, r);
    var key := h(d.content[p]);
    var q := d.index[key];
    assert key in Digests(h, d.content, Released(d, ft, 0));
    assert key !in r.index;
    assert h(d.content[q]) == key;
    if q != 0 {
      var t :| IsSealed(d, {}, t) && d.links[t] == q;
      assert IsSealed(r, {}, t) && r.links[t] == q;
    }
  }

  lemma DeleteExact(h: Block -> Digest, blockSize: nat, d: Disk, ft: FileTag)
    requires Inv(h, blockSize, d)
    ensures Inv(h, blockSize, DeleteFile(h, d, ft).0) <==> DeleteSafe(h, d, ft)
  {
    if ft in d.metas && !IsBaseFile(ft) {
      var r := DeleteFile(h, d, ft).0;
      DeleteIsDeleted(h, blockSize, d, ft);
      if DeleteSafe(h, d, ft) {
        DeleteSafeInv(h, blockSize, d, ft);
      } else if IsCommited(d, ft) {
        var s :| s in d.links && s.ft != ft && d.links[s] != 0 && d.links[s] in d.metas[ft].blocks
          && !CommitedElsewhere(d, ft, d.links[s]);
        UnsafeBreaksCommited(h, blockSize, d, ft, r, s);
      } else {
        var p: nat :| p in Released(d, ft, 0) && p < |d.content| && h(d.content[p]) in d.index && !Indexed(h, d, p);
        UnsafeBreaksInProgress(h, blockSize, d, ft, r, p);
      }
    }
  }

  // ---------------------------------------------------------------- disciplined runs

  ghost predicate Safe(h: Block -> Digest, d: Disk, op: Op) {
    match op
    case Tag(src, dst) => TagSafe(h, d, src, dst)
    case Delete(ft) => DeleteSafe(h, d, ft)
    case _ => true
  }

  /** One operation keeps the invariant if and only if it is safe. */
  lemma StepExact(h: Block -> Digest, blockSize: nat, d: Disk, op: Op)
    requires Inv(h, blockSize, d) && 0 < blockSize
    ensures Inv(h, blockSize, Step(h, blockSize, d, op).0) <==> Safe(h, d, op)
  {
    match op {
      case Create(ft) => CreateInv(h, blockSize, d, ft);
      case Truncate(ft, size) => TruncateInv(h, blockSize, d, ft, size);
      case Write(ft, l, data) => WriteInv(h, blockSize, d, ft, l, data);
      case Read(ft, l) =>
      case Commit(ft) => CommitInv(h, blockSize, d, ft);
      case Tag(src, dst) => TagExact(h, blockSize, d, src, dst);
      case Delete(ft) => DeleteExact(h, blockSize, d, ft);
    }
  }

  /** Each TAG and DELETE of the run is safe when its turn comes. */
  ghost predicate Disciplined(h: Block -> Digest, blockSize: nat, d: Disk, ops: seq<Op>)
    requires Conserved(blockSize, d) && 0 < blockSize
    decreases |ops|
  {
    ops == [] ||
    (StepConserves(h, blockSize, d, ops[0]);
     Safe(h, d, ops[0]) && Disciplined(h, blockSize, Step(h, blockSize, d, ops[0]).0, ops[1..]))
  }

  lemma {:induction false} DisciplinedRunInv(h: Block -> Digest, blockSize: nat, d: Disk, ops: seq<Op>)
    requires Inv(h, blockSize, d) && 0 < blockSize && Disciplined(h, blockSize, d, ops)
    ensures Inv(h, blockSize, Run(h, blockSize, d, ops).0)
    decreases |ops|
  {
    if ops != [] {
      StepExact(h, blockSize, d, ops[0]);
      DisciplinedRunInv(h, blockSize, Step(h, blockSize, d, ops[0]).0, ops[1..]);
    }
  }
}
