/** The store's deduplication invariant, operation by operation.  CREATE, TRUNCATE, WRITE,
    READ and COMMIT always keep it; TAG and DELETE keep it exactly when the conditions
    `TagSafe` and `DeleteSafe` hold beforehand. */
module StorageInvariant {
  import opened StorageModel
  import opened StorageConservation

  ghost predicate Injective(h: Block -> Digest) {
    forall a, b :: h(a) == h(b) ==> a == b
  }

  ghost predicate IsCommited(d: Disk, ft: FileTag) {
    ft in d.metas && d.metas[ft].estado == Commited
  }

  /** A logical block that COMMIT has dealt with: its file is COMMITED, or a COMMIT under way
      has passed over it. */
  ghost predicate IsSealed(d: Disk, pending: set<Slot>, s: Slot) {
    s in d.links && (IsCommited(d, s.ft) || s in pending)
  }

  /** `p` is the block the index gives for its own content. */
  ghost predicate Indexed(h: Block -> Digest, d: Disk, p: nat) {
    p < |d.content| && h(d.content[p]) in d.index && d.index[h(d.content[p])] == p
  }

  ghost predicate Owned(d: Disk, pending: set<Slot>, p: nat) {
    exists s :: IsSealed(d, pending, s) && d.links[s] == p
  }

  ghost predicate LiveUsed(d: Disk) {
    forall s :: s in d.links && d.links[s] < |d.used| ==> d.used[d.links[s]]
  }

  ghost predicate IndexSound(h: Block -> Digest, d: Disk, pending: set<Slot>) {
    forall k :: k in d.index ==>
      && d.index[k] < |d.content| && h(d.content[d.index[k]]) == k
      && (d.index[k] == 0 || Owned(d, pending, d.index[k]))
  }

  ghost predicate SealedIndexed(h: Block -> Digest, d: Disk, pending: set<Slot>) {
    forall s :: IsSealed(d, pending, s) ==> Indexed(h, d, d.links[s])
  }

  ghost predicate SharedIndexed(h: Block -> Digest, d: Disk) {
    forall p: nat :: 0 < p < |d.nlink| && d.nlink[p] > 2 ==> Indexed(h, d, p)
  }

  ghost predicate InvPending(h: Block -> Digest, blockSize: nat, d: Disk, pending: set<Slot>) {
    && Conserved(blockSize, d)
    && LiveUsed(d)
    && Indexed(h, d, 0)
    && IndexSound(h, d, pending)
    && SealedIndexed(h, d, pending)
    && SharedIndexed(h, d)
  }

  ghost predicate Inv(h: Block -> Digest, blockSize: nat, d: Disk) {
    InvPending(h, blockSize, d, {})
  }

  // ---------------------------------------------------------------- consequences

  /** The bitmap is exact: a bit is set just when the block is 0 or some logical block uses it. */
  lemma BitmapExact(h: Block -> Digest, blockSize: nat, d: Disk, p: nat)
    requires Inv(h, blockSize, d) && p < |d.used|
    ensures d.used[p] <==> p == 0 || d.nlink[p] >= 2
  {
    UnreferencedIffCount(d, p);
    if p != 0 && LinksTo(d.links, p) != {} {
      var s :| s in LinksTo(d.links, p);
      assert d.links[s] == p;
    }
  }

  /** find_free_block never hands out a block in use, nor one the index points at. */
  lemma FreshBlockIsUnused(h: Block -> Digest, blockSize: nat, d: Disk, pending: set<Slot>)
    requires InvPending(h, blockSize, d, pending) && FindFree(d.used, 1).Some?
    ensures var q := FindFree(d.used, 1).value;
      && 0 < q < |d.content| && LinksTo(d.links, q) == {}
      && forall k :: k in d.index ==> d.index[k] != q
  {
    var q := FindFree(d.used, 1).value;
    forall k | k in d.index
      ensures d.index[k] != q
    {
      if d.index[k] != 0 {
        var s :| IsSealed(d, pending, s) && d.links[s] == d.index[k];
        assert d.used[d.links[s]];
      }
    }
  }

  // ---------------------------------------------------------------- what the index conditions read

  lemma OwnedTransfers(d: Disk, r: Disk, pending: set<Slot>, pending': set<Slot>)
    requires forall s :: IsSealed(d, pending, s) ==> IsSealed(r, pending', s) && r.links[s] == d.links[s]
    ensures forall x :: Owned(d, pending, x) ==> Owned(r, pending', x)
  {
    forall x | Owned(d, pending, x)
      ensures Owned(r, pending', x)
    {
      var s :| IsSealed(d, pending, s) && d.links[s] == x;
      assert IsSealed(r, pending', s);
    }
  }

  /** The index conditions survive any change of the links that leaves sealed ones alone and
      makes no unindexed block newly shared. */
  lemma IndexFrame(h: Block -> Digest, d: Disk, r: Disk, pending: set<Slot>)
    requires IndexSound(h, d, pending) && SealedIndexed(h, d, pending) && SharedIndexed(h, d)
    requires r.content == d.content && r.index == d.index && |r.nlink| == |d.nlink|
    requires forall s :: IsSealed(r, pending, s) <==> IsSealed(d, pending, s)
    requires forall s :: IsSealed(d, pending, s) ==> s in r.links && r.links[s] == d.links[s]
    requires forall p: nat :: 0 < p < |r.nlink| && r.nlink[p] > 2 ==> d.nlink[p] > 2 || Indexed(h, d, p)
    ensures IndexSound(h, r, pending) && SealedIndexed(h, r, pending) && SharedIndexed(h, r)
    ensures forall p: nat :: Indexed(h, r, p) <==> Indexed(h, d, p)
  {
    OwnedTransfers(d, r, pending, pending);
  }

  lemma OnlyMember<T>(all: set<T>, x: T)
    requires x in all && |all| <= 1
    ensures all == {x}
  {
    assert |all - {x}| == |all| - 1;
    assert all == {x} + (all - {x});
  }

  // ---------------------------------------------------------------- TRUNCATE

  lemma GrowOneInv(h: Block -> Digest, blockSize: nat, d: Disk, ft: FileTag)
    requires Inv(h, blockSize, d) && ft in d.metas && !IsCommited(d, ft)
    ensures Inv(h, blockSize, GrowOne(d, ft)) && !IsCommited(GrowOne(d, ft), ft)
  {
    GrowOneConserves(blockSize, d, ft);
    var s := Slot(ft, |d.metas[ft].blocks|);
    assert !HasBlock(d, s) && s !in d.links && d.used[0];
    assert WellFormed(d);
    hide InvPending, Conserved, LinksMatch;
    AppendInv(h, blockSize, d, GrowOne(d, ft), s, 0);
  }

  /** One more link from a file in progress to an indexed block in use. */
  lemma AppendInv(h: Block -> Digest, blockSize: nat, d: Disk, r: Disk, s: Slot, p: nat)
    requires Inv(h, blockSize, d) && Conserved(blockSize, r) && !IsCommited(d, s.ft) && s !in d.links
    requires Indexed(h, d, p) && p < |d.used| && d.used[p] && p < |d.nlink|
    requires r.links == d.links[s := p] && r.nlink == d.nlink[p := d.nlink[p] + 1] && r.used == d.used
    requires r.content == d.content && r.index == d.index && forall ft :: IsCommited(r, ft) <==> IsCommited(d, ft)
    ensures Inv(h, blockSize, r) && forall x: nat :: Indexed(h, r, x) <==> Indexed(h, d, x)
  {
    hide Conserved, IsCommited;
    IndexFrame(h, d, r, {});
  }

  lemma {:induction false} GrowInv(h: Block -> Digest, blockSize: nat, d: Disk, ft: FileTag, needed: nat)
    requires Inv(h, blockSize, d) && ft in d.metas && !IsCommited(d, ft)
    ensures Inv(h, blockSize, Grow(d, ft, needed)) && !IsCommited(Grow(d, ft, needed), ft)
    decreases needed - |d.metas[ft].blocks|
  {
    if |d.metas[ft].blocks| < needed {
      GrowOneInv(h, blockSize, d, ft);
      GrowInv(h, blockSize, GrowOne(d, ft), ft, needed);
    }
  }

  lemma ShrinkOneInv(h: Block -> Digest, blockSize: nat, d: Disk, ft: FileTag)
    requires Inv(h, blockSize, d) && ft in d.metas && !IsCommited(d, ft) && d.metas[ft].blocks != []
    ensures Inv(h, blockSize, ShrinkOne(d, ft)) && !IsCommited(ShrinkOne(d, ft), ft)
  {
    ShrinkOneConserves(blockSize, d, ft);
    ShrinkOneLiveUsed(d, ft);
    ShrinkOneShape(d, ft);
    IndexFrame(h, d, ShrinkOne(d, ft), {});
  }

  lemma ShrinkOneShape(d: Disk, ft: FileTag)
    requires WellFormed(d) && ft in d.metas && !IsCommited(d, ft) && d.metas[ft].blocks != []
    ensures var r := ShrinkOne(d, ft);
      && r.content == d.content && r.index == d.index && |r.nlink| == |d.nlink|
      && (forall p: nat :: p < |d.nlink| ==> r.nlink[p] <= d.nlink[p])
      && (forall t :: IsSealed(r, {}, t) <==> IsSealed(d, {}, t))
      && (forall t :: IsSealed(d, {}, t) ==> t in r.links && r.links[t] == d.links[t])
      && !IsCommited(r, ft)
  {
    var s := Slot(ft, |d.metas[ft].blocks| - 1);
    assert HasBlock(d, s);
  }

  lemma ShrinkOneLiveUsed(d: Disk, ft: FileTag)
    requires WellFormed(d) && Counted(d) && LiveUsed(d) && ft in d.metas && d.metas[ft].blocks != []
    ensures LiveUsed(ShrinkOne(d, ft))
  {
    ShrinkOneMoves(d, ft);
    var r := ShrinkOne(d, ft);
    forall t | t in r.links
      ensures r.used[r.links[t]]
    {
      assert t in LinksTo(r.links, r.links[t]);
    }
  }

  lemma {:induction false} ShrinkInv(h: Block -> Digest, blockSize: nat, d: Disk, ft: FileTag, needed: nat)
    requires Inv(h, blockSize, d) && ft in d.metas && !IsCommited(d, ft)
    ensures Inv(h, blockSize, Shrink(d, ft, needed)) && !IsCommited(Shrink(d, ft, needed), ft)
    decreases |d.metas[ft].blocks|
  {
    if needed < |d.metas[ft].blocks| {
      ShrinkOneInv(h, blockSize, d, ft);
      ShrinkInv(h, blockSize, ShrinkOne(d, ft), ft, needed);
    }
  }

  lemma SetSizeInv(h: Block -> Digest, blockSize: nat, d: Disk, ft: FileTag, size: int)
    requires Inv(h, blockSize, d) && ft in d.metas
    ensures Inv(h, blockSize, SetSize(d, ft, size))
  {
    IndexFrame(h, d, SetSize(d, ft, size), {});
  }

  lemma TruncateInv(h: Block -> Digest, blockSize: nat, d: Disk, ft: FileTag, size: nat)
    requires Inv(h, blockSize, d) && 0 < blockSize
    ensures Inv(h, blockSize, TruncateFile(blockSize, d, ft, size).0)
  {
    hide LinksMatch, NeededBlocks;
    if ft in d.metas && d.metas[ft].estado != Commited {
      var needed := NeededBlocks(blockSize, size);
      GrowInv(h, blockSize, d, ft, needed);
      var d1 := Grow(d, ft, needed);
      ShrinkInv(h, blockSize, d1, ft, needed);
      SetSizeInv(h, blockSize, Shrink(d1, ft, needed), ft, size);
    }
  }

  lemma CreateInv(h: Block -> Digest, blockSize: nat, d: Disk, ft: FileTag)
    requires Inv(h, blockSize, d)
    ensures Inv(h, blockSize, CreateFile(d, ft).0)
  {
    if ft !in d.metas { IndexFrame(h, d, CreateFile(d, ft).0, {}); }
  }

  // ---------------------------------------------------------------- WRITE

  /** A block with one reference, from a file that is not COMMITED, is not in the index. */
  lemma ExclusiveNotIndexed(h: Block -> Digest, blockSize: nat, d: Disk, s: Slot)
    requires Inv(h, blockSize, d) && s in d.links && !IsCommited(d, s.ft)
    requires d.links[s] != 0 && d.nlink[d.links[s]] <= 2
    ensures LinksTo(d.links, d.links[s]) == {s}
    ensures forall k :: k in d.index ==> d.index[k] != d.links[s]
  {
    OnlyMember(LinksTo(d.links, d.links[s]), s);
    forall k | k in d.index
      ensures d.index[k] != d.links[s]
    {
      if d.index[k] != 0 {
        var t :| IsSealed(d, {}, t) && d.links[t] == d.index[k];
        assert t in LinksTo(d.links, d.index[k]) && t != s;
      }
    }
  }

  /** Changing the content of a block that the index never names. */
  lemma ChangeUnindexedContent(h: Block -> Digest, d: Disk, q: nat, data: Block)
    requires Geometry(d) && 0 < q < |d.content|
    requires LiveUsed(d) && IndexSound(h, d, {}) && SealedIndexed(h, d, {}) && SharedIndexed(h, d)
    requires Indexed(h, d, 0)
    requires forall k :: k in d.index ==> d.index[k] != q
    ensures var r := d.(content := d.content[q := data]);
      && LiveUsed(r) && IndexSound(h, r, {}) && SealedIndexed(h, r, {}) && SharedIndexed(h, r)
      && Indexed(h, r, 0)
  {
    var r := d.(content := d.content[q := data]);
    assert forall t :: IsSealed(r, {}, t) <==> IsSealed(d, {}, t);
    assert forall x: nat :: Indexed(h, d, x) ==> x != q && Indexed(h, r, x);
    OwnedTransfers(d, r, {}, {});
  }

  lemma RedirectInv(h: Block -> Digest, blockSize: nat, d: Disk, ft: FileTag, l: nat, q: nat)
    requires Inv(h, blockSize, d) && HasBlock(d, Slot(ft, l)) && !IsCommited(d, ft)
    requires 0 < q < |d.content| && LinksTo(d.links, q) == {} && !d.used[q]
    requires MustCopy(d, d.metas[ft].blocks[l])
    ensures var r := Redirect(d, ft, l, q);
      LiveUsed(r) && Indexed(h, r, 0) && IndexSound(h, r, {}) && SealedIndexed(h, r, {}) && SharedIndexed(h, r)
  {
    var s := Slot(ft, l);
    assert s in d.links;
    var r := Redirect(d, ft, l, q);
    RedirectMoves(d, ft, l, q);
    UnreferencedIffCount(d, q);
    RedirectNlink(d, ft, l, q);
    RedirectSealed(d, ft, l, q);
    hide LinksMatch, Redirect, Counted, NoLeak;
    IndexFrame(h, d, r, {});
  }

  /** COMMITED files keep their links. */
  lemma RedirectSealed(d: Disk, ft: FileTag, l: nat, q: nat)
    requires WellFormed(d) && HasBlock(d, Slot(ft, l)) && !IsCommited(d, ft) && q < |d.content|
    requires Slot(ft, l) in d.links && Redirect(d, ft, l, q).links == d.links[Slot(ft, l) := q]
    ensures var r := Redirect(d, ft, l, q);
      && |r.nlink| == |d.nlink|
      && (forall t :: IsSealed(r, {}, t) <==> IsSealed(d, {}, t))
      && (forall t :: IsSealed(d, {}, t) ==> t in r.links && r.links[t] == d.links[t])
  {
    hide LinksMatch;
    var r := Redirect(d, ft, l, q);
    assert forall g :: IsCommited(r, g) <==> IsCommited(d, g);
    assert d.links[Slot(ft, l) := q].Keys == d.links.Keys;
  }

  lemma RedirectNlink(d: Disk, ft: FileTag, l: nat, q: nat)
    requires WellFormed(d) && HasBlock(d, Slot(ft, l)) && q < |d.content| && d.nlink[q] == 1
    ensures forall p: nat :: p < |d.nlink| && Redirect(d, ft, l, q).nlink[p] > 2 ==> d.nlink[p] > 2
  {
  }

  lemma WriteInv(h: Block -> Digest, blockSize: nat, d: Disk, ft: FileTag, l: int, data: Block)
    requires Inv(h, blockSize, d)
    ensures Inv(h, blockSize, WriteFile(d, ft, l, data).0)
  {
    WriteConserves(blockSize, d, ft, l, data);
    if ft in d.metas && d.metas[ft].estado != Commited && 0 <= l < |d.metas[ft].blocks| {
      var s := Slot(ft, l);
      assert HasBlock(d, s) && s in d.links;
      var p := d.metas[ft].blocks[l];
      assert p < |d.nlink|;
      if MustCopy(d, p) {
        if FindFree(d.used, 1).Some? { WriteCopyInv(h, blockSize, d, ft, l, FindFree(d.used, 1).value, data); }
      } else {
        ExclusiveNotIndexed(h, blockSize, d, s);
        hide Counted, NoLeak, LinksMatch;
        ChangeUnindexedContent(h, d, p, data);
      }
    }
  }

  lemma WriteCopyInv(h: Block -> Digest, blockSize: nat, d: Disk, ft: FileTag, l: nat, q: nat, data: Block)
    requires Inv(h, blockSize, d) && HasBlock(d, Slot(ft, l)) && !IsCommited(d, ft)
    requires MustCopy(d, d.metas[ft].blocks[l]) && FindFree(d.used, 1) == Some(q)
    ensures q < |d.content|
    ensures var r := Overwrite(Redirect(d, ft, l, q), q, data);
      LiveUsed(r) && Indexed(h, r, 0) && IndexSound(h, r, {}) && SealedIndexed(h, r, {}) && SharedIndexed(h, r)
  {
    assert WellFormed(d) && Counted(d);
    FreshBlockIsUnused(h, blockSize, d, {});
    RedirectInv(h, blockSize, d, ft, l, q);
    RedirectMoves(d, ft, l, q);
    hide InvPending, Counted, LinksMatch, Redirect;
    ChangeUnindexedContent(h, Redirect(d, ft, l, q), q, data);
  }

  // ---------------------------------------------------------------- COMMIT

  lemma LoadIndexInv(h: Block -> Digest, blockSize: nat, d: Disk, pending: set<Slot>, s: Slot)
    requires InvPending(h, blockSize, d, pending) && s in d.links
    requires h(d.content[d.links[s]]) !in d.index
    ensures InvPending(h, blockSize, d.(index := d.index[h(d.content[d.links[s]]) := d.links[s]]), pending + {s})
  {
    LoadIndexParts(h, d, pending, s);
  }

  lemma LoadIndexParts(h: Block -> Digest, d: Disk, pending: set<Slot>, s: Slot)
    requires IndexSound(h, d, pending) && SealedIndexed(h, d, pending) && SharedIndexed(h, d) && Indexed(h, d, 0)
    requires s in d.links && d.links[s] < |d.content| && h(d.content[d.links[s]]) !in d.index
    ensures var r := d.(index := d.index[h(d.content[d.links[s]]) := d.links[s]]);
      && IndexSound(h, r, pending + {s}) && SealedIndexed(h, r, pending + {s})
      && SharedIndexed(h, r) && Indexed(h, r, 0)
  {
    var r := d.(index := d.index[h(d.content[d.links[s]]) := d.links[s]]);
    assert forall x: nat :: Indexed(h, d, x) ==> Indexed(h, r, x);
    assert Indexed(h, r, d.links[s]);
    assert IsSealed(r, pending + {s}, s);
    OwnedTransfers(d, r, pending, pending + {s});
    forall t | IsSealed(r, pending + {s}, t)
      ensures Indexed(h, r, r.links[t])
    {
      assert t == s || IsSealed(d, pending, t);
    }
  }

  lemma SealIndexedInv(h: Block -> Digest, blockSize: nat, d: Disk, pending: set<Slot>, s: Slot)
    requires InvPending(h, blockSize, d, pending) && s in d.links && Indexed(h, d, d.links[s])
    ensures InvPending(h, blockSize, d, pending + {s})
  {
    OwnedTransfers(d, d, pending, pending + {s});
    forall t | IsSealed(d, pending + {s}, t)
      ensures Indexed(h, d, d.links[t])
    {
      assert t == s || IsSealed(d, pending, t);
    }
  }

  /** A block that COMMIT reassigns has no other reference: freeing it is right. */
  lemma ReassignedIsExclusive(h: Block -> Digest, blockSize: nat, d: Disk, pending: set<Slot>, s: Slot)
    requires InvPending(h, blockSize, d, pending) && s in d.links
    requires h(d.content[d.links[s]]) in d.index && d.index[h(d.content[d.links[s]])] != d.links[s]
    ensures d.links[s] != 0 && LinksTo(d.links, d.links[s]) == {s} && !IsSealed(d, pending, s)
  {
    var p := d.links[s];
    assert !Indexed(h, d, p);
    OnlyMember(LinksTo(d.links, p), s);
  }

  lemma ReassignInv(h: Block -> Digest, blockSize: nat, d: Disk, pending: set<Slot>, ft: FileTag, i: nat)
    requires InvPending(h, blockSize, d, pending) && HasBlock(d, Slot(ft, i))
    requires var p := d.metas[ft].blocks[i];
      h(d.content[p]) in d.index && d.index[h(d.content[p])] != p
    ensures var q := d.index[h(d.content[d.metas[ft].blocks[i]])];
      InvPending(h, blockSize, Reassign(d, ft, i, q), pending)
  {
    var s := Slot(ft, i);
    assert s in d.links;
    var q := d.index[h(d.content[d.links[s]])];
    var r := Reassign(d, ft, i, q);
    CommitOneConserves(h, blockSize, d, ft, i);
    ReassignedIsExclusive(h, blockSize, d, pending, s);
    IndexedIsUsed(h, blockSize, d, pending, q);
    ReassignLiveUsed(d, ft, i, q);
    ReassignShape(d, pending, ft, i, q);
    IndexFrame(h, d, r, pending);
  }

  lemma IndexedIsUsed(h: Block -> Digest, blockSize: nat, d: Disk, pending: set<Slot>, q: nat)
    requires InvPending(h, blockSize, d, pending) && Indexed(h, d, q)
    ensures d.used[q]
  {
    if q != 0 {
      var t :| IsSealed(d, pending, t) && d.links[t] == q;
    }
  }

  lemma ReassignShape(d: Disk, pending: set<Slot>, ft: FileTag, i: nat, q: nat)
    requires WellFormed(d) && Counted(d) && HasBlock(d, Slot(ft, i)) && q < |d.content|
    requires !IsSealed(d, pending, Slot(ft, i))
    ensures var r := Reassign(d, ft, i, q);
      && r.content == d.content && r.index == d.index && |r.nlink| == |d.nlink|
      && (forall p: nat :: p < |d.nlink| && p != q ==> r.nlink[p] <= d.nlink[p])
      && (forall t :: IsSealed(r, pending, t) <==> IsSealed(d, pending, t))
      && (forall t :: IsSealed(d, pending, t) ==> t in r.links && r.links[t] == d.links[t])
  {
    hide LinksMatch, Counted, Reassign, IsCommited;
    ReassignMoves(d, ft, i, q);
    ReassignCommited(d, ft, i, q);
    ReassignNlink(d, ft, i, q);
    assert d.links[Slot(ft, i) := q].Keys == d.links.Keys;
  }

  lemma ReassignCommited(d: Disk, ft: FileTag, i: nat, q: nat)
    requires WellFormed(d) && HasBlock(d, Slot(ft, i)) && q < |d.content|
    ensures Slot(ft, i) in d.links
    ensures forall g :: IsCommited(Reassign(d, ft, i, q), g) <==> IsCommited(d, g)
  {
  }

  lemma ReassignNlink(d: Disk, ft: FileTag, i: nat, q: nat)
    requires WellFormed(d) && HasBlock(d, Slot(ft, i)) && q < |d.content|
    ensures var r := Reassign(d, ft, i, q);
      |r.nlink| == |d.nlink| && forall p: nat :: p < |d.nlink| && p != q ==> r.nlink[p] <= d.nlink[p]
  {
    assert Slot(ft, i) in d.links;
    assert d.links[Slot(ft, i)] < |d.nlink| == |d.content|;
    hide LinksMatch, Geometry;
  }

  lemma ReassignLiveUsed(d: Disk, ft: FileTag, i: nat, q: nat)
    requires WellFormed(d) && Counted(d) && LiveUsed(d) && HasBlock(d, Slot(ft, i)) && q < |d.content|
    requires var p := d.metas[ft].blocks[i]; p != q && LinksTo(d.links, p) == {Slot(ft, i)} && d.used[q]
    ensures LiveUsed(Reassign(d, ft, i, q))
  {
    var s := Slot(ft, i);
    assert s in d.links;
    var r := Reassign(d, ft, i, q);
    ReassignMoves(d, ft, i, q);
    hide LinksMatch, Reassign, Counted;
    forall t | t in r.links
      ensures r.used[r.links[t]]
    {
      if t != s { assert t !in LinksTo(d.links, d.links[s]); }
    }
  }

  lemma CommitOneInv(h: Block -> Digest, blockSize: nat, d: Disk, pending: set<Slot>, ft: FileTag, i: nat)
    requires InvPending(h, blockSize, d, pending) && HasBlock(d, Slot(ft, i))
    ensures InvPending(h, blockSize, CommitOne(h, d, ft, i), pending + {Slot(ft, i)})
  {
    var s := Slot(ft, i);
    assert s in d.links;
    var p := d.links[s];
    var key := h(d.content[p]);
    if key !in d.index {
      LoadIndexInv(h, blockSize, d, pending, s);
    } else if d.index[key] == p {
      SealIndexedInv(h, blockSize, d, pending, s);
    } else {
      ReassignInv(h, blockSize, d, pending, ft, i);
      var r := CommitOne(h, d, ft, i);
      assert HasBlock(r, s);
      SealIndexedInv(h, blockSize, r, pending, s);
    }
  }

  ghost function PassedOver(ft: FileTag, i: nat): set<Slot> {
    set j | 0 <= j < i :: Slot(ft, j)
  }

  lemma PassOneMore(ft: FileTag, i: nat)
    ensures PassedOver(ft, i) + {Slot(ft, i)} == PassedOver(ft, i + 1)
  {
  }

  lemma {:induction false} CommitFromInv(h: Block -> Digest, blockSize: nat, d: Disk, ft: FileTag, i: nat)
    requires InvPending(h, blockSize, d, PassedOver(ft, i)) && ft in d.metas && i <= |d.metas[ft].blocks|
    ensures var r := CommitFrom(h, d, ft, i);
      InvPending(h, blockSize, r, PassedOver(ft, |r.metas[ft].blocks|))
    decreases |d.metas[ft].blocks| - i
  {
    if i < |d.metas[ft].blocks| {
      assert HasBlock(d, Slot(ft, i));
      CommitOneInv(h, blockSize, d, PassedOver(ft, i), ft, i);
      PassOneMore(ft, i);
      CommitFromInv(h, blockSize, CommitOne(h, d, ft, i), ft, i + 1);
    }
  }

  lemma SetCommitedInv(h: Block -> Digest, blockSize: nat, d: Disk, ft: FileTag)
    requires ft in d.metas && InvPending(h, blockSize, d, PassedOver(ft, |d.metas[ft].blocks|))
    ensures Inv(h, blockSize, SetCommited(d, ft))
  {
    var r := SetCommited(d, ft);
    var pending := PassedOver(ft, |d.metas[ft].blocks|);
    forall t | t in d.links
      ensures IsSealed(r, {}, t) <==> IsSealed(d, pending, t)
    {
      assert HasBlock(d, t);
    }
    assert forall x: nat :: Indexed(h, r, x) <==> Indexed(h, d, x);
    OwnedTransfers(d, r, pending, {});
  }

  lemma CommitInv(h: Block -> Digest, blockSize: nat, d: Disk, ft: FileTag)
    requires Inv(h, blockSize, d)
    ensures Inv(h, blockSize, CommitFile(h, d, ft).0)
  {
    if ft in d.metas {
      assert PassedOver(ft, 0) == {};
      CommitFromInv(h, blockSize, d, ft, 0);
      SetCommitedInv(h, blockSize, CommitFrom(h, d, ft, 0), ft);
    }
  }

  lemma FreshInv(h: Block -> Digest, blockSize: nat, n: nat)
    requires 0 < n
    ensures Inv(h, blockSize, FreshDisk(h, blockSize, n)) <==> n % 8 == 0
  {
    FreshConserved(h, blockSize, n);
    hide Conserved;
    var d := FreshDisk(h, blockSize, n);
    assert forall ft :: !IsCommited(d, ft);
  }
}
