/** What the disk keeps in every sequential run, with no discipline on its callers: metadata
    agrees with the hard links, link counts count them, and no block leaks. */
module StorageConservation {
  import opened StorageModel

  /** The logical blocks that share physical block `p`. */
  function LinksTo(links: map<Slot, nat>, p: nat): set<Slot> {
    set s | s in links && links[s] == p
  }

  /** A block's link count is its own name under physical_blocks/ plus its logical blocks. */
  ghost predicate Counted(d: Disk) {
    forall p: nat :: p < |d.nlink| ==> d.nlink[p] == 1 + |LinksTo(d.links, p)|
  }

  /** A set bit belongs to block 0 or to a block that some logical block uses. */
  ghost predicate NoLeak(d: Disk) {
    forall p: nat :: 0 < p < |d.used| && d.used[p] ==> LinksTo(d.links, p) != {}
  }

  ghost predicate ZeroIntact(blockSize: nat, d: Disk) {
    0 < |d.content| == |d.used| && d.content[0] == ZeroBlock(blockSize) && d.used[0]
  }

  ghost predicate Conserved(blockSize: nat, d: Disk) {
    WellFormed(d) && Counted(d) && NoLeak(d) && ZeroIntact(blockSize, d)
  }

  // ---------------------------------------------------------------- counting

  lemma LinksToAdd(links: map<Slot, nat>, s: Slot, p: nat, q: nat)
    requires s !in links
    ensures LinksTo(links[s := p], q) == if q == p then LinksTo(links, q) + {s} else LinksTo(links, q)
  {
  }

  lemma LinksToDrop(links: map<Slot, nat>, s: Slot, q: nat)
    ensures LinksTo(links - {s}, q) == LinksTo(links, q) - {s}
  {
  }

  lemma LinkCounts(d: Disk, s: Slot, p: nat)
    requires Counted(d) && p < |d.nlink|
    ensures Counted(Link(d, s, p))
  {
    if s !in d.links {
      forall q: nat | q < |d.nlink|
        ensures Link(d, s, p).nlink[q] == 1 + |LinksTo(d.links[s := p], q)|
      {
        LinksToAdd(d.links, s, p, q);
      }
    }
  }

  lemma UnlinkCounts(d: Disk, s: Slot)
    requires Counted(d) && (s in d.links ==> d.links[s] < |d.nlink|)
    ensures Counted(Unlink(d, s))
  {
    if s in d.links {
      forall q: nat | q < |d.nlink|
        ensures Unlink(d, s).nlink[q] == 1 + |LinksTo(d.links - {s}, q)|
      {
        LinksToDrop(d.links, s, q);
      }
    }
  }

  /** `nlink < 2` is how the C code asks whether anything still links to a block. */
  lemma UnreferencedIffCount(d: Disk, p: nat)
    requires Counted(d) && p < |d.nlink|
    ensures d.nlink[p] < 2 <==> LinksTo(d.links, p) == {}
    ensures d.nlink[p] >= 1
  {
  }

  // ---------------------------------------------------------------- TRUNCATE

  lemma GrowOneConserves(blockSize: nat, d: Disk, ft: FileTag)
    requires Conserved(blockSize, d) && ft in d.metas
    ensures Conserved(blockSize, GrowOne(d, ft))
  {
    var s := Slot(ft, |d.metas[ft].blocks|);
    assert !HasBlock(d, s);
    LinkCounts(d, s, 0);
    forall q { LinksToAdd(d.links, s, 0, q); }
  }

  lemma {:induction false} GrowConserves(blockSize: nat, d: Disk, ft: FileTag, needed: nat)
    requires Conserved(blockSize, d) && ft in d.metas
    ensures Conserved(blockSize, Grow(d, ft, needed))
    decreases needed - |d.metas[ft].blocks|
  {
    if |d.metas[ft].blocks| < needed {
      GrowOneConserves(blockSize, d, ft);
      GrowConserves(blockSize, GrowOne(d, ft), ft, needed);
    }
  }

  lemma ShrinkOneMoves(d: Disk, ft: FileTag)
    requires WellFormed(d) && Counted(d) && ft in d.metas && d.metas[ft].blocks != []
    ensures var r := ShrinkOne(d, ft);
      var s := Slot(ft, |d.metas[ft].blocks| - 1);
      var p := d.metas[ft].blocks[s.pos];
      && s in d.links && d.links[s] == p
      && Counted(r) && r.links == d.links - {s} && r.content == d.content
      && r.used == (if p != 0 && LinksTo(r.links, p) == {} then d.used[p := false] else d.used)
  {
    var s := Slot(ft, |d.metas[ft].blocks| - 1);
    assert HasBlock(d, s) && s in d.links;
    UnlinkCounts(d, s);
    UnreferencedIffCount(Unlink(d, s), d.links[s]);
  }

  lemma ShrinkOneConserves(blockSize: nat, d: Disk, ft: FileTag)
    requires Conserved(blockSize, d) && ft in d.metas && d.metas[ft].blocks != []
    ensures Conserved(blockSize, ShrinkOne(d, ft))
  {
    hide LinksMatch;
    ShrinkOneMoves(d, ft);
    var s := Slot(ft, |d.metas[ft].blocks| - 1);
    forall q { LinksToDrop(d.links, s, q); }
  }

  lemma {:induction false} ShrinkConserves(blockSize: nat, d: Disk, ft: FileTag, needed: nat)
    requires Conserved(blockSize, d) && ft in d.metas
    ensures Conserved(blockSize, Shrink(d, ft, needed))
    decreases |d.metas[ft].blocks|
  {
    if needed < |d.metas[ft].blocks| {
      ShrinkOneConserves(blockSize, d, ft);
      ShrinkConserves(blockSize, ShrinkOne(d, ft), ft, needed);
    }
  }

  // ---------------------------------------------------------------- WRITE and COMMIT

  /** Moving a hard link from its block to `q` moves one reference. */
  lemma MoveLink(d: Disk, s: Slot, q: nat)
    requires Counted(d) && s in d.links && d.links[s] < |d.nlink| && q < |d.nlink|
    ensures var r := Link(Unlink(d, s), s, q);
      && Counted(r) && r.links == d.links[s := q]
      && (forall x: nat :: LinksTo(r.links, x) ==
            if x == q then LinksTo(d.links, x) + {s} else LinksTo(d.links, x) - {s})
  {
    var d1 := Unlink(d, s);
    UnlinkCounts(d, s);
    LinkCounts(d1, s, q);
    assert Link(d1, s, q).links == d.links[s := q];
    forall x: nat
      ensures LinksTo(d.links[s := q], x) ==
        if x == q then LinksTo(d.links, x) + {s} else LinksTo(d.links, x) - {s}
    {
      LinksToDrop(d.links, s, x);
      LinksToAdd(d1.links, s, q, x);
    }
  }

  lemma RedirectMoves(d: Disk, ft: FileTag, l: nat, q: nat)
    requires WellFormed(d) && Counted(d) && HasBlock(d, Slot(ft, l)) && q < |d.content|
    ensures var r := Redirect(d, ft, l, q);
      && Counted(r) && r.links == d.links[Slot(ft, l) := q]
      && r.used == d.used[q := true] && r.content == d.content && r.index == d.index
  {
    MoveLink(d.(used := d.used[q := true]), Slot(ft, l), q);
  }

  /** Copy on write takes one reference from a block that keeps another. */
  lemma RedirectNoLeak(d: Disk, ft: FileTag, l: nat, q: nat)
    requires WellFormed(d) && Counted(d) && NoLeak(d) && HasBlock(d, Slot(ft, l)) && q < |d.content|
    requires MustCopy(d, d.metas[ft].blocks[l])
    ensures NoLeak(Redirect(d, ft, l, q))
  {
    var s := Slot(ft, l);
    assert s in d.links;
    var p := d.links[s];
    RedirectMoves(d, ft, l, q);
    MoveLink(d, s, q);
    if p != 0 { SharedStaysReferenced(d, s); }
    var r := Redirect(d, ft, l, q);
    forall x: nat | 0 < x < |r.used| && r.used[x]
      ensures LinksTo(r.links, x) != {}
    {
      if x != q && x != p {
        assert s !in LinksTo(d.links, x);
      }
    }
  }

  lemma WriteConserves(blockSize: nat, d: Disk, ft: FileTag, l: int, data: Block)
    requires Conserved(blockSize, d)
    ensures Conserved(blockSize, WriteFile(d, ft, l, data).0)
  {
    if ft in d.metas && d.metas[ft].estado != Commited && 0 <= l < |d.metas[ft].blocks| {
      var s := Slot(ft, l);
      assert HasBlock(d, s);
      var p := d.metas[ft].blocks[l];
      assert p < |d.nlink|;
      if MustCopy(d, p) && FindFree(d.used, 1).Some? {
        hide Geometry, LinksMatch, Counted, NoLeak, Redirect;
        CopyConserves(blockSize, d, ft, l, FindFree(d.used, 1).value, data);
      }
    }
  }

  lemma CopyConserves(blockSize: nat, d: Disk, ft: FileTag, l: nat, q: nat, data: Block)
    requires Conserved(blockSize, d) && HasBlock(d, Slot(ft, l)) && 0 < q < |d.content|
    requires d.metas[ft].blocks[l] < |d.nlink| && MustCopy(d, d.metas[ft].blocks[l])
    ensures Conserved(blockSize, Overwrite(Redirect(d, ft, l, q), q, data))
  {
    RedirectMoves(d, ft, l, q);
    RedirectNoLeak(d, ft, l, q);
    hide LinksMatch, Redirect, LinksTo;
  }

  /** Taking one of at least two references away leaves one. */
  lemma SharedStaysReferenced(d: Disk, s: Slot)
    requires Counted(d) && s in d.links && d.links[s] < |d.nlink|
    requires d.nlink[d.links[s]] > 2
    ensures LinksTo(d.links, d.links[s]) - {s} != {}
  {
    var all := LinksTo(d.links, d.links[s]);
    assert |all - {s}| == |all| - 1;
  }

  lemma ReassignMoves(d: Disk, ft: FileTag, i: nat, q: nat)
    requires WellFormed(d) && Counted(d) && HasBlock(d, Slot(ft, i)) && q < |d.content|
    ensures var r := Reassign(d, ft, i, q);
      var p := d.metas[ft].blocks[i];
      && Counted(r) && r.links == d.links[Slot(ft, i) := q]
      && r.used == (if p != 0 then d.used[p := false] else d.used)
      && r.content == d.content && r.index == d.index
  {
    MoveLink(d, Slot(ft, i), q);
  }

  /** COMMIT frees the block it moves away from, so that one cannot leak. */
  lemma ReassignNoLeak(d: Disk, ft: FileTag, i: nat, q: nat)
    requires WellFormed(d) && Counted(d) && NoLeak(d) && HasBlock(d, Slot(ft, i)) && q < |d.content|
    ensures NoLeak(Reassign(d, ft, i, q))
  {
    var s := Slot(ft, i);
    assert s in d.links && d.links[s] == d.metas[ft].blocks[i];
    hide LinksMatch;
    ReassignMoves(d, ft, i, q);
    MoveLink(d, s, q);
    var r := Reassign(d, ft, i, q);
    forall x: nat | 0 < x < |r.used| && r.used[x]
      ensures LinksTo(r.links, x) != {}
    {
      if x != q {
        assert s !in LinksTo(d.links, x);
      }
    }
  }

  lemma CommitOneConserves(h: Block -> Digest, blockSize: nat, d: Disk, ft: FileTag, i: nat)
    requires Conserved(blockSize, d) && HasBlock(d, Slot(ft, i))
    ensures Conserved(blockSize, CommitOne(h, d, ft, i))
  {
    var s := Slot(ft, i);
    assert s in d.links && d.links[s] == d.metas[ft].blocks[i];
    hide LinksMatch;
    var key := LogicalDigest(h, d, s);
    if key in d.index && d.index[key] != d.links[s] {
      ReassignMoves(d, ft, i, d.index[key]);
      ReassignNoLeak(d, ft, i, d.index[key]);
    }
  }

  lemma {:induction false} CommitConserves(h: Block -> Digest, blockSize: nat, d: Disk, ft: FileTag, i: nat)
    requires Conserved(blockSize, d) && ft in d.metas && i <= |d.metas[ft].blocks|
    ensures Conserved(blockSize, CommitFrom(h, d, ft, i))
    decreases |d.metas[ft].blocks| - i
  {
    if i < |d.metas[ft].blocks| {
      assert HasBlock(d, Slot(ft, i));
      CommitOneConserves(h, blockSize, d, ft, i);
      CommitConserves(h, blockSize, CommitOne(h, d, ft, i), ft, i + 1);
    }
  }

  // ---------------------------------------------------------------- TAG

  lemma TagOneConserves(blockSize: nat, d: Disk, dst: FileTag, p: nat)
    requires Conserved(blockSize, d) && dst in d.metas && p < |d.content|
    ensures Conserved(blockSize, TagOne(d, dst, p))
  {
    var s := Slot(dst, |d.metas[dst].blocks|);
    assert !HasBlock(d, s);
    LinkCounts(d, s, p);
    forall q { LinksToAdd(d.links, s, p, q); }
  }

  lemma {:induction false} TagConserves(blockSize: nat, d: Disk, dst: FileTag, source: seq<nat>, i: nat)
    requires Conserved(blockSize, d) && dst in d.metas && InDisk(d, source) && i <= |source|
    ensures Conserved(blockSize, TagFrom(d, dst, source, i))
    decreases |source| - i
  {
    if i < |source| {
      TagOneConserves(blockSize, d, dst, source[i]);
      TagConserves(blockSize, TagOne(d, dst, source[i]), dst, source, i + 1);
    }
  }

  // ---------------------------------------------------------------- DELETE

  function SlotsFrom(d: Disk, ft: FileTag, i: nat): set<Slot>
    requires ft in d.metas
  {
    set j | i <= j < |d.metas[ft].blocks| :: Slot(ft, j)
  }

  /** The non-zero blocks of `ft`, from logical block `i` on, that only those blocks use. */
  function Released(d: Disk, ft: FileTag, i: nat): set<nat>
    requires ft in d.metas && i <= |d.metas[ft].blocks|
  {
    set p | p in d.metas[ft].blocks[i..] && p != 0 && LinksTo(d.links - SlotsFrom(d, ft, i), p) == {}
  }

  function Digests(h: Block -> Digest, content: seq<Block>, ps: set<nat>): set<Digest> {
    set p | p in ps && p < |content| :: h(content[p])
  }

  lemma DeleteOneCounts(h: Block -> Digest, d: Disk, ft: FileTag, i: nat)
    requires LinkedFrom(d, ft, i) && i < |d.metas[ft].blocks| && Counted(d)
    ensures var r := DeleteOne(h, d, ft, i);
      var p := d.metas[ft].blocks[i];
      && Counted(r)
      && r.links == d.links - {Slot(ft, i)}
      && r.used == (if p != 0 && LinksTo(r.links, p) == {} then d.used[p := false] else d.used)
      && r.index == (if p != 0 && LinksTo(r.links, p) == {} then d.index - {h(d.content[p])} else d.index)
  {
    var s := Slot(ft, i);
    assert s in d.links;
    UnlinkCounts(d, s);
    UnreferencedIffCount(Unlink(d, s), d.metas[ft].blocks[i]);
  }

  /** What the DELETE loop has done when it ends, whatever order it frees in. */
  lemma {:induction false} DeleteFromEffect(h: Block -> Digest, d: Disk, ft: FileTag, i: nat)
    requires LinkedFrom(d, ft, i) && i <= |d.metas[ft].blocks| && Counted(d)
    ensures var r := DeleteFrom(h, d, ft, i);
      && Counted(r)
      && r.links == d.links - SlotsFrom(d, ft, i)
      && (forall p: nat :: p < |d.used| ==> (r.used[p] <==> d.used[p] && p !in Released(d, ft, i)))
      && r.index == d.index - Digests(h, d.content, Released(d, ft, i))
    decreases |d.metas[ft].blocks| - i
  {
    if i < |d.metas[ft].blocks| {
      var d1 := DeleteOne(h, d, ft, i);
      DeleteOneCounts(h, d, ft, i);
      DeleteFromEffect(h, d1, ft, i + 1);
      ReleasedStep(h, d, ft, i);
      DeleteEffectStep(h, d, ft, i, DeleteFrom(h, d, ft, i));
    } else {
      assert SlotsFrom(d, ft, i) == {};
      assert Released(d, ft, i) == {};
    }
  }

  lemma DeleteEffectStep(h: Block -> Digest, d: Disk, ft: FileTag, i: nat, r: Disk)
    requires LinkedFrom(d, ft, i) && i < |d.metas[ft].blocks| && Counted(d)
    requires var d1 := DeleteOne(h, d, ft, i);
      var p := d.metas[ft].blocks[i];
      && |r.used| == |d.used|
      && r.links == d1.links - SlotsFrom(d1, ft, i + 1)
      && (forall p: nat :: p < |d1.used| ==> (r.used[p] <==> d1.used[p] && p !in Released(d1, ft, i + 1)))
      && r.index == d1.index - Digests(h, d1.content, Released(d1, ft, i + 1))
      && Released(d, ft, i) == Released(d1, ft, i + 1) + if p != 0 && LinksTo(d1.links, p) == {} then {p} else {}
    ensures r.links == d.links - SlotsFrom(d, ft, i)
    ensures forall p: nat :: p < |d.used| ==> (r.used[p] <==> d.used[p] && p !in Released(d, ft, i))
    ensures r.index == d.index - Digests(h, d.content, Released(d, ft, i))
  {
    var d1 := DeleteOne(h, d, ft, i);
    var p := d.metas[ft].blocks[i];
    DeleteOneCounts(h, d, ft, i);
    assert SlotsFrom(d, ft, i) == {Slot(ft, i)} + SlotsFrom(d1, ft, i + 1);
    DropInTwoSteps(d.links, {Slot(ft, i)}, SlotsFrom(d1, ft, i + 1));
    var released := Released(d1, ft, i + 1);
    hide DeleteOne, LinksTo, Released, Counted, SlotsFrom, LinkedFrom;
    if p != 0 && LinksTo(d1.links, p) == {} {
      DigestsAdd(h, d.content, released, p);
      DropInTwoSteps(d.index, {h(d.content[p])}, Digests(h, d.content, released));
    } else {
      assert released + {} == released;
    }
  }

  lemma DropInTwoSteps<K, V>(m: map<K, V>, first: set<K>, rest: set<K>)
    ensures m - first - rest == m - (first + rest)
  {
  }

  lemma DigestsAdd(h: Block -> Digest, content: seq<Block>, ps: set<nat>, p: nat)
    requires p < |content|
    ensures Digests(h, content, ps + {p}) == {h(content[p])} + Digests(h, content, ps)
  {
  }

  lemma ReleasedStep(h: Block -> Digest, d: Disk, ft: FileTag, i: nat)
    requires LinkedFrom(d, ft, i) && i < |d.metas[ft].blocks| && Counted(d)
    ensures var d1 := DeleteOne(h, d, ft, i);
      var p := d.metas[ft].blocks[i];
      Released(d, ft, i) == Released(d1, ft, i + 1) + if p != 0 && LinksTo(d1.links, p) == {} then {p} else {}
  {
    var d1 := DeleteOne(h, d, ft, i);
    var blocks := d.metas[ft].blocks;
    var p := blocks[i];
    DeleteOneCounts(h, d, ft, i);
    var rest := d.links - SlotsFrom(d, ft, i);
    assert rest == d1.links - SlotsFrom(d1, ft, i + 1);
    assert blocks[i..] == [p] + blocks[i + 1..];
    if p != 0 {
      if LinksTo(d1.links, p) == {} {
        assert LinksTo(rest, p) <= LinksTo(d1.links, p);
      } else if LinksTo(rest, p) == {} {
        LaterBlock(d, d1.links, ft, i, p);
      }
    }
    hide DeleteOne, Counted, LinksTo, LinkedFrom, SlotsFrom;
  }

  /** A link that the rest of the loop takes away is of a later block. */
  lemma LaterBlock(d: Disk, links: map<Slot, nat>, ft: FileTag, i: nat, p: nat)
    requires LinkedFrom(d, ft, i) && i < |d.metas[ft].blocks| && links == d.links - {Slot(ft, i)}
    requires LinksTo(links, p) != {} && LinksTo(d.links - SlotsFrom(d, ft, i), p) == {}
    ensures p in d.metas[ft].blocks[i + 1..]
  {
    var s :| s in LinksTo(links, p);
    assert s !in LinksTo(d.links - SlotsFrom(d, ft, i), p);
    assert d.metas[ft].blocks[i + 1..][s.pos - (i + 1)] == p;
  }

  lemma DeleteConserves(h: Block -> Digest, blockSize: nat, d: Disk, ft: FileTag)
    requires Conserved(blockSize, d)
    ensures Conserved(blockSize, DeleteFile(h, d, ft).0)
  {
    if !IsBaseFile(ft) && ft in d.metas {
      AllLinked(d, ft);
      DeleteFromEffect(h, d, ft, 0);
      var r := DeleteFile(h, d, ft).0;
      DroppedFileWellFormed(d, r, ft);
      DroppedFileNoLeak(d, r, ft);
    }
  }

  lemma DroppedFileWellFormed(d: Disk, r: Disk, ft: FileTag)
    requires WellFormed(d) && ft in d.metas && Geometry(r)
    requires r.links == d.links - SlotsFrom(d, ft, 0) && r.metas == d.metas - {ft}
    ensures WellFormed(r)
  {
    assert forall s :: HasBlock(r, s) <==> HasBlock(d, s) && s.ft != ft;
    forall s | s in r.links
      ensures HasBlock(r, s) && r.links[s] == r.metas[s.ft].blocks[s.pos]
    {
      assert s !in SlotsFrom(d, ft, 0) && HasBlock(d, s);
    }
  }

  lemma DroppedFileNoLeak(d: Disk, r: Disk, ft: FileTag)
    requires WellFormed(d) && ft in d.metas && NoLeak(d) && |r.used| == |d.used|
    requires r.links == d.links - SlotsFrom(d, ft, 0)
    requires forall p: nat :: p < |d.used| ==> (r.used[p] <==> d.used[p] && p !in Released(d, ft, 0))
    ensures NoLeak(r)
  {
    forall p: nat | 0 < p < |r.used| && r.used[p]
      ensures LinksTo(r.links, p) != {}
    {
      var s :| s in LinksTo(d.links, p);
      if s in SlotsFrom(d, ft, 0) {
        assert d.metas[ft].blocks[0..][s.pos] == p;
      } else {
        assert s in LinksTo(r.links, p);
      }
    }
  }

  lemma AllLinked(d: Disk, ft: FileTag)
    requires WellFormed(d) && ft in d.metas
    ensures LinkedFrom(d, ft, 0)
  {
    forall j | 0 <= j < |d.metas[ft].blocks|
      ensures Slot(ft, j) in d.links && d.links[Slot(ft, j)] == d.metas[ft].blocks[j]
    {
      assert HasBlock(d, Slot(ft, j));
    }
  }

  // ---------------------------------------------------------------- runs

  function Step(h: Block -> Digest, blockSize: nat, d: Disk, op: Op): (Disk, Reply)
    requires WellFormed(d) && 0 < blockSize
  {
    match op
    case Create(ft) => CreateFile(d, ft)
    case Truncate(ft, size) => TruncateFile(blockSize, d, ft, size)
    case Write(ft, l, data) => WriteFile(d, ft, l, data)
    case Read(ft, l) => (d, ReadFile(d, ft, l))
    case Commit(ft) => CommitFile(h, d, ft)
    case Tag(src, ft) => TagFile(d, src, ft)
    case Delete(ft) => DeleteFile(h, d, ft)
  }

  lemma TruncateConserves(blockSize: nat, d: Disk, ft: FileTag, size: nat)
    requires Conserved(blockSize, d) && 0 < blockSize
    ensures Conserved(blockSize, TruncateFile(blockSize, d, ft, size).0)
  {
    hide Geometry, LinksMatch, Counted, NoLeak, ZeroIntact, Grow, Shrink, SetSize, NeededBlocks;
    if ft in d.metas {
      var needed := NeededBlocks(blockSize, size);
      GrowConserves(blockSize, d, ft, needed);
      ShrinkConserves(blockSize, Grow(d, ft, needed), ft, needed);
      SetSizeConserves(blockSize, Shrink(Grow(d, ft, needed), ft, needed), ft, size);
    }
  }

  lemma SetSizeConserves(blockSize: nat, d: Disk, ft: FileTag, size: int)
    requires Conserved(blockSize, d) && ft in d.metas
    ensures Conserved(blockSize, SetSize(d, ft, size))
  {
  }

  lemma TagFileConserves(blockSize: nat, d: Disk, src: FileTag, dst: FileTag)
    requires Conserved(blockSize, d)
    ensures Conserved(blockSize, TagFile(d, src, dst).0)
  {
    if dst !in d.metas {
      var d1 := CreateFile(d, dst).0;
      if src in d1.metas {
        TagConserves(blockSize, SetSize(d1, dst, d1.metas[src].tamanio), dst, d1.metas[src].blocks, 0);
      }
    }
  }

  lemma CommitFileConserves(h: Block -> Digest, blockSize: nat, d: Disk, ft: FileTag)
    requires Conserved(blockSize, d)
    ensures Conserved(blockSize, CommitFile(h, d, ft).0)
  {
    if ft in d.metas { CommitConserves(h, blockSize, d, ft, 0); }
  }

  lemma StepConserves(h: Block -> Digest, blockSize: nat, d: Disk, op: Op)
    requires Conserved(blockSize, d) && 0 < blockSize
    ensures Conserved(blockSize, Step(h, blockSize, d, op).0)
    ensures |Step(h, blockSize, d, op).0.content| == |d.content|
  {
    match op {
      case Create(ft) =>
      case Truncate(ft, size) => TruncateConserves(blockSize, d, ft, size);
      case Write(ft, l, data) => WriteConserves(blockSize, d, ft, l, data);
      case Read(ft, l) =>
      case Commit(ft) => CommitFileConserves(h, blockSize, d, ft);
      case Tag(src, dst) => TagFileConserves(blockSize, d, src, dst);
      case Delete(ft) => DeleteConserves(h, blockSize, d, ft);
    }
  }

  /** The disk and the replies after a run of operations. */
  function Run(h: Block -> Digest, blockSize: nat, d: Disk, ops: seq<Op>): (r: (Disk, seq<Reply>))
    requires Conserved(blockSize, d) && 0 < blockSize
    ensures Conserved(blockSize, r.0) && |r.0.content| == |d.content|
    ensures |r.1| == |ops|
    decreases |ops|
  {
    if ops == [] then (d, [])
    else
      StepConserves(h, blockSize, d, ops[0]);
      var (d1, reply) := Step(h, blockSize, d, ops[0]);
      var (d2, replies) := Run(h, blockSize, d1, ops[1..]);
      (d2, [reply] + replies)
  }

  /** A fresh start has one bit per block exactly when the block count fills whole bytes. */
  lemma FreshConserved(h: Block -> Digest, blockSize: nat, n: nat)
    requires 0 < n
    ensures Conserved(blockSize, FreshDisk(h, blockSize, n)) <==> n % 8 == 0
  {
    var d := FreshDisk(h, blockSize, n);
    var s := Slot(FileTag("initial_file", "BASE"), 0);
    forall p: nat | p < n
      ensures LinksTo(d.links, p) == if p == 0 then {s} else {}
    {
    }
    assert HasBlock(d, s);
  }
}
