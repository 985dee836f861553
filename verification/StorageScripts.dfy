/** What the conditions of TAG and DELETE ask of the scripts, without looking at the disk: it is
    enough to follow, beside the contents, which blocks of files in progress have been written. */
module StorageScripts {
  import opened StorageModel
  import opened StorageSpec
  import opened StorageConservation
  import opened StorageInvariant
  import opened StorageDiscipline
  import opened StorageRefinement
  import opened StorageRuns

  /** For each logical block: was it written since it came from TRUNCATE, TAG or a COMMIT? */
  type Written = map<FileTag, seq<bool>>

  ghost predicate Aligned(m: FileMap, w: Written) {
    w.Keys == m.Keys && forall ft :: ft in m ==> |w[ft]| == |m[ft].blocks|
  }

  function Clean(n: nat): seq<bool> {
    seq(n, _ => false)
  }

  function ResizedMarks(marks: seq<bool>, needed: nat): seq<bool> {
    if needed <= |marks| then marks[..needed] else marks + Clean(needed - |marks|)
  }

  /** The marks after an operation that is not refused for lack of space. */
  function Marks(blockSize: nat, m: FileMap, w: Written, op: Op): Written
    requires 0 < blockSize && Aligned(m, w)
  {
    if MapStep(blockSize, m, op).1 != OpExitosa then
      if op.Tag? && op.ft !in m then w[op.ft := []] else w
    else
      match op
      case Create(ft) => w[ft := []]
      case Truncate(ft, size) => w[ft := ResizedMarks(w[ft], NeededBlocks(blockSize, size))]
      case Write(ft, l, _) => w[ft := w[ft][l := true]]
      case Read(_, _) => w
      case Commit(ft) => w[ft := Clean(|w[ft]|)]
      case Tag(src, ft) => if src == ft then w[ft := []] else w[ft := w[src]]
      case Delete(ft) => w - {ft}
  }

  ghost predicate InCommited(m: FileMap, c: Block) {
    exists g :: g in m && m[g].estado == Commited && c in m[g].blocks
  }

  /** A mark of `ft` at `i` that says so. */
  predicate MarkedAt(w: Written, ft: FileTag, i: nat) {
    ft in w && i < |w[ft]| && w[ft][i]
  }

  /** A content of `ft` that another COMMITED file has as well, if it is not the zero block. */
  ghost predicate Kept(blockSize: nat, m: FileMap, ft: FileTag, c: Block)
    requires ft in m
  {
    c == ZeroBlock(blockSize) || c !in m[ft].blocks || InCommited(m - {ft}, c)
  }

  /** TAG: no block of the source has been written.  DELETE of a file in progress: what it wrote is
      neither the zero block nor in a COMMITED file.  DELETE of a COMMITED file: contents other
      than zero that an unwritten block of another file has as well are in another COMMITED file. */
  ghost predicate ScriptSafe(blockSize: nat, m: FileMap, w: Written, op: Op) {
    match op
    case Tag(src, dst) => dst in m || src !in m || forall i :: !MarkedAt(w, src, i)
    case Delete(ft) =>
      IsBaseFile(ft) || ft !in m ||
      if m[ft].estado == Commited then
        forall g, i :: g in m && g != ft && 0 <= i < |m[g].blocks| && !MarkedAt(w, g, i) ==>
          Kept(blockSize, m, ft, m[g].blocks[i])
      else
        forall i :: 0 <= i < |m[ft].blocks| && MarkedAt(w, ft, i) ==>
          m[ft].blocks[i] != ZeroBlock(blockSize) && !InCommited(m, m[ft].blocks[i])
    case _ => true
  }

  // ---------------------------------------------------------------- the marks tell what is indexed

  /** A block is marked exactly when it is not the index's block for its content. */
  ghost predicate Tracks(h: Block -> Digest, d: Disk, w: Written) {
    && w.Keys == d.metas.Keys
    && (forall ft :: ft in d.metas ==> |w[ft]| == |d.metas[ft].blocks|)
    && (forall ft, i :: ft in d.metas && 0 <= i < |d.metas[ft].blocks| ==>
          (w[ft][i] <==> !Indexed(h, d, d.metas[ft].blocks[i])))
  }

  lemma ContentIs(d: Disk, ft: FileTag, i: nat)
    requires WellFormed(d) && HasBlock(d, Slot(ft, i))
    ensures var p := d.metas[ft].blocks[i];
      && p < |d.content| && Slot(ft, i) in d.links && d.links[Slot(ft, i)] == p
      && ft in Abs(d) && i < |Abs(d)[ft].blocks| && Abs(d)[ft].blocks[i] == d.content[p]
  {
  }

  /** A content is in the index exactly when it is the zero block or in a COMMITED file. */
  lemma IndexHas(h: Block -> Digest, blockSize: nat, d: Disk, c: Block)
    requires Injective(h) && Inv(h, blockSize, d)
    ensures h(c) in d.index <==> c == ZeroBlock(blockSize) || InCommited(Abs(d), c)
  {
    assert WellFormed(d);
    hide InvPending, Indexed, Geometry, LinksMatch;
    ZeroIndexed(h, blockSize, d);
    IndexedMeans(h, d, 0);
    if h(c) in d.index && c != ZeroBlock(blockSize) {
      IndexedIsCommited(h, blockSize, d, c);
    }
    if InCommited(Abs(d), c) {
      var g :| g in Abs(d) && Abs(d)[g].estado == Commited && c in Abs(d)[g].blocks;
      var i :| 0 <= i < |Abs(d)[g].blocks| && Abs(d)[g].blocks[i] == c;
      assert HasBlock(d, Slot(g, i));
      ContentIs(d, g, i);
      CommitedIndexed(h, blockSize, d, g, i);
      assert h(c) in d.index by { IndexedMeans(h, d, d.metas[g].blocks[i]); }
    }
  }

  lemma IndexedMeans(h: Block -> Digest, d: Disk, p: nat)
    requires Indexed(h, d, p)
    ensures p < |d.content| && h(d.content[p]) in d.index && d.index[h(d.content[p])] == p
  {
  }

  lemma IndexedIsCommited(h: Block -> Digest, blockSize: nat, d: Disk, c: Block)
    requires Injective(h) && Inv(h, blockSize, d) && h(c) in d.index && c != ZeroBlock(blockSize)
    ensures InCommited(Abs(d), c)
  {
    hide SealedIndexed, SharedIndexed;
    var q := d.index[h(c)];
    assert h(d.content[q]) == h(c) && d.content[q] == c;
    assert q != 0;
    var t :| IsSealed(d, {}, t) && d.links[t] == q;
    SealedSlot(d, t);
    ContentIs(d, t.ft, t.pos);
  }

  lemma MarkIs(h: Block -> Digest, d: Disk, w: Written, ft: FileTag, i: nat)
    requires Tracks(h, d, w) && ft in d.metas && i < |d.metas[ft].blocks|
    ensures MarkedAt(w, ft, i) <==> !Indexed(h, d, d.metas[ft].blocks[i])
  {
  }

  lemma TagSafeIff(h: Block -> Digest, d: Disk, w: Written, src: FileTag, dst: FileTag)
    requires Tracks(h, d, w)
    ensures TagSafe(h, d, src, dst) <==> dst in d.metas || src !in d.metas || forall i :: !MarkedAt(w, src, i)
  {
    if dst !in d.metas && src in d.metas {
      hide Indexed;
      var blocks := d.metas[src].blocks;
      if TagSafe(h, d, src, dst) {
        forall i: nat ensures !MarkedAt(w, src, i) { if i < |blocks| { MarkIs(h, d, w, src, i); } }
      }
      if forall i: nat :: !MarkedAt(w, src, i) {
        forall j: nat | j < |blocks| ensures Indexed(h, d, blocks[j]) { MarkIs(h, d, w, src, j); }
      }
    }
  }

  // ---------------------------------------------------------------- DELETE of a file in progress

  /** A marked block is released with its file. */
  lemma MarkedReleased(h: Block -> Digest, blockSize: nat, d: Disk, ft: FileTag, i: nat)
    requires Inv(h, blockSize, d) && HasBlock(d, Slot(ft, i)) && !IsCommited(d, ft)
    requires !Indexed(h, d, d.metas[ft].blocks[i])
    ensures d.metas[ft].blocks[i] in Released(d, ft, 0)
  {
    var (s, p) := (Slot(ft, i), d.metas[ft].blocks[i]);
    assert s in d.links && d.links[s] == p;
    assert p != 0 && d.nlink[p] <= 2;
    ExclusiveNotIndexed(h, blockSize, d, s);
    hide Geometry, LinksMatch, InvPending, Indexed;
    OnlyLinkReleased(d, ft, i);
  }

  lemma OnlyLinkReleased(d: Disk, ft: FileTag, i: nat)
    requires HasBlock(d, Slot(ft, i)) && d.metas[ft].blocks[i] != 0
    requires LinksTo(d.links, d.metas[ft].blocks[i]) == {Slot(ft, i)}
    ensures d.metas[ft].blocks[i] in Released(d, ft, 0)
  {
    var p := d.metas[ft].blocks[i];
    assert Slot(ft, i) in SlotsFrom(d, ft, 0);
    var rest := d.links - SlotsFrom(d, ft, 0);
    assert LinksTo(rest, p) <= LinksTo(d.links, p);
    assert LinksTo(rest, p) == {};
    assert d.metas[ft].blocks[0..][i] == p;
  }

  lemma DeleteInProgressIff(h: Block -> Digest, blockSize: nat, d: Disk, w: Written, ft: FileTag)
    requires Injective(h) && Inv(h, blockSize, d) && Tracks(h, d, w)
    requires ft in d.metas && !IsCommited(d, ft) && !IsBaseFile(ft)
    ensures DeleteSafe(h, d, ft) <==> ScriptSafe(blockSize, Abs(d), w, Delete(ft))
  {
    assert WellFormed(d);
    hide Geometry, LinksMatch, InvPending, Indexed, Released, Tracks, Abs, Injective, InCommited;
    FileIs(d, ft);
    if DeleteSafe(h, d, ft) {
      forall i | 0 <= i < |Abs(d)[ft].blocks| && MarkedAt(w, ft, i)
        ensures Abs(d)[ft].blocks[i] != ZeroBlock(blockSize) && !InCommited(Abs(d), Abs(d)[ft].blocks[i])
      {
        MarkedNew(h, blockSize, d, w, ft, i);
      }
    }
    if ScriptSafe(blockSize, Abs(d), w, Delete(ft)) {
      forall p: nat | p in Released(d, ft, 0) && p < |d.content| && h(d.content[p]) in d.index
        ensures Indexed(h, d, p)
      {
        ReleasedIsBlock(d, ft, p);
        var i :| 0 <= i < |d.metas[ft].blocks| && d.metas[ft].blocks[i] == p;
        UnlistedIndexed(h, blockSize, d, w, ft, i);
      }
    }
  }

  /** A safe DELETE takes no entry of the index away, so marked content has none. */
  lemma MarkedNew(h: Block -> Digest, blockSize: nat, d: Disk, w: Written, ft: FileTag, i: nat)
    requires Injective(h) && Inv(h, blockSize, d) && Tracks(h, d, w) && HasBlock(d, Slot(ft, i)) && MarkedAt(w, ft, i)
    requires !IsCommited(d, ft) && !IsBaseFile(ft) && DeleteSafe(h, d, ft)
    ensures ft in Abs(d) && i < |Abs(d)[ft].blocks|
    ensures Abs(d)[ft].blocks[i] != ZeroBlock(blockSize) && !InCommited(Abs(d), Abs(d)[ft].blocks[i])
  {
    assert WellFormed(d);
    hide Geometry, LinksMatch, InvPending, Indexed, Released, Tracks, Abs, Injective, InCommited;
    ContentIs(d, ft, i);
    MarkIs(h, d, w, ft, i);
    MarkedReleased(h, blockSize, d, ft, i);
    IndexHas(h, blockSize, d, Abs(d)[ft].blocks[i]);
  }

  lemma UnlistedIndexed(h: Block -> Digest, blockSize: nat, d: Disk, w: Written, ft: FileTag, i: nat)
    requires Injective(h) && Inv(h, blockSize, d) && Tracks(h, d, w) && HasBlock(d, Slot(ft, i))
    requires ft in Abs(d) && i < |Abs(d)[ft].blocks|
    requires MarkedAt(w, ft, i) ==>
      Abs(d)[ft].blocks[i] != ZeroBlock(blockSize) && !InCommited(Abs(d), Abs(d)[ft].blocks[i])
    requires d.metas[ft].blocks[i] < |d.content| && h(d.content[d.metas[ft].blocks[i]]) in d.index
    ensures Indexed(h, d, d.metas[ft].blocks[i])
  {
    assert WellFormed(d);
    hide Geometry, LinksMatch, InvPending, Indexed, Tracks, Abs, Injective, InCommited;
    ContentIs(d, ft, i);
    MarkIs(h, d, w, ft, i);
    IndexHas(h, blockSize, d, d.content[d.metas[ft].blocks[i]]);
  }

  lemma FileIs(d: Disk, ft: FileTag)
    ensures ft in Abs(d) <==> ft in d.metas
    ensures ft in d.metas ==>
      && |Abs(d)[ft].blocks| == |d.metas[ft].blocks| && Abs(d)[ft].estado == d.metas[ft].estado
  {
  }

  lemma ReleasedIsBlock(d: Disk, ft: FileTag, p: nat)
    requires ft in d.metas && p in Released(d, ft, 0)
    ensures p in d.metas[ft].blocks
  {
    assert d.metas[ft].blocks[0..] == d.metas[ft].blocks;
  }

  // ---------------------------------------------------------------- DELETE of a COMMITED file

  /** Two indexed blocks with the same content are one. */
  lemma IndexedOnce(h: Block -> Digest, d: Disk, p: nat, q: nat)
    requires Indexed(h, d, p) && Indexed(h, d, q) && d.content[p] == d.content[q]
    ensures p == q
  {
  }

  lemma CommitedIndexed(h: Block -> Digest, blockSize: nat, d: Disk, ft: FileTag, i: nat)
    requires Inv(h, blockSize, d) && IsCommited(d, ft) && HasBlock(d, Slot(ft, i))
    ensures Indexed(h, d, d.metas[ft].blocks[i]) && IsSealed(d, {}, Slot(ft, i))
  {
    assert IsSealed(d, {}, Slot(ft, i));
  }

  lemma ZeroIndexed(h: Block -> Digest, blockSize: nat, d: Disk)
    requires Inv(h, blockSize, d)
    ensures Indexed(h, d, 0) && 0 < |d.content| && d.content[0] == ZeroBlock(blockSize)
  {
  }

  /** The logical blocks of `ft` at `j` and of `g` at `i` share a block other than 0. */
  lemma SharedIff(h: Block -> Digest, blockSize: nat, d: Disk, ft: FileTag, j: nat, g: FileTag, i: nat)
    requires Inv(h, blockSize, d) && IsCommited(d, ft) && HasBlock(d, Slot(ft, j)) && HasBlock(d, Slot(g, i))
    ensures Abs(d)[g].blocks[i] != ZeroBlock(blockSize) && Abs(d)[g].blocks[i] == Abs(d)[ft].blocks[j]
            && Indexed(h, d, d.metas[g].blocks[i])
      <==> d.metas[g].blocks[i] != 0 && d.metas[g].blocks[i] == d.metas[ft].blocks[j]
  {
    assert WellFormed(d);
    hide Geometry, LinksMatch, InvPending, Indexed, Abs;
    ContentIs(d, ft, j);
    ContentIs(d, g, i);
    ZeroIndexed(h, blockSize, d);
    CommitedIndexed(h, blockSize, d, ft, j);
    var (p, q) := (d.metas[ft].blocks[j], d.metas[g].blocks[i]);
    if Indexed(h, d, q) && d.content[q] == d.content[p] { IndexedOnce(h, d, p, q); }
    if p == q && d.content[p] == d.content[0] { IndexedOnce(h, d, p, 0); }
  }

  /** Another COMMITED file has the content exactly when one is linked to the block. */
  lemma ElsewhereIff(h: Block -> Digest, blockSize: nat, d: Disk, ft: FileTag, p: nat)
    requires Inv(h, blockSize, d) && Indexed(h, d, p)
    ensures CommitedElsewhere(d, ft, p) <==> InCommited(Abs(d) - {ft}, d.content[p])
  {
    assert WellFormed(d);
    hide Geometry, LinksMatch, InvPending, Indexed, Abs;
    if CommitedElsewhere(d, ft, p) {
      var t: Slot :| t.ft != ft && IsSealed(d, {}, t) && d.links[t] == p;
      SealedSlot(d, t);
      ContentIs(d, t.ft, t.pos);
      FileIs(d, t.ft);
      assert t.ft in Abs(d) - {ft};
    }
    if InCommited(Abs(d) - {ft}, d.content[p]) {
      var g :| g in Abs(d) - {ft} && (Abs(d) - {ft})[g].estado == Commited && d.content[p] in (Abs(d) - {ft})[g].blocks;
      var k :| 0 <= k < |Abs(d)[g].blocks| && Abs(d)[g].blocks[k] == d.content[p];
      FileIs(d, g);
      assert HasBlock(d, Slot(g, k));
      ContentIs(d, g, k);
      CommitedIndexed(h, blockSize, d, g, k);
      IndexedOnce(h, d, p, d.metas[g].blocks[k]);
    }
  }

  lemma SealedSlot(d: Disk, t: Slot)
    requires WellFormed(d) && IsSealed(d, {}, t)
    ensures HasBlock(d, t) && d.metas[t.ft].blocks[t.pos] == d.links[t] && IsCommited(d, t.ft)
  {
  }

  lemma DeleteCommitedIff(h: Block -> Digest, blockSize: nat, d: Disk, w: Written, ft: FileTag)
    requires Inv(h, blockSize, d) && Tracks(h, d, w) && IsCommited(d, ft) && !IsBaseFile(ft)
    ensures DeleteSafe(h, d, ft) <==> ScriptSafe(blockSize, Abs(d), w, Delete(ft))
  {
    assert WellFormed(d);
    hide Geometry, LinksMatch, InvPending, Indexed, Tracks, Abs, InCommited, CommitedElsewhere;
    FileIs(d, ft);
    if DeleteSafe(h, d, ft) {
      forall g, i | g in Abs(d) && g != ft && 0 <= i < |Abs(d)[g].blocks| && !MarkedAt(w, g, i)
        ensures Kept(blockSize, Abs(d), ft, Abs(d)[g].blocks[i])
      {
        FileIs(d, g);
        SafeKeeps(h, blockSize, d, w, ft, g, i);
      }
    }
    if ScriptSafe(blockSize, Abs(d), w, Delete(ft)) {
      forall s | s in d.links && s.ft != ft && d.links[s] != 0 && d.links[s] in d.metas[ft].blocks
        ensures CommitedElsewhere(d, ft, d.links[s])
      {
        KeptElsewhere(h, blockSize, d, w, ft, s);
      }
    }
  }

  lemma SafeKeeps(h: Block -> Digest, blockSize: nat, d: Disk, w: Written, ft: FileTag, g: FileTag, i: nat)
    requires Inv(h, blockSize, d) && Tracks(h, d, w) && IsCommited(d, ft) && !IsBaseFile(ft) && DeleteSafe(h, d, ft)
    requires HasBlock(d, Slot(g, i)) && g != ft && !MarkedAt(w, g, i) && g in Abs(d) && i < |Abs(d)[g].blocks|
    requires ft in Abs(d)
    ensures Kept(blockSize, Abs(d), ft, Abs(d)[g].blocks[i])
  {
    assert WellFormed(d);
    hide Geometry, LinksMatch, InvPending, Indexed, Tracks, Abs, InCommited, CommitedElsewhere;
    var c := Abs(d)[g].blocks[i];
    ContentIs(d, g, i);
    MarkIs(h, d, w, g, i);
    FileIs(d, ft);
    if c != ZeroBlock(blockSize) && c in Abs(d)[ft].blocks {
      var j :| 0 <= j < |Abs(d)[ft].blocks| && Abs(d)[ft].blocks[j] == c;
      assert HasBlock(d, Slot(ft, j));
      SharedIff(h, blockSize, d, ft, j, g, i);
      ElsewhereIff(h, blockSize, d, ft, d.metas[g].blocks[i]);
    }
  }

  lemma KeptElsewhere(h: Block -> Digest, blockSize: nat, d: Disk, w: Written, ft: FileTag, s: Slot)
    requires Inv(h, blockSize, d) && Tracks(h, d, w) && IsCommited(d, ft) && !IsBaseFile(ft)
    requires ScriptSafe(blockSize, Abs(d), w, Delete(ft))
    requires s in d.links && s.ft != ft && d.links[s] != 0 && d.links[s] in d.metas[ft].blocks
    ensures CommitedElsewhere(d, ft, d.links[s])
  {
    assert HasBlock(d, s) && d.metas[s.ft].blocks[s.pos] == d.links[s];
    assert WellFormed(d);
    hide Geometry, LinksMatch, InvPending, Indexed, Tracks, Abs, InCommited, CommitedElsewhere;
    var j :| 0 <= j < |d.metas[ft].blocks| && d.metas[ft].blocks[j] == d.links[s];
    assert HasBlock(d, Slot(ft, j));
    FileIs(d, ft);
    FileIs(d, s.ft);
    ContentIs(d, s.ft, s.pos);
    ContentIs(d, ft, j);
    SharedIff(h, blockSize, d, ft, j, s.ft, s.pos);
    MarkIs(h, d, w, s.ft, s.pos);
    assert Kept(blockSize, Abs(d), ft, Abs(d)[s.ft].blocks[s.pos]);
    ElsewhereIff(h, blockSize, d, ft, d.links[s]);
  }

  /** The disk's conditions are exactly the script's. */
  lemma SafeIff(h: Block -> Digest, blockSize: nat, d: Disk, w: Written, op: Op)
    requires Injective(h) && Inv(h, blockSize, d) && Tracks(h, d, w)
    ensures Safe(h, d, op) <==> ScriptSafe(blockSize, Abs(d), w, op)
  {
    hide InvPending, Tracks, Injective, TagSafe;
    match op
    case Tag(src, dst) =>
      TagSafeIff(h, d, w, src, dst);
    case Delete(ft) =>
      FileIs(d, ft);
      if ft in d.metas && !IsBaseFile(ft) {
        if IsCommited(d, ft) {
          DeleteCommitedIff(h, blockSize, d, w, ft);
        } else {
          DeleteInProgressIff(h, blockSize, d, w, ft);
        }
      }
    case _ =>
  }

  // ---------------------------------------------------------------- the marks follow the disk

  /** Blocks of the files other than `ft` are indexed as they were. */
  ghost predicate SameElsewhere(h: Block -> Digest, d: Disk, r: Disk, ft: FileTag) {
    forall g, i :: g in d.metas && g != ft && 0 <= i < |d.metas[g].blocks| ==>
      (Indexed(h, r, d.metas[g].blocks[i]) <==> Indexed(h, d, d.metas[g].blocks[i]))
  }

  ghost predicate MarksFit(h: Block -> Digest, r: Disk, blocks: seq<nat>, marks: seq<bool>) {
    |marks| == |blocks| && forall i :: 0 <= i < |blocks| ==> (marks[i] <==> !Indexed(h, r, blocks[i]))
  }

  lemma TracksFrame(h: Block -> Digest, d: Disk, w: Written, r: Disk, ft: FileTag, meta: Metadata, marks: seq<bool>)
    requires Tracks(h, d, w) && r.metas == d.metas[ft := meta]
    requires SameElsewhere(h, d, r, ft) && MarksFit(h, r, meta.blocks, marks)
    ensures Tracks(h, r, w[ft := marks])
  {
    hide Indexed;
  }

  lemma IndexSame(h: Block -> Digest, d: Disk, r: Disk, ft: FileTag)
    requires r.content == d.content && r.index == d.index
    ensures SameElsewhere(h, d, r, ft) && forall p: nat :: Indexed(h, r, p) <==> Indexed(h, d, p)
  {
  }

  lemma CreateTracks(h: Block -> Digest, d: Disk, w: Written, ft: FileTag)
    requires WellFormed(d) && Tracks(h, d, w) && ft !in d.metas
    ensures Tracks(h, CreateFile(d, ft).0, w[ft := []])
  {
    hide Geometry, LinksMatch, Indexed, Tracks;
    var r := CreateFile(d, ft).0;
    IndexSame(h, d, r, ft);
    TracksFrame(h, d, w, r, ft, Metadata(0, [], WorkInProgress), []);
  }

  // ---------------------------------------------------------------- TRUNCATE

  function Zeros(n: nat): seq<nat> {
    seq(n, _ => 0)
  }

  function ResizedBlocks(blocks: seq<nat>, needed: nat): seq<nat> {
    if needed <= |blocks| then blocks[..needed] else blocks + Zeros(needed - |blocks|)
  }

  /** The metadata after TRUNCATE, and everything else the marks depend on. */
  lemma {:induction false} GrowMetas(d: Disk, ft: FileTag, needed: nat)
    requires WellFormed(d) && ft in d.metas && |d.metas[ft].blocks| <= needed
    ensures var r := Grow(d, ft, needed);
      && r.index == d.index && r.content == d.content
      && r.metas == d.metas[ft := d.metas[ft].(blocks := ResizedBlocks(d.metas[ft].blocks, needed))]
    decreases needed - |d.metas[ft].blocks|
  {
    hide Geometry, LinksMatch, GrowOne;
    var b := d.metas[ft].blocks;
    if |b| < needed {
      var d1 := GrowOne(d, ft);
      GrowOneMetas(d, ft);
      GrowMetas(d1, ft, needed);
      assert ResizedBlocks(b + [0], needed) == ResizedBlocks(b, needed);
      var meta := d.metas[ft].(blocks := ResizedBlocks(b, needed));
      assert d1.metas[ft := meta] == d.metas[ft := meta];
    } else {
      assert ResizedBlocks(b, needed) == b;
      assert d.metas[ft := d.metas[ft]] == d.metas;
    }
  }

  lemma GrowOneMetas(d: Disk, ft: FileTag)
    requires WellFormed(d) && ft in d.metas
    ensures var (r, b) := (GrowOne(d, ft), d.metas[ft].blocks);
      r.index == d.index && r.metas == d.metas[ft := d.metas[ft].(blocks := b + [0])]
  {
    hide Geometry, LinksMatch;
  }

  lemma {:induction false} ShrinkMetas(d: Disk, ft: FileTag, needed: nat)
    requires WellFormed(d) && ft in d.metas && needed <= |d.metas[ft].blocks|
    ensures var r := Shrink(d, ft, needed);
      && r.index == d.index && r.content == d.content
      && r.metas == d.metas[ft := d.metas[ft].(blocks := ResizedBlocks(d.metas[ft].blocks, needed))]
    decreases |d.metas[ft].blocks|
  {
    hide Geometry, LinksMatch, ShrinkOne;
    var b := d.metas[ft].blocks;
    if needed < |b| {
      ShrinkOneMetas(d, ft);
      var d1 := ShrinkOne(d, ft);
      ShrinkMetas(d1, ft, needed);
      assert b[..|b| - 1][..needed] == b[..needed];
      var meta := d.metas[ft].(blocks := b[..needed]);
      assert d1.metas[ft := meta] == d.metas[ft := meta];
    } else {
      assert ResizedBlocks(b, needed) == b;
      assert d.metas[ft := d.metas[ft]] == d.metas;
    }
  }

  lemma TruncateMetas(blockSize: nat, d: Disk, ft: FileTag, size: nat)
    requires WellFormed(d) && 0 < blockSize && ft in d.metas && d.metas[ft].estado != Commited
    ensures var (r, needed) := (TruncateFile(blockSize, d, ft, size).0, NeededBlocks(blockSize, size));
      && r.index == d.index && r.content == d.content
      && r.metas == d.metas[ft := Metadata(size, ResizedBlocks(d.metas[ft].blocks, needed), WorkInProgress)]
  {
    hide Geometry, LinksMatch, Grow, Shrink, NeededBlocks;
    var needed := NeededBlocks(blockSize, size);
    var b := d.metas[ft].blocks;
    var d1 := Grow(d, ft, needed);
    if |b| <= needed {
      GrowMetas(d, ft, needed);
      ShrinkMetas(d1, ft, needed);
      assert ResizedBlocks(ResizedBlocks(b, needed), needed) == ResizedBlocks(b, needed);
    } else {
      GrowEnough(d, ft, needed);
      ShrinkMetas(d, ft, needed);
    }
  }

  lemma GrowEnough(d: Disk, ft: FileTag, needed: nat)
    requires WellFormed(d) && ft in d.metas && needed <= |d.metas[ft].blocks|
    ensures Grow(d, ft, needed) == d
  {
  }

  lemma TruncateTracks(h: Block -> Digest, blockSize: nat, d: Disk, w: Written, ft: FileTag, size: nat)
    requires Inv(h, blockSize, d) && 0 < blockSize && Tracks(h, d, w)
    requires ft in d.metas && d.metas[ft].estado != Commited
    ensures ft in w && Tracks(h, TruncateFile(blockSize, d, ft, size).0,
                              w[ft := ResizedMarks(w[ft], NeededBlocks(blockSize, size))])
  {
    assert WellFormed(d) && Indexed(h, d, 0);
    hide Geometry, LinksMatch, InvPending, NeededBlocks, TruncateFile, Indexed, Tracks, MarksFit, ResizedBlocks;
    hide SameElsewhere;
    var needed := NeededBlocks(blockSize, size);
    var r := TruncateFile(blockSize, d, ft, size).0;
    TruncateMetas(blockSize, d, ft, size);
    IndexSame(h, d, r, ft);
    var b := d.metas[ft].blocks;
    FileFits(h, d, w, r, ft);
    ResizedFit(h, r, b, w[ft], needed);
    TracksFrame(h, d, w, r, ft, Metadata(size, ResizedBlocks(b, needed), WorkInProgress), ResizedMarks(w[ft], needed));
  }

  /** The marks of one file, on a disk with the same index and contents. */
  lemma FileFits(h: Block -> Digest, d: Disk, w: Written, r: Disk, ft: FileTag)
    requires Tracks(h, d, w) && ft in d.metas && forall p: nat :: Indexed(h, r, p) <==> Indexed(h, d, p)
    ensures ft in w && MarksFit(h, r, d.metas[ft].blocks, w[ft])
  {
    hide Indexed;
  }

  lemma ResizedFit(h: Block -> Digest, r: Disk, b: seq<nat>, marks: seq<bool>, needed: nat)
    requires MarksFit(h, r, b, marks) && Indexed(h, r, 0)
    ensures MarksFit(h, r, ResizedBlocks(b, needed), ResizedMarks(marks, needed))
  {
    hide Indexed;
  }

  // ---------------------------------------------------------------- WRITE

  /** The block written has no other reference and no index entry names it. */
  ghost predicate Private(d: Disk, ft: FileTag, l: nat, q: nat) {
    && 0 < q < |d.content| && HasBlock(d, Slot(ft, l))
    && (forall k :: k in d.index ==> d.index[k] != q)
    && forall g, i :: g in d.metas && 0 <= i < |d.metas[g].blocks| && (g != ft || i != l) ==> d.metas[g].blocks[i] != q
  }

  lemma PrivateTracks(h: Block -> Digest, d: Disk, w: Written, r: Disk, ft: FileTag, l: nat, q: nat, data: Block)
    requires Tracks(h, d, w) && Private(d, ft, l, q)
    requires r.index == d.index && r.content == d.content[q := data]
    requires r.metas == d.metas[ft := d.metas[ft].(blocks := d.metas[ft].blocks[l := q])]
    ensures Tracks(h, r, w[ft := w[ft][l := true]])
  {
    var blocks := d.metas[ft].blocks;
    assert !Indexed(h, r, q);
    assert forall p: nat :: p != q ==> (Indexed(h, r, p) <==> Indexed(h, d, p));
    hide Indexed;
    assert SameElsewhere(h, d, r, ft);
    assert MarksFit(h, r, blocks[l := q], w[ft][l := true]);
    hide Tracks, MarksFit, SameElsewhere;
    TracksFrame(h, d, w, r, ft, d.metas[ft].(blocks := blocks[l := q]), w[ft][l := true]);
  }

  lemma UnlinkedPrivate(d: Disk, ft: FileTag, l: nat, q: nat)
    requires WellFormed(d) && HasBlock(d, Slot(ft, l)) && 0 < q < |d.content| && LinksTo(d.links, q) <= {Slot(ft, l)}
    requires forall k :: k in d.index ==> d.index[k] != q
    ensures Private(d, ft, l, q)
  {
    forall g, i | g in d.metas && 0 <= i < |d.metas[g].blocks| && (g != ft || i != l)
      ensures d.metas[g].blocks[i] != q
    {
      assert HasBlock(d, Slot(g, i)) && Slot(g, i) !in LinksTo(d.links, q);
    }
  }

  lemma WriteTracks(h: Block -> Digest, blockSize: nat, d: Disk, w: Written, ft: FileTag, l: nat, data: Block)
    requires Inv(h, blockSize, d) && Tracks(h, d, w) && HasBlock(d, Slot(ft, l)) && d.metas[ft].estado != Commited
    requires WriteFile(d, ft, l, data).1 == OpExitosa
    ensures Tracks(h, WriteFile(d, ft, l, data).0, w[ft := w[ft][l := true]])
  {
    assert WellFormed(d);
    hide InvPending, Geometry, LinksMatch, Tracks, Overwrite, Redirect;
    var p := d.metas[ft].blocks[l];
    ContentIs(d, ft, l);
    assert p < |d.nlink| by { SizesEqual(d); }
    if MustCopy(d, p) {
      CopyTracks(h, blockSize, d, w, ft, l, data);
    } else {
      InPlaceTracks(h, blockSize, d, w, ft, l, data);
    }
  }

  lemma SizesEqual(d: Disk)
    requires WellFormed(d)
    ensures |d.content| == |d.nlink| == |d.used|
  {
  }

  lemma CopyTracks(h: Block -> Digest, blockSize: nat, d: Disk, w: Written, ft: FileTag, l: nat, data: Block)
    requires Inv(h, blockSize, d) && Tracks(h, d, w) && HasBlock(d, Slot(ft, l)) && FindFree(d.used, 1).Some?
    ensures var q := FindFree(d.used, 1).value;
      q < |d.content| && Tracks(h, Overwrite(Redirect(d, ft, l, q), q, data), w[ft := w[ft][l := true]])
  {
    assert WellFormed(d);
    hide InvPending, Geometry, LinksMatch, Tracks, Private, FindFree;
    FreshBlockIsUnused(h, blockSize, d, {});
    var q := FindFree(d.used, 1).value;
    UnlinkedPrivate(d, ft, l, q);
    PrivateTracks(h, d, w, Overwrite(Redirect(d, ft, l, q), q, data), ft, l, q, data);
  }

  lemma InPlaceTracks(h: Block -> Digest, blockSize: nat, d: Disk, w: Written, ft: FileTag, l: nat, data: Block)
    requires Inv(h, blockSize, d) && Tracks(h, d, w) && HasBlock(d, Slot(ft, l)) && !IsCommited(d, ft)
    requires var p := d.metas[ft].blocks[l]; p < |d.nlink| && !MustCopy(d, p)
    ensures var p := d.metas[ft].blocks[l];
      p < |d.content| && Tracks(h, Overwrite(d, p, data), w[ft := w[ft][l := true]])
  {
    assert WellFormed(d);
    hide InvPending, Geometry, LinksMatch, Tracks, Private;
    var p := d.metas[ft].blocks[l];
    ContentIs(d, ft, l);
    ExclusiveNotIndexed(h, blockSize, d, Slot(ft, l));
    UnlinkedPrivate(d, ft, l, p);
    assert d.metas[ft].blocks[l := p] == d.metas[ft].blocks && d.metas[ft := d.metas[ft]] == d.metas;
    PrivateTracks(h, d, w, Overwrite(d, p, data), ft, l, p, data);
  }

  // ---------------------------------------------------------------- COMMIT

  /** The blocks of `ft` and those the index names. */
  ghost predicate Named(d: Disk, ft: FileTag, p: nat) {
    (ft in d.metas && p in d.metas[ft].blocks) || p in d.index.Values
  }

  /** COMMIT keeps the index's entries and names no block that was not named. */
  ghost predicate NamesLess(d: Disk, r: Disk, ft: FileTag) {
    && r.content == d.content
    && (forall k :: k in d.index ==> k in r.index && r.index[k] == d.index[k])
    && (forall p: nat :: Named(r, ft, p) ==> Named(d, ft, p))
    && (forall g :: g != ft && g in d.metas ==> g in r.metas && r.metas[g] == d.metas[g])
    && r.metas.Keys == d.metas.Keys
  }

  lemma CommitOneNames(h: Block -> Digest, d: Disk, ft: FileTag, i: nat)
    requires WellFormed(d) && HasBlock(d, Slot(ft, i))
    ensures NamesLess(d, CommitOne(h, d, ft, i), ft)
  {
    ContentIs(d, ft, i);
    hide Geometry, LinksMatch, Reassign, NamesLess;
    var p := d.metas[ft].blocks[i];
    var key := LogicalDigest(h, d, Slot(ft, i));
    if key !in d.index {
      LoadNames(d, ft, key, p);
    } else if d.index[key] == p {
      SameNames(d, ft);
    } else {
      IndexInDisk(d, key);
      ReassignNames(d, ft, i, d.index[key]);
    }
  }

  lemma SameNames(d: Disk, ft: FileTag)
    ensures NamesLess(d, d, ft)
  {
  }

  lemma LoadNames(d: Disk, ft: FileTag, key: Digest, p: nat)
    requires ft in d.metas && key !in d.index && p in d.metas[ft].blocks
    ensures NamesLess(d, d.(index := d.index[key := p]), ft)
  {
  }

  lemma IndexInDisk(d: Disk, key: Digest)
    requires WellFormed(d) && key in d.index
    ensures d.index[key] < |d.content| && d.index[key] in d.index.Values
  {
  }

  lemma ReassignNames(d: Disk, ft: FileTag, i: nat, q: nat)
    requires WellFormed(d) && HasBlock(d, Slot(ft, i)) && q < |d.content| && q in d.index.Values
    ensures NamesLess(d, Reassign(d, ft, i, q), ft)
  {
    hide Geometry, LinksMatch;
    var r := Reassign(d, ft, i, q);
    assert r.index == d.index && r.metas == d.metas[ft := r.metas[ft]];
    hide Reassign;
    forall p: nat | Named(r, ft, p)
      ensures Named(d, ft, p)
    {
      if p !in d.index.Values {
        var j :| 0 <= j < |r.metas[ft].blocks| && r.metas[ft].blocks[j] == p;
        assert d.metas[ft].blocks[j] == p;
      }
    }
  }

  lemma {:induction false} CommitNames(h: Block -> Digest, d: Disk, ft: FileTag, i: nat)
    requires WellFormed(d) && ft in d.metas && i <= |d.metas[ft].blocks|
    ensures NamesLess(d, CommitFrom(h, d, ft, i), ft)
    decreases |d.metas[ft].blocks| - i
  {
    hide Geometry, LinksMatch, Named, CommitOne;
    if i < |d.metas[ft].blocks| {
      assert HasBlock(d, Slot(ft, i));
      CommitOneNames(h, d, ft, i);
      CommitNames(h, CommitOne(h, d, ft, i), ft, i + 1);
    }
  }

  /** A block of a file in progress that the index does not name is its own. */
  lemma UnnamedStays(h: Block -> Digest, blockSize: nat, d: Disk, ft: FileTag, g: FileTag, i: nat)
    requires Inv(h, blockSize, d) && g != ft && HasBlock(d, Slot(g, i)) && Named(d, ft, d.metas[g].blocks[i])
    ensures Indexed(h, d, d.metas[g].blocks[i])
  {
    var p := d.metas[g].blocks[i];
    assert Slot(g, i) in LinksTo(d.links, p);
    if p in d.index.Values {
      var k :| k in d.index && d.index[k] == p;
    } else {
      var j :| 0 <= j < |d.metas[ft].blocks| && d.metas[ft].blocks[j] == p;
      assert HasBlock(d, Slot(ft, j)) && Slot(ft, j) in LinksTo(d.links, p);
      TwoLinks(LinksTo(d.links, p), Slot(g, i), Slot(ft, j));
      hide IndexSound, SealedIndexed;
      assert d.nlink[p] > 2;
    }
  }

  lemma TwoLinks<T>(all: set<T>, x: T, y: T)
    requires x in all && y in all && x != y
    ensures |all| >= 2
  {
    assert {x, y} <= all;
    assert all == {x, y} + (all - {x, y});
  }

  lemma CommitElsewhere(h: Block -> Digest, blockSize: nat, d: Disk, r: Disk, ft: FileTag)
    requires Inv(h, blockSize, d) && NamesLess(d, r, ft)
    ensures SameElsewhere(h, d, r, ft)
  {
    assert WellFormed(d);
    hide InvPending, Geometry, LinksMatch;
    forall g, i | g in d.metas && g != ft && 0 <= i < |d.metas[g].blocks|
      ensures Indexed(h, r, d.metas[g].blocks[i]) <==> Indexed(h, d, d.metas[g].blocks[i])
    {
      var p := d.metas[g].blocks[i];
      assert HasBlock(d, Slot(g, i));
      if Indexed(h, r, p) {
        assert Named(r, ft, p);
        UnnamedStays(h, blockSize, d, ft, g, i);
      }
    }
  }

  lemma CommitTracks(h: Block -> Digest, blockSize: nat, d: Disk, w: Written, ft: FileTag)
    requires Inv(h, blockSize, d) && Tracks(h, d, w) && ft in d.metas
    ensures Tracks(h, CommitFile(h, d, ft).0, w[ft := Clean(|w[ft]|)])
  {
    assert WellFormed(d);
    hide InvPending, Geometry, LinksMatch, Indexed, CommitFrom, Tracks, SameElsewhere, NamesLess, MarksFit, IsCommited;
    var r := CommitFile(h, d, ft).0;
    var c := CommitFrom(h, d, ft, 0);
    CommitInv(h, blockSize, d, ft);
    CommitNames(h, d, ft, 0);
    CommitElsewhere(h, blockSize, d, c, ft);
    SealedSame(h, c, r, d, ft);
    CommitMetas(h, d, ft);
    AllIndexed(h, blockSize, r, ft);
    assert |w[ft]| == |r.metas[ft].blocks| by { TracksAligned(h, d, w); FileIs(d, ft); }
    TracksFrame(h, d, w, r, ft, r.metas[ft], Clean(|w[ft]|));
  }

  lemma CommitMetas(h: Block -> Digest, d: Disk, ft: FileTag)
    requires WellFormed(d) && ft in d.metas
    ensures var r := CommitFile(h, d, ft).0;
      && ft in r.metas && r.metas == d.metas[ft := r.metas[ft]]
      && |r.metas[ft].blocks| == |d.metas[ft].blocks| && IsCommited(r, ft)
  {
    hide Geometry, LinksMatch, CommitFrom, Named;
    CommitNames(h, d, ft, 0);
    CommitKeepsLength(h, d, ft, 0);
  }

  lemma SealedSame(h: Block -> Digest, c: Disk, r: Disk, d: Disk, ft: FileTag)
    requires r.content == c.content && r.index == c.index && SameElsewhere(h, d, c, ft)
    ensures SameElsewhere(h, d, r, ft)
  {
    assert forall p: nat :: Indexed(h, r, p) <==> Indexed(h, c, p);
    hide Indexed;
  }

  lemma {:induction false} CommitKeepsLength(h: Block -> Digest, d: Disk, ft: FileTag, i: nat)
    requires WellFormed(d) && ft in d.metas && i <= |d.metas[ft].blocks|
    ensures var r := CommitFrom(h, d, ft, i); |r.metas[ft].blocks| == |d.metas[ft].blocks|
    decreases |d.metas[ft].blocks| - i
  {
    hide Geometry, LinksMatch, CommitOne;
    if i < |d.metas[ft].blocks| {
      assert HasBlock(d, Slot(ft, i));
      CommitKeepsLength(h, CommitOne(h, d, ft, i), ft, i + 1);
    }
  }

  lemma AllIndexed(h: Block -> Digest, blockSize: nat, r: Disk, ft: FileTag)
    requires Inv(h, blockSize, r) && IsCommited(r, ft)
    ensures MarksFit(h, r, r.metas[ft].blocks, Clean(|r.metas[ft].blocks|))
  {
    hide InvPending, Indexed;
    forall i | 0 <= i < |r.metas[ft].blocks|
      ensures Indexed(h, r, r.metas[ft].blocks[i])
    {
      CommitedIndexed(h, blockSize, r, ft, i);
    }
  }

  // ---------------------------------------------------------------- TAG and DELETE

  lemma TagOneMetas(d: Disk, dst: FileTag, p: nat)
    requires WellFormed(d) && dst in d.metas && p < |d.content|
    ensures TagOne(d, dst, p).metas == d.metas[dst := d.metas[dst].(blocks := d.metas[dst].blocks + [p])]
  {
    hide Geometry, LinksMatch;
  }

  lemma {:induction false} TagFromMetas(d: Disk, dst: FileTag, source: seq<nat>, i: nat)
    requires WellFormed(d) && dst in d.metas && InDisk(d, source) && i <= |source|
    requires d.metas[dst].blocks == source[..i]
    ensures TagFrom(d, dst, source, i).metas == d.metas[dst := d.metas[dst].(blocks := source)]
    decreases |source| - i
  {
    hide Geometry, LinksMatch, TagOne;
    if i < |source| {
      var d1 := TagOne(d, dst, source[i]);
      assert source[..i] + [source[i]] == source[..i + 1];
      TagOneMetas(d, dst, source[i]);
      TagFromMetas(d1, dst, source, i + 1);
    } else {
      assert source[..i] == source;
      assert d.metas[dst := d.metas[dst]] == d.metas;
    }
  }

  lemma TagTracks(h: Block -> Digest, d: Disk, w: Written, src: FileTag, dst: FileTag)
    requires WellFormed(d) && Tracks(h, d, w) && dst !in d.metas && src in d.metas
    ensures Tracks(h, TagFile(d, src, dst).0, w[dst := w[src]])
  {
    var r := TagFile(d, src, dst).0;
    var source := d.metas[src];
    TagMetas(d, src, dst);
    hide Geometry, LinksMatch, TagFile, Indexed;
    IndexSame(h, d, r, dst);
    assert MarksFit(h, r, source.blocks, w[src]);
    hide Tracks, MarksFit;
    TracksFrame(h, d, w, r, dst, Metadata(source.tamanio, source.blocks, WorkInProgress), w[src]);
  }

  lemma TagMetas(d: Disk, src: FileTag, dst: FileTag)
    requires WellFormed(d) && dst !in d.metas && src in d.metas
    ensures var (r, source) := (TagFile(d, src, dst).0, d.metas[src]);
      && r.content == d.content && r.index == d.index
      && r.metas == d.metas[dst := Metadata(source.tamanio, source.blocks, WorkInProgress)]
  {
    hide Geometry, LinksMatch, InDisk, TagFrom, CreateFile, TagFile, SetSize;
    BlocksInDisk(d, src);
    var source := d.metas[src];
    CreatedEmpty(d, dst, source.tamanio, source.blocks);
    var d2 := SetSize(CreateFile(d, dst).0, dst, source.tamanio);
    EmptyCopy(d2, dst, source.blocks);
    TagIs(d, src, dst);
    var meta := Metadata(source.tamanio, source.blocks, WorkInProgress);
    assert d2.metas[dst := meta] == d.metas[dst := meta];
  }

  lemma TagIs(d: Disk, src: FileTag, dst: FileTag)
    requires WellFormed(d) && dst !in d.metas && src in d.metas
    requires var c := CreateFile(d, dst);
      && c.1 == OpExitosa && dst in c.0.metas && src in c.0.metas && c.0.metas[src] == d.metas[src]
      && InDisk(SetSize(c.0, dst, d.metas[src].tamanio), d.metas[src].blocks)
      && dst in SetSize(c.0, dst, d.metas[src].tamanio).metas
    ensures TagFile(d, src, dst).0 ==
      TagFrom(SetSize(CreateFile(d, dst).0, dst, d.metas[src].tamanio), dst, d.metas[src].blocks, 0)
  {
    hide Geometry, LinksMatch, InDisk, TagFrom, CreateFile, SetSize;
  }

  lemma BlocksInDisk(d: Disk, ft: FileTag)
    requires WellFormed(d) && ft in d.metas
    ensures InDisk(d, d.metas[ft].blocks)
  {
  }

  lemma CreatedEmpty(d: Disk, dst: FileTag, size: int, source: seq<nat>)
    requires WellFormed(d) && dst !in d.metas && InDisk(d, source)
    ensures var c := CreateFile(d, dst);
      && c.1 == OpExitosa && WellFormed(c.0) && dst in c.0.metas && c.0.content == d.content && c.0.index == d.index
      && (forall ft :: ft in d.metas ==> ft in c.0.metas && c.0.metas[ft] == d.metas[ft])
      && SetSize(c.0, dst, size).metas == d.metas[dst := Metadata(size, [], WorkInProgress)]
      && SetSize(c.0, dst, size).content == d.content && SetSize(c.0, dst, size).index == d.index
      && InDisk(SetSize(c.0, dst, size), source)
  {
    hide Geometry, LinksMatch;
  }

  lemma EmptyCopy(d: Disk, dst: FileTag, source: seq<nat>)
    requires WellFormed(d) && dst in d.metas && d.metas[dst].blocks == [] && InDisk(d, source)
    ensures var r := TagFrom(d, dst, source, 0);
      r.content == d.content && r.index == d.index && r.metas == d.metas[dst := d.metas[dst].(blocks := source)]
  {
    hide Geometry, LinksMatch, InDisk, TagFrom;
    assert source[..0] == [];
    TagFromShape(d, dst, source, 0);
    TagFromMetas(d, dst, source, 0);
  }

  lemma TagNowhere(h: Block -> Digest, d: Disk, w: Written, src: FileTag, dst: FileTag)
    requires WellFormed(d) && Tracks(h, d, w) && dst !in d.metas && src !in d.metas
    ensures Tracks(h, TagFile(d, src, dst).0, w[dst := []])
  {
    CreateTracks(h, d, w, dst);
    hide Geometry, LinksMatch, Tracks;
    var d1 := CreateFile(d, dst).0;
    assert src == dst ==> d1.metas[dst := d1.metas[dst].(tamanio := 0)] == d1.metas;
  }

  lemma DeleteTracks(h: Block -> Digest, blockSize: nat, d: Disk, w: Written, ft: FileTag)
    requires Inv(h, blockSize, d) && Tracks(h, d, w) && ft in d.metas && !IsBaseFile(ft) && DeleteSafe(h, d, ft)
    ensures Tracks(h, DeleteFile(h, d, ft).0, w - {ft})
  {
    var r := DeleteFile(h, d, ft).0;
    assert WellFormed(d);
    DeleteIsDeleted(h, blockSize, d, ft);
    DeletedElsewhere(h, blockSize, d, ft, r);
    hide InvPending, Geometry, LinksMatch, Indexed, Deleted, DeleteFile, DeleteSafe;
    assert r.metas == d.metas - {ft} by { DeletedMetas(h, d, ft, r); }
  }

  lemma DeletedMetas(h: Block -> Digest, d: Disk, ft: FileTag, r: Disk)
    requires Deleted(h, d, ft, r)
    ensures r.metas == d.metas - {ft}
  {
  }

  lemma DeletedElsewhere(h: Block -> Digest, blockSize: nat, d: Disk, ft: FileTag, r: Disk)
    requires Inv(h, blockSize, d) && Deleted(h, d, ft, r) && !IsBaseFile(ft) && DeleteSafe(h, d, ft)
    ensures SameElsewhere(h, d, r, ft)
  {
    assert WellFormed(d);
    hide InvPending, Geometry, LinksMatch, DeleteSafe;
    forall g, i | g in d.metas && g != ft && 0 <= i < |d.metas[g].blocks|
      ensures Indexed(h, r, d.metas[g].blocks[i]) <==> Indexed(h, d, d.metas[g].blocks[i])
    {
      var p := d.metas[g].blocks[i];
      assert HasBlock(d, Slot(g, i));
      ContentIs(d, g, i);
      StillLinked(h, d, ft, r, Slot(g, i));
      if Indexed(h, d, p) { SafeKeepsIndexed(h, blockSize, d, ft, r, p); }
    }
  }

  lemma StillLinked(h: Block -> Digest, d: Disk, ft: FileTag, r: Disk, s: Slot)
    requires WellFormed(d) && Deleted(h, d, ft, r) && s in d.links && s.ft != ft
    ensures d.links[s] !in Released(d, ft, 0)
  {
    DeletedLinks(h, d, ft, r);
    assert s in LinksTo(r.links, d.links[s]);
  }

  /** The marks still tell what is indexed after a safe operation. */
  lemma StepTracks(h: Block -> Digest, blockSize: nat, d: Disk, w: Written, op: Op)
    requires Injective(h) && Inv(h, blockSize, d) && 0 < blockSize && Tracks(h, d, w) && Safe(h, d, op)
    requires Step(h, blockSize, d, op).1 != ErrEspInsuficiente
    ensures Aligned(Abs(d), w) && Tracks(h, Step(h, blockSize, d, op).0, Marks(blockSize, Abs(d), w, op))
  {
    assert WellFormed(d);
    hide InvPending, Geometry, LinksMatch, Tracks, Indexed, Injective, TagSafe, DeleteSafe, Step, Marks, Abs, Aligned;
    TracksAligned(h, d, w);
    match op
    case Create(ft) => CreateMarks(h, blockSize, d, w, ft);
    case Truncate(ft, size) => TruncateMarks(h, blockSize, d, w, ft, size);
    case Write(ft, l, data) => WriteMarks(h, blockSize, d, w, ft, l, data);
    case Read(ft, l) => ReadMarks(h, blockSize, d, w, ft, l);
    case Commit(ft) => CommitMarks(h, blockSize, d, w, ft);
    case Tag(src, dst) => TagMarks(h, blockSize, d, w, src, dst);
    case Delete(ft) => DeleteMarks(h, blockSize, d, w, ft);
  }

  lemma CreateMarks(h: Block -> Digest, blockSize: nat, d: Disk, w: Written, ft: FileTag)
    requires WellFormed(d) && 0 < blockSize && Tracks(h, d, w) && Aligned(Abs(d), w)
    ensures Tracks(h, Step(h, blockSize, d, Create(ft)).0, Marks(blockSize, Abs(d), w, Create(ft)))
  {
    hide Geometry, LinksMatch, Tracks;
    if ft !in d.metas { CreateTracks(h, d, w, ft); }
  }

  lemma TruncateMarks(h: Block -> Digest, blockSize: nat, d: Disk, w: Written, ft: FileTag, size: nat)
    requires Inv(h, blockSize, d) && 0 < blockSize && Tracks(h, d, w) && Aligned(Abs(d), w)
    ensures Tracks(h, Step(h, blockSize, d, Truncate(ft, size)).0, Marks(blockSize, Abs(d), w, Truncate(ft, size)))
  {
    assert WellFormed(d);
    hide Geometry, LinksMatch, Tracks, InvPending, NeededBlocks, ResizedMarks;
    if ft in d.metas && d.metas[ft].estado != Commited { TruncateTracks(h, blockSize, d, w, ft, size); }
  }

  lemma WriteMarks(h: Block -> Digest, blockSize: nat, d: Disk, w: Written, ft: FileTag, l: int, data: Block)
    requires Inv(h, blockSize, d) && 0 < blockSize && Tracks(h, d, w) && Aligned(Abs(d), w)
    requires WriteFile(d, ft, l, data).1 != ErrEspInsuficiente
    ensures Tracks(h, Step(h, blockSize, d, Write(ft, l, data)).0, Marks(blockSize, Abs(d), w, Write(ft, l, data)))
  {
    assert WellFormed(d);
    hide Geometry, LinksMatch, Tracks, InvPending, Abs, WriteFile, Marks, Aligned;
    FileIs(d, ft);
    MarksOfWrite(blockSize, Abs(d), w, ft, l, data);
    if ft in d.metas && d.metas[ft].estado != Commited && 0 <= l < |d.metas[ft].blocks| {
      WriteAnswers(d, ft, l, data);
      WriteTracks(h, blockSize, d, w, ft, l, data);
    } else {
      WriteIdle(d, ft, l, data);
    }
  }

  lemma MarksOfWrite(blockSize: nat, m: FileMap, w: Written, ft: FileTag, l: int, data: Block)
    requires 0 < blockSize && Aligned(m, w)
    ensures Marks(blockSize, m, w, Write(ft, l, data)) ==
      if ft in m && m[ft].estado != Commited && 0 <= l < |m[ft].blocks| then w[ft := w[ft][l := true]] else w
  {
  }

  lemma WriteAnswers(d: Disk, ft: FileTag, l: nat, data: Block)
    requires WellFormed(d) && HasBlock(d, Slot(ft, l)) && d.metas[ft].estado != Commited
    ensures WriteFile(d, ft, l, data).1 == OpExitosa || WriteFile(d, ft, l, data).1 == ErrEspInsuficiente
  {
    hide Geometry, LinksMatch, FindFree, Redirect, Overwrite;
  }

  lemma WriteIdle(d: Disk, ft: FileTag, l: int, data: Block)
    requires WellFormed(d) && !(ft in d.metas && d.metas[ft].estado != Commited && 0 <= l < |d.metas[ft].blocks|)
    ensures WriteFile(d, ft, l, data).0 == d
  {
    hide Geometry, LinksMatch, FindFree, Redirect, Overwrite;
  }

  lemma ReadMarks(h: Block -> Digest, blockSize: nat, d: Disk, w: Written, ft: FileTag, l: int)
    requires WellFormed(d) && 0 < blockSize && Tracks(h, d, w) && Aligned(Abs(d), w)
    ensures Tracks(h, Step(h, blockSize, d, Read(ft, l)).0, Marks(blockSize, Abs(d), w, Read(ft, l)))
  {
    hide Geometry, LinksMatch, Tracks;
  }

  lemma CommitMarks(h: Block -> Digest, blockSize: nat, d: Disk, w: Written, ft: FileTag)
    requires Inv(h, blockSize, d) && 0 < blockSize && Tracks(h, d, w) && Aligned(Abs(d), w)
    ensures Tracks(h, Step(h, blockSize, d, Commit(ft)).0, Marks(blockSize, Abs(d), w, Commit(ft)))
  {
    assert WellFormed(d);
    hide Geometry, LinksMatch, Tracks, InvPending, CommitFrom;
    if ft in d.metas { CommitTracks(h, blockSize, d, w, ft); }
  }

  lemma TagMarks(h: Block -> Digest, blockSize: nat, d: Disk, w: Written, src: FileTag, dst: FileTag)
    requires WellFormed(d) && 0 < blockSize && Tracks(h, d, w) && Aligned(Abs(d), w)
    ensures Tracks(h, Step(h, blockSize, d, Tag(src, dst)).0, Marks(blockSize, Abs(d), w, Tag(src, dst)))
  {
    hide Geometry, LinksMatch, Tracks, TagFrom;
    if dst !in d.metas {
      if src in d.metas { TagTracks(h, d, w, src, dst); } else { TagNowhere(h, d, w, src, dst); }
    }
  }

  lemma DeleteMarks(h: Block -> Digest, blockSize: nat, d: Disk, w: Written, ft: FileTag)
    requires Inv(h, blockSize, d) && 0 < blockSize && Tracks(h, d, w) && Aligned(Abs(d), w) && DeleteSafe(h, d, ft)
    ensures Tracks(h, Step(h, blockSize, d, Delete(ft)).0, Marks(blockSize, Abs(d), w, Delete(ft)))
  {
    assert WellFormed(d);
    hide Geometry, LinksMatch, Tracks, InvPending, DeleteSafe, DeleteFrom;
    if ft in d.metas && !IsBaseFile(ft) { DeleteTracks(h, blockSize, d, w, ft); }
  }

  lemma TracksAligned(h: Block -> Digest, d: Disk, w: Written)
    requires Tracks(h, d, w)
    ensures Aligned(Abs(d), w)
  {
  }

  // ---------------------------------------------------------------- whole scripts

  lemma AlignedStep(blockSize: nat, m: FileMap, w: Written, op: Op)
    requires 0 < blockSize && Aligned(m, w)
    ensures Aligned(MapStep(blockSize, m, op).0, Marks(blockSize, m, w, op))
  {
    hide NeededBlocks, ZeroBlock;
    if op.Truncate? { AlignedTruncate(blockSize, m, w, op.ft, op.size); }
  }

  lemma AlignedTruncate(blockSize: nat, m: FileMap, w: Written, ft: FileTag, size: nat)
    requires 0 < blockSize && Aligned(m, w)
    ensures Aligned(MapStep(blockSize, m, Truncate(ft, size)).0, Marks(blockSize, m, w, Truncate(ft, size)))
  {
    hide NeededBlocks, ZeroBlock;
  }

  /** Each TAG and DELETE is safe when its turn comes, as far as the script tells. */
  ghost predicate ScriptDisciplined(blockSize: nat, m: FileMap, w: Written, ops: seq<Op>)
    requires 0 < blockSize && Aligned(m, w)
    decreases |ops|
  {
    ops == [] ||
    (AlignedStep(blockSize, m, w, ops[0]);
     && ScriptSafe(blockSize, m, w, ops[0])
     && ScriptDisciplined(blockSize, MapStep(blockSize, m, ops[0]).0, Marks(blockSize, m, w, ops[0]), ops[1..]))
  }

  /** The files never have as many logical blocks as the disk has physical ones when one is
      written. */
  ghost predicate Fits(blockSize: nat, n: nat, m: FileMap, ops: seq<Op>)
    requires 0 < blockSize
    decreases |ops|
  {
    ops == [] || (!MayRefuse(blockSize, n, m, ops[0]) && Fits(blockSize, n, MapStep(blockSize, m, ops[0]).0, ops[1..]))
  }

  /** The reference map's own run. */
  function MapPlay(blockSize: nat, m: FileMap, ops: seq<Op>): (FileMap, seq<Reply>)
    requires 0 < blockSize
    decreases |ops|
  {
    if ops == [] then (m, [])
    else
      var (m1, reply) := MapStep(blockSize, m, ops[0]);
      var (m2, replies) := MapPlay(blockSize, m1, ops[1..]);
      (m2, [reply] + replies)
  }

  lemma ScriptStep(h: Block -> Digest, blockSize: nat, d: Disk, w: Written, op: Op)
    requires Injective(h) && Inv(h, blockSize, d) && 0 < blockSize && Tracks(h, d, w)
    requires !MayRefuse(blockSize, |d.content|, Abs(d), op)
    ensures Aligned(Abs(d), w) && (Safe(h, d, op) <==> ScriptSafe(blockSize, Abs(d), w, op))
    ensures var (d1, reply) := Step(h, blockSize, d, op);
      && Conserved(blockSize, d1) && |d1.content| == |d.content| && (Abs(d1), reply) == MapStep(blockSize, Abs(d), op)
      && (Safe(h, d, op) ==> Inv(h, blockSize, d1) && Tracks(h, d1, Marks(blockSize, Abs(d), w, op)))
  {
    assert Conserved(blockSize, d);
    hide InvPending, Conserved, Tracks, Injective, Safe, ScriptSafe, Step, MapStep, Abs, Marks, MayRefuse, Aligned;
    TracksAligned(h, d, w);
    SafeIff(h, blockSize, d, w, op);
    StepConserves(h, blockSize, d, op);
    StepRefines(h, blockSize, d, op);
    StepExact(h, blockSize, d, op);
    if Step(h, blockSize, d, op).1 == ErrEspInsuficiente { StepMayRefuse(h, blockSize, d, op); }
    if Safe(h, d, op) { StepTracks(h, blockSize, d, w, op); }
  }

  /** For a script that fits the disk, being disciplined can be told from the script alone; and
      then the replies and the contents are the map's, without exception. */
  lemma {:induction false} ScriptExact(h: Block -> Digest, blockSize: nat, d: Disk, w: Written, ops: seq<Op>)
    requires Injective(h) && Inv(h, blockSize, d) && 0 < blockSize && Tracks(h, d, w)
    requires Fits(blockSize, |d.content|, Abs(d), ops)
    ensures Aligned(Abs(d), w)
    ensures Disciplined(h, blockSize, d, ops) <==> ScriptDisciplined(blockSize, Abs(d), w, ops)
    ensures Disciplined(h, blockSize, d, ops) ==>
      var (d', replies) := Run(h, blockSize, d, ops);
      Inv(h, blockSize, d') && (Abs(d'), replies) == MapPlay(blockSize, Abs(d), ops)
    decreases |ops|
  {
    assert Conserved(blockSize, d);
    hide InvPending, Conserved, Tracks, Injective, Safe, ScriptSafe, Step, MapStep, Abs, Marks, MayRefuse, Aligned;
    TracksAligned(h, d, w);
    if ops != [] {
      ScriptStep(h, blockSize, d, w, ops[0]);
      if Safe(h, d, ops[0]) {
        ScriptExact(h, blockSize, Step(h, blockSize, d, ops[0]).0, Marks(blockSize, Abs(d), w, ops[0]), ops[1..]);
      }
    }
  }

  function FreshMap(blockSize: nat): FileMap {
    map[FileTag("initial_file", "BASE") := File(0, [ZeroBlock(blockSize)], WorkInProgress)]
  }

  function FreshMarks(): Written {
    map[FileTag("initial_file", "BASE") := [false]]
  }

  /** After a fresh start, for scripts that fit. */
  lemma FreshScriptExact(h: Block -> Digest, blockSize: nat, n: nat, ops: seq<Op>)
    requires Injective(h) && 0 < blockSize && 0 < n && n % 8 == 0
    requires Fits(blockSize, n, FreshMap(blockSize), ops)
    ensures FreshRunDisciplined(h, blockSize, n, ops) <==>
      ScriptDisciplined(blockSize, FreshMap(blockSize), FreshMarks(), ops)
    ensures FreshRunDisciplined(h, blockSize, n, ops) ==>
      var (d, replies) := FreshRun(h, blockSize, n, ops);
      (Abs(d), replies) == MapPlay(blockSize, FreshMap(blockSize), ops)
  {
    var d := FreshDisk(h, blockSize, n);
    FreshInv(h, blockSize, n);
    assert Indexed(h, d, 0);
    assert Contents(d.content, [0]) == [ZeroBlock(blockSize)];
    assert Abs(d) == FreshMap(blockSize);
    assert Tracks(h, d, FreshMarks());
    hide InvPending, Tracks, Injective, Indexed;
    ScriptExact(h, blockSize, d, FreshMarks(), ops);
  }
}
