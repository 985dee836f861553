/** The Storage module's disk as a value, and what each operation does to it.

    A File:Tag is a directory of hard links (one per logical block) plus a metadata
    record; a physical block carries the link count the kernel reports for it, a bit in
    the allocation bitmap and its content; the hash index maps a digest to the block that
    stands for that content.  The functions below follow the branches and the loops of the
    C code one step at a time; class `Storage` is proved to carry them out in place. */
module StorageModel {

  type Block = string
  type Digest = string

  datatype Option<T> = None | Some(value: T)

  datatype FileTag = FileTag(file: string, tag: string)

  datatype Estado = WorkInProgress | Commited

  datatype Metadata = Metadata(tamanio: int, blocks: seq<nat>, estado: Estado)

  /** The directory entry `files/<file>/<tag>/logical_blocks/<pos>.dat`. */
  datatype Slot = Slot(ft: FileTag, pos: nat)

  datatype Reply =
    | OpExitosa
    | NotDefErr
    | ErrInexistencia
    | ErrPreexistencia
    | ErrEspInsuficiente
    | ErrWriteCommited
    | ErrFueraLimite
    | Contenido(data: Block)  // a successful READ and the buffer it fills
    | Fault                   // the C code dereferences the NULL that list_get returned

  datatype Disk = Disk(
    content: seq<Block>,
    used: seq<bool>,
    nlink: seq<int>,
    links: map<Slot, nat>,
    index: map<Digest, nat>,
    metas: map<FileTag, Metadata>)

  // ---------------------------------------------------------------- well-formed disks

  /** Every block number in sight names a physical block, and the bitmap has one bit per block. */
  ghost predicate Geometry(d: Disk) {
    && 0 < |d.content| == |d.nlink| == |d.used|
    && (forall s :: s in d.links ==> d.links[s] < |d.content|)
    && (forall k :: k in d.index ==> d.index[k] < |d.content|)
    && (forall ft :: ft in d.metas ==> InDisk(d, d.metas[ft].blocks))
  }

  ghost predicate InDisk(d: Disk, blocks: seq<nat>) {
    forall i :: 0 <= i < |blocks| ==> blocks[i] < |d.content|
  }

  /** The hard links on disk are exactly those the metadata block lists describe. */
  ghost predicate LinksMatch(d: Disk) {
    && (forall s :: s in d.links ==> HasBlock(d, s) && d.links[s] == d.metas[s.ft].blocks[s.pos])
    && (forall s :: HasBlock(d, s) ==> s in d.links)
  }

  ghost predicate HasBlock(d: Disk, s: Slot) {
    s.ft in d.metas && s.pos < |d.metas[s.ft].blocks|
  }

  ghost predicate WellFormed(d: Disk) {
    Geometry(d) && LinksMatch(d)
  }

  /** Moving the end of one hard link along with its metadata entry. */
  lemma RelinkKeepsWellFormed(d: Disk, r: Disk, s: Slot, q: nat)
    requires WellFormed(d) && HasBlock(d, s) && q < |d.content|
    requires r.links == d.links[s := q] && r.index == d.index
    requires r.metas == d.metas[s.ft := d.metas[s.ft].(blocks := d.metas[s.ft].blocks[s.pos := q])]
    requires |r.content| == |r.nlink| == |r.used| == |d.content|
    ensures WellFormed(r)
  {
    assert s in d.links;
    assert forall t :: HasBlock(r, t) <==> HasBlock(d, t);
    forall t | t in r.links
      ensures HasBlock(r, t) && r.links[t] == r.metas[t.ft].blocks[t.pos]
    {
      assert t in d.links;
    }
  }

  /** Removing the last hard link along with the last metadata entry. */
  lemma DropLastKeepsWellFormed(d: Disk, r: Disk, ft: FileTag)
    requires WellFormed(d) && ft in d.metas && d.metas[ft].blocks != []
    requires var last := |d.metas[ft].blocks| - 1;
      && r.links == d.links - {Slot(ft, last)} && r.index == d.index
      && r.metas == d.metas[ft := d.metas[ft].(blocks := d.metas[ft].blocks[..last])]
    requires |r.content| == |r.nlink| == |r.used| == |d.content|
    ensures WellFormed(r)
  {
    var last := |d.metas[ft].blocks| - 1;
    assert forall t :: HasBlock(r, t) <==> HasBlock(d, t) && t != Slot(ft, last);
    forall t | t in r.links
      ensures HasBlock(r, t) && r.links[t] == r.metas[t.ft].blocks[t.pos]
    {
      assert t in d.links;
    }
  }

  /** Adding one hard link along with a new last metadata entry. */
  lemma AppendKeepsWellFormed(d: Disk, r: Disk, ft: FileTag, p: nat)
    requires WellFormed(d) && ft in d.metas && p < |d.content|
    requires r.links == d.links[Slot(ft, |d.metas[ft].blocks|) := p] && r.index == d.index
    requires r.metas == d.metas[ft := d.metas[ft].(blocks := d.metas[ft].blocks + [p])]
    requires |r.content| == |r.nlink| == |r.used| == |d.content|
    ensures WellFormed(r)
  {
    var s := Slot(ft, |d.metas[ft].blocks|);
    assert forall t :: HasBlock(r, t) <==> HasBlock(d, t) || t == s;
    forall t | t in r.links
      ensures HasBlock(r, t) && r.links[t] == r.metas[t.ft].blocks[t.pos]
    {
      assert t == s || t in d.links;
    }
  }

  // ---------------------------------------------------------------- primitives

  /** The block's content everywhere after a fresh start: BLOCK_SIZE characters '0'. */
  function ZeroBlock(blockSize: nat): Block {
    seq(blockSize, _ => '0')
  }

  /** Bits in the bitmap of a disk of `n` blocks: whole bytes. */
  function BitmapBits(n: nat): nat {
    8 * ((n + 7) / 8)
  }

  /** First clear bit at or after `i`. */
  function FindFree(used: seq<bool>, i: nat): (r: Option<nat>)
    ensures r.Some? ==> i <= r.value < |used| && !used[r.value]
    ensures r.Some? ==> forall j :: i <= j < r.value ==> used[j]
    ensures r.None? ==> forall j :: i <= j < |used| ==> used[j]
    decreases |used| - i
  {
    if i >= |used| then None
    else if !used[i] then Some(i)
    else FindFree(used, i + 1)
  }

  /** link(2): fails without effect when the new name exists. */
  function Link(d: Disk, s: Slot, p: nat): Disk
    requires p < |d.nlink|
  {
    if s in d.links then d
    else d.(links := d.links[s := p], nlink := d.nlink[p := d.nlink[p] + 1])
  }

  /** unlink(2): fails without effect when there is no such name. */
  function Unlink(d: Disk, s: Slot): Disk
    requires s in d.links ==> d.links[s] < |d.nlink|
  {
    if s !in d.links then d
    else
      var p := d.links[s];
      d.(links := d.links - {s}, nlink := d.nlink[p := d.nlink[p] - 1])
  }

  function MarkFree(d: Disk, p: nat): Disk
    requires p < |d.used|
  {
    d.(used := d.used[p := false])
  }

  function SetBlocks(d: Disk, ft: FileTag, blocks: seq<nat>): Disk
    requires ft in d.metas
  {
    d.(metas := d.metas[ft := d.metas[ft].(blocks := blocks)])
  }

  function AssociatedBlock(index: map<Digest, nat>, key: Digest): Option<nat> {
    if key in index then Some(index[key]) else None
  }

  /** string_equals_ignore_case on ASCII text. */
  predicate EqualsIgnoreCase(a: string, b: string) {
    |a| == |b| && forall i :: 0 <= i < |a| ==> ToLower(a[i]) == ToLower(b[i])
  }

  function ToLower(c: char): char {
    if 'A' <= c <= 'Z' then (c as int + 32) as char else c
  }

  predicate IsBaseFile(ft: FileTag) {
    EqualsIgnoreCase(ft.file, "initial_file") && EqualsIgnoreCase(ft.tag, "BASE")
  }

  // ---------------------------------------------------------------- CREATE

  function CreateFile(d: Disk, ft: FileTag): (r: (Disk, Reply))
    requires WellFormed(d)
    ensures WellFormed(r.0) && |r.0.content| == |d.content|
  {
    if ft in d.metas then (d, ErrPreexistencia)
    else (d.(metas := d.metas[ft := Metadata(0, [], WorkInProgress)]), OpExitosa)
  }

  // ---------------------------------------------------------------- TRUNCATE

  /** One new logical block: a hard link to block 0, appended to the metadata. */
  function GrowOne(d: Disk, ft: FileTag): (r: Disk)
    requires WellFormed(d) && ft in d.metas
    ensures WellFormed(r) && r.content == d.content
    ensures r.metas.Keys == d.metas.Keys
    ensures r.metas[ft].blocks == d.metas[ft].blocks + [0]
  {
    var blocks := d.metas[ft].blocks;
    var d1 := SetBlocks(Link(d, Slot(ft, |blocks|), 0), ft, blocks + [0]);
    assert !HasBlock(d, Slot(ft, |blocks|));
    AppendKeepsWellFormed(d, d1, ft, 0);
    d1
  }

  function Grow(d: Disk, ft: FileTag, needed: nat): (r: Disk)
    requires WellFormed(d) && ft in d.metas
    ensures WellFormed(r) && r.content == d.content
    ensures r.metas.Keys == d.metas.Keys
    decreases needed - |d.metas[ft].blocks|
  {
    if |d.metas[ft].blocks| < needed then Grow(GrowOne(d, ft), ft, needed) else d
  }

  /** Drops the last logical block; its physical block is freed once nothing links to it. */
  function ShrinkOne(d: Disk, ft: FileTag): (r: Disk)
    requires WellFormed(d) && ft in d.metas && d.metas[ft].blocks != []
    ensures WellFormed(r) && r.content == d.content
    ensures r.metas.Keys == d.metas.Keys
    ensures r.metas[ft].blocks == d.metas[ft].blocks[..|d.metas[ft].blocks| - 1]
  {
    var blocks := d.metas[ft].blocks;
    var last := |blocks| - 1;
    var p := blocks[last];
    var d1 := Unlink(d, Slot(ft, last));
    var d2 := if p != 0 && d1.nlink[p] < 2 then MarkFree(d1, p) else d1;
    var d3 := SetBlocks(d2, ft, blocks[..last]);
    DropLastKeepsWellFormed(d, d3, ft);
    d3
  }

  function Shrink(d: Disk, ft: FileTag, needed: nat): (r: Disk)
    requires WellFormed(d) && ft in d.metas
    ensures WellFormed(r) && r.content == d.content
    ensures r.metas.Keys == d.metas.Keys
    decreases |d.metas[ft].blocks|
  {
    if needed < |d.metas[ft].blocks| then Shrink(ShrinkOne(d, ft), ft, needed) else d
  }

  function SetSize(d: Disk, ft: FileTag, size: int): (r: Disk)
    requires WellFormed(d) && ft in d.metas
    ensures WellFormed(r)
  {
    d.(metas := d.metas[ft := d.metas[ft].(tamanio := size)])
  }

  /** size / blockSize on ints, by repeated subtraction: whole blocks only. */
  function NeededBlocks(blockSize: nat, size: int): nat
    requires 0 < blockSize
    decreases size
  {
    if size < blockSize then 0 else 1 + NeededBlocks(blockSize, size - blockSize)
  }

  function TruncateFile(blockSize: nat, d: Disk, ft: FileTag, size: nat): (r: (Disk, Reply))
    requires WellFormed(d) && 0 < blockSize
    ensures WellFormed(r.0) && |r.0.content| == |d.content|
  {
    if ft !in d.metas then (d, ErrInexistencia)
    else if d.metas[ft].estado == Commited then (d, ErrWriteCommited)
    else
      var needed := NeededBlocks(blockSize, size);
      (SetSize(Shrink(Grow(d, ft, needed), ft, needed), ft, size), OpExitosa)
  }

  // ---------------------------------------------------------------- WRITE

  /** Copy on write: the logical block moves to the fresh physical block `q`. */
  function Redirect(d: Disk, ft: FileTag, l: nat, q: nat): (r: Disk)
    requires WellFormed(d) && HasBlock(d, Slot(ft, l)) && q < |d.content|
    ensures WellFormed(r) && r.content == d.content
  {
    var s := Slot(ft, l);
    var d1 := Unlink(d.(used := d.used[q := true]), s);
    var d2 := Link(SetBlocks(d1, ft, d.metas[ft].blocks[l := q]), s, q);
    RelinkKeepsWellFormed(d, d2, s, q);
    d2
  }

  function Overwrite(d: Disk, p: nat, data: Block): (r: Disk)
    requires WellFormed(d) && p < |d.content|
    ensures WellFormed(r) && |r.content| == |d.content|
  {
    d.(content := d.content[p := data])
  }

  /** `storage_write` writes in place only to a block with one logical reference. */
  predicate MustCopy(d: Disk, p: nat)
    requires p < |d.nlink|
  {
    p == 0 || d.nlink[p] > 2
  }

  function WriteFile(d: Disk, ft: FileTag, l: int, data: Block): (r: (Disk, Reply))
    requires WellFormed(d)
    ensures WellFormed(r.0) && |r.0.content| == |d.content|
  {
    if ft !in d.metas then (d, ErrInexistencia)
    else if d.metas[ft].estado == Commited then (d, ErrWriteCommited)
    else if l < 0 || l >= |d.metas[ft].blocks| then (d, ErrFueraLimite)
    else
      var p := d.metas[ft].blocks[l];
      if MustCopy(d, p) then
        match FindFree(d.used, 1)
        case None => (d, ErrEspInsuficiente)
        case Some(q) => (Overwrite(Redirect(d, ft, l, q), q, data), OpExitosa)
      else (Overwrite(d, p, data), OpExitosa)
  }

  // ---------------------------------------------------------------- READ

  /** The range test lets `l == size` and negative numbers through to list_get. */
  function ReadFile(d: Disk, ft: FileTag, l: int): Reply
    requires WellFormed(d)
  {
    if ft !in d.metas then ErrInexistencia
    else if l > |d.metas[ft].blocks| then ErrFueraLimite
    else if l < 0 || l == |d.metas[ft].blocks| then Fault
    else Contenido(d.content[d.metas[ft].blocks[l]])
  }

  // ---------------------------------------------------------------- COMMIT

  /** The digest of a logical block, read through its hard link. */
  function LogicalDigest(h: Block -> Digest, d: Disk, s: Slot): Digest
    requires s in d.links && d.links[s] < |d.content|
  {
    h(d.content[d.links[s]])
  }

  /** Relinks logical block `i` to `q` and frees the block it leaves, whatever its link count. */
  function Reassign(d: Disk, ft: FileTag, i: nat, q: nat): (r: Disk)
    requires WellFormed(d) && HasBlock(d, Slot(ft, i)) && q < |d.content|
    ensures WellFormed(r) && r.content == d.content
    ensures r.metas.Keys == d.metas.Keys
    ensures r.metas[ft].blocks == d.metas[ft].blocks[i := q]
  {
    var s := Slot(ft, i);
    var p := d.metas[ft].blocks[i];
    var d1 := Link(Unlink(d, s), s, q);
    var d2 := if p != 0 then MarkFree(d1, p) else d1;
    var d3 := SetBlocks(d2, ft, d.metas[ft].blocks[i := q]);
    RelinkKeepsWellFormed(d, d3, s, q);
    d3
  }

  function CommitOne(h: Block -> Digest, d: Disk, ft: FileTag, i: nat): (r: Disk)
    requires WellFormed(d) && HasBlock(d, Slot(ft, i))
    ensures WellFormed(r) && r.content == d.content
    ensures r.metas.Keys == d.metas.Keys
    ensures |r.metas[ft].blocks| == |d.metas[ft].blocks|
  {
    var p := d.metas[ft].blocks[i];
    var key := LogicalDigest(h, d, Slot(ft, i));
    match AssociatedBlock(d.index, key)
    case None => d.(index := d.index[key := p])
    case Some(q) => if q == p then d else Reassign(d, ft, i, q)
  }

  function CommitFrom(h: Block -> Digest, d: Disk, ft: FileTag, i: nat): (r: Disk)
    requires WellFormed(d) && ft in d.metas && i <= |d.metas[ft].blocks|
    ensures WellFormed(r) && r.content == d.content
    ensures r.metas.Keys == d.metas.Keys
    decreases |d.metas[ft].blocks| - i
  {
    if i < |d.metas[ft].blocks| then CommitFrom(h, CommitOne(h, d, ft, i), ft, i + 1) else d
  }

  function SetCommited(d: Disk, ft: FileTag): (r: Disk)
    requires WellFormed(d) && ft in d.metas
    ensures WellFormed(r)
  {
    d.(metas := d.metas[ft := d.metas[ft].(estado := Commited)])
  }

  function CommitFile(h: Block -> Digest, d: Disk, ft: FileTag): (r: (Disk, Reply))
    requires WellFormed(d)
    ensures WellFormed(r.0) && |r.0.content| == |d.content|
  {
    if ft !in d.metas then (d, ErrInexistencia)
    else (SetCommited(CommitFrom(h, d, ft, 0), ft), OpExitosa)
  }

  // ---------------------------------------------------------------- TAG

  function TagOne(d: Disk, dst: FileTag, p: nat): (r: Disk)
    requires WellFormed(d) && dst in d.metas && p < |d.content|
    ensures WellFormed(r) && r.content == d.content
    ensures r.metas.Keys == d.metas.Keys
    ensures r.metas[dst].blocks == d.metas[dst].blocks + [p]
  {
    var blocks := d.metas[dst].blocks;
    var d1 := SetBlocks(Link(d, Slot(dst, |blocks|), p), dst, blocks + [p]);
    assert !HasBlock(d, Slot(dst, |blocks|));
    AppendKeepsWellFormed(d, d1, dst, p);
    d1
  }

  function TagFrom(d: Disk, dst: FileTag, source: seq<nat>, i: nat): (r: Disk)
    requires WellFormed(d) && dst in d.metas && InDisk(d, source) && i <= |source|
    ensures WellFormed(r) && r.content == d.content
    ensures r.metas.Keys == d.metas.Keys
    decreases |source| - i
  {
    if i < |source| then TagFrom(TagOne(d, dst, source[i]), dst, source, i + 1) else d
  }

  /** The destination is created before the source is looked up: it stays behind, empty,
      when the source does not exist. */
  function TagFile(d: Disk, src: FileTag, dst: FileTag): (r: (Disk, Reply))
    requires WellFormed(d)
    ensures WellFormed(r.0) && |r.0.content| == |d.content|
  {
    var (d1, reply) := CreateFile(d, dst);
    if reply != OpExitosa then (d, reply)
    else if src !in d1.metas then (d1, ErrInexistencia)
    else
      var source := d1.metas[src];
      (TagFrom(SetSize(d1, dst, source.tamanio), dst, source.blocks, 0), OpExitosa)
  }

  // ---------------------------------------------------------------- DELETE

  /** Logical blocks `i..` of `ft` are still linked. */
  ghost predicate LinkedFrom(d: Disk, ft: FileTag, i: nat) {
    && Geometry(d) && ft in d.metas
    && forall j {:trigger Slot(ft, j)} :: i <= j < |d.metas[ft].blocks| ==>
      Slot(ft, j) in d.links && d.links[Slot(ft, j)] == d.metas[ft].blocks[j]
  }

  function DeleteOne(h: Block -> Digest, d: Disk, ft: FileTag, i: nat): (r: Disk)
    requires LinkedFrom(d, ft, i) && i < |d.metas[ft].blocks|
    ensures LinkedFrom(r, ft, i + 1) && r.metas == d.metas && r.content == d.content
  {
    var s := Slot(ft, i);
    assert s in d.links;
    var p := d.metas[ft].blocks[i];
    var key := LogicalDigest(h, d, s);
    var d1 := Unlink(d, s);
    if p != 0 && d1.nlink[p] < 2 then MarkFree(d1.(index := d1.index - {key}), p) else d1
  }

  function DeleteFrom(h: Block -> Digest, d: Disk, ft: FileTag, i: nat): (r: Disk)
    requires LinkedFrom(d, ft, i) && i <= |d.metas[ft].blocks|
    ensures Geometry(r) && r.metas == d.metas && r.content == d.content
    decreases |d.metas[ft].blocks| - i
  {
    if i < |d.metas[ft].blocks| then DeleteFrom(h, DeleteOne(h, d, ft, i), ft, i + 1) else d
  }

  function DeleteFile(h: Block -> Digest, d: Disk, ft: FileTag): (r: (Disk, Reply))
    requires WellFormed(d)
  {
    if IsBaseFile(ft) then (d, NotDefErr)
    else if ft !in d.metas then (d, ErrInexistencia)
    else
      assert LinkedFrom(d, ft, 0) by {
        forall j | 0 <= j < |d.metas[ft].blocks|
          ensures Slot(ft, j) in d.links && d.links[Slot(ft, j)] == d.metas[ft].blocks[j]
        {
          assert HasBlock(d, Slot(ft, j));
        }
      }
      var d1 := DeleteFrom(h, d, ft, 0);
      (d1.(metas := d1.metas - {ft}), OpExitosa)
  }

  // ---------------------------------------------------------------- runs

  datatype Op =
    | Create(ft: FileTag)
    | Truncate(ft: FileTag, size: nat)
    | Write(ft: FileTag, l: int, data: Block)
    | Read(ft: FileTag, l: int)
    | Commit(ft: FileTag)
    | Tag(src: FileTag, ft: FileTag)
    | Delete(ft: FileTag)

  /** storage_fresh_start, then the zero block's digest loaded into the index. */
  function FreshDisk(h: Block -> Digest, blockSize: nat, n: nat): (d: Disk)
    requires 0 < n
  {
    var base := FileTag("initial_file", "BASE");
    Disk(
      seq(n, _ => ZeroBlock(blockSize)),
      seq(BitmapBits(n), i => i == 0),
      seq(n, i => if i == 0 then 2 else 1),
      map[Slot(base, 0) := 0],
      map[h(ZeroBlock(blockSize)) := 0],
      map[base := Metadata(0, [0], WorkInProgress)])
  }
}
