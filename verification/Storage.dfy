/** The Storage module in the form of its C code: arrays and maps updated in place, loops over
    logical blocks.  Every operation is proved to do to the disk exactly what its function in
    `StorageModel` says, and so inherits the invariants and the refinement proved there. */
module StorageService {
  import opened StorageModel
  import opened StorageConservation
  import opened StorageInvariant

  class Storage {
    const hash: Block -> Digest
    const blockSize: nat
    const content: array<Block>
    const used: array<bool>
    const nlink: array<int>
    var links: map<Slot, nat>
    var index: map<Digest, nat>
    var metas: map<FileTag, Metadata>

    ghost function Snapshot(): (d: Disk)
      reads this, content, used, nlink
    {
      Disk(content[..], used[..], nlink[..], links, index, metas)
    }

    ghost predicate Valid()
      reads this, content, used, nlink
    {
      0 < blockSize && Conserved(blockSize, Snapshot())
    }

    // -------------------------------------------------------------- start

    /** storage_fresh_start and the loading of the zero block's digest. */
    constructor FreshStart(hash: Block -> Digest, blockSize: nat, blocksCount: nat)
      requires 0 < blockSize && 0 < blocksCount
      ensures this.hash == hash && this.blockSize == blockSize && Snapshot() == FreshDisk(hash, blockSize, blocksCount)
      ensures Valid() <==> blocksCount % 8 == 0
      ensures Inv(hash, blockSize, Snapshot()) <==> blocksCount % 8 == 0
      ensures fresh(content) && fresh(used) && fresh(nlink)
    {
      var base := FileTag("initial_file", "BASE");
      var contents := new Block[blocksCount](_ => "");
      var bits := new bool[BitmapBits(blocksCount)](_ => true);
      var counts := new int[blocksCount](_ => 0);
      for i := 0 to bits.Length
        invariant forall j :: 0 <= j < i ==> !bits[j]
      {
        bits[i] := false;
      }
      for i := 0 to blocksCount
        invariant forall j :: 0 <= j < i ==> contents[j] == ZeroBlock(blockSize) && counts[j] == 1
        invariant forall j :: 0 <= j < bits.Length ==> !bits[j]
      {
        contents[i], counts[i] := ZeroBlock(blockSize), 1;
      }
      counts[0] := 2;
      bits[0] := true;
      this.hash, this.blockSize := hash, blockSize;
      content, used, nlink := contents, bits, counts;
      links := map[Slot(base, 0) := 0];
      index := map[hash(ZeroBlock(blockSize)) := 0];
      metas := map[base := Metadata(0, [0], WorkInProgress)];
      new;
      FreshConserved(hash, blockSize, blocksCount);
      FreshInv(hash, blockSize, blocksCount);
      assert Snapshot() == FreshDisk(hash, blockSize, blocksCount);
    }

    // -------------------------------------------------------------- bitmap, links, index

    /** First fit from bit 1; the bit is set before the answer is given. */
    method FindFreeBlock() returns (block: int)
      modifies used
      ensures match FindFree(old(used[..]), 1)
        case None => block == -1 && used[..] == old(used[..])
        case Some(q) => block == q && used[..] == old(used[..])[q := true]
    {
      block := -1;
      var i := 1;
      while i < used.Length
        invariant 1 <= i
        invariant used[..] == old(used[..])
        invariant FindFree(used[..], i) == FindFree(used[..], 1)
      {
        if !used[i] {
          used[i] := true;
          return i;
        }
        i := i + 1;
      }
    }

    method MarkBlockFree(p: nat)
      requires p < used.Length
      modifies used
      ensures Snapshot() == MarkFree(old(Snapshot()), p)
    {
      used[p] := false;
      assert used[..] == old(used[..])[p := false];
    }

    method AddLink(s: Slot, p: nat)
      requires p < nlink.Length
      modifies this`links, nlink
      ensures Snapshot() == Link(old(Snapshot()), s, p)
    {
      if s !in links {
        links := links[s := p];
        nlink[p] := nlink[p] + 1;
        assert nlink[..] == old(nlink[..])[p := old(nlink[p]) + 1];
      }
    }

    method RemoveLink(s: Slot)
      requires s in links ==> links[s] < nlink.Length
      modifies this`links, nlink
      ensures Snapshot() == Unlink(old(Snapshot()), s)
    {
      if s in links {
        var p := links[s];
        links := links - {s};
        nlink[p] := nlink[p] - 1;
        assert nlink[..] == old(nlink[..])[p := old(nlink[p]) - 1];
      }
    }

    method LoadHashInIndex(key: Digest, p: nat)
      modifies this`index
      ensures index == old(index)[key := p]
    {
      RemoveHash(key);
      index := index[key := p];
    }

    method RemoveHash(key: Digest)
      modifies this`index
      ensures index == old(index) - {key}
    {
      if key in index {
        index := index - {key};
      }
    }

    method BlockAsociedTo(key: Digest) returns (block: Option<nat>)
      ensures block == AssociatedBlock(index, key)
    {
      block := if key in index then Some(index[key]) else None;
    }

    method GetHashFromBlock(s: Slot) returns (key: Digest)
      requires s in links && links[s] < content.Length
      ensures key == LogicalDigest(hash, Snapshot(), s)
    {
      key := hash(content[links[s]]);
    }

    // -------------------------------------------------------------- operations

    method StorageCreate(ft: FileTag) returns (reply: Reply)
      requires Valid()
      modifies this
      ensures Valid() && (Snapshot(), reply) == CreateFile(old(Snapshot()), ft)
    {
      if ft in metas {
        return ErrPreexistencia;
      }
      metas := metas[ft := Metadata(0, [], WorkInProgress)];
      reply := OpExitosa;
      assert Snapshot() == CreateFile(old(Snapshot()), ft).0;
    }

    method StorageTruncate(ft: FileTag, size: nat) returns (reply: Reply)
      requires Valid()
      modifies this, used, nlink
      ensures Valid() && (Snapshot(), reply) == TruncateFile(blockSize, old(Snapshot()), ft, size)
    {
      if ft !in metas {
        return ErrInexistencia;
      }
      if metas[ft].estado == Commited {
        return ErrWriteCommited;
      }
      TruncateConserves(blockSize, Snapshot(), ft, size);
      hide Geometry, LinksMatch, Counted, NoLeak, ZeroIntact, Grow, Shrink, NeededBlocks;
      ResizeBlocks(ft, NeededBlocks(blockSize, size));
      metas := metas[ft := metas[ft].(tamanio := size)];
      reply := OpExitosa;
    }

    /** The TRUNCATE loops work on the metadata list in memory, which is then written back. */
    method ResizeBlocks(ft: FileTag, neededBlocks: nat)
      requires WellFormed(Snapshot()) && ft in metas
      modifies this, nlink, used
      ensures Snapshot() == Shrink(Grow(old(Snapshot()), ft, neededBlocks), ft, neededBlocks)
    {
      var blocks := metas[ft].blocks;
      var currentBlocks := |blocks|;
      GrowOrShrink(Snapshot(), ft, neededBlocks);
      hide Geometry, LinksMatch, Grow, Shrink;
      assert WithBlocks(ft, blocks) == Snapshot() by { assert metas[ft := metas[ft]] == metas; }
      if neededBlocks > currentBlocks {
        blocks := GrowBlocks(ft, blocks, neededBlocks);
      }
      if neededBlocks < currentBlocks {
        blocks := ShrinkBlocks(ft, blocks, neededBlocks);
      }
      metas := metas[ft := metas[ft].(blocks := blocks)];
    }

    /** At most one of the two TRUNCATE loops has work to do. */
    static lemma GrowOrShrink(d: Disk, ft: FileTag, needed: nat)
      requires WellFormed(d) && ft in d.metas
      ensures needed >= |d.metas[ft].blocks| ==> Shrink(Grow(d, ft, needed), ft, needed) == Grow(d, ft, needed)
      ensures needed <= |d.metas[ft].blocks| ==> Grow(d, ft, needed) == d
    {
      GrowLength(d, ft, needed);
    }

    static lemma {:induction false} GrowLength(d: Disk, ft: FileTag, needed: nat)
      requires WellFormed(d) && ft in d.metas
      ensures var b := |d.metas[ft].blocks|;
        |Grow(d, ft, needed).metas[ft].blocks| == if b < needed then needed else b
      decreases needed - |d.metas[ft].blocks|
    {
      hide Geometry, LinksMatch, GrowOne;
      if |d.metas[ft].blocks| < needed { GrowLength(GrowOne(d, ft), ft, needed); }
    }

    /** The disk once the metadata list held in memory is written back. */
    ghost function WithBlocks(ft: FileTag, blocks: seq<nat>): Disk
      requires ft in metas
      reads this, content, used, nlink
    {
      SetBlocks(Snapshot(), ft, blocks)
    }

    method GrowBlocks(ft: FileTag, current: seq<nat>, needed: nat) returns (blocks: seq<nat>)
      requires WellFormed(Snapshot()) && ft in metas && current == metas[ft].blocks
      modifies this`links, nlink
      ensures WithBlocks(ft, blocks) == Grow(old(Snapshot()), ft, needed)
    {
      hide Geometry, LinksMatch, GrowOne;
      blocks := current;
      ghost var d := Snapshot();
      assert WithBlocks(ft, blocks) == d by { assert metas[ft := metas[ft]] == metas; }
      while |blocks| < needed
        invariant ft in metas && d == WithBlocks(ft, blocks) && WellFormed(d)
        invariant Grow(d, ft, needed) == Grow(old(Snapshot()), ft, needed)
        decreases needed - |blocks|
      {
        blocks := GrowBlock(ft, blocks);
        d := GrowOne(d, ft);
      }
    }

    method GrowBlock(ft: FileTag, blocks: seq<nat>) returns (more: seq<nat>)
      requires ft in metas && WellFormed(WithBlocks(ft, blocks))
      modifies this`links, nlink
      ensures more == blocks + [0]
      ensures WithBlocks(ft, more) == GrowOne(old(WithBlocks(ft, blocks)), ft)
    {
      assert 0 < nlink.Length;
      hide Geometry, LinksMatch;
      AddLink(Slot(ft, |blocks|), 0);
      more := blocks + [0];
      assert metas[ft := metas[ft].(blocks := blocks)][ft := metas[ft].(blocks := more)] ==
        metas[ft := metas[ft].(blocks := more)];
    }

    method ShrinkBlocks(ft: FileTag, current: seq<nat>, needed: nat) returns (blocks: seq<nat>)
      requires WellFormed(Snapshot()) && ft in metas && current == metas[ft].blocks
      modifies this`links, nlink, used
      ensures WithBlocks(ft, blocks) == Shrink(old(Snapshot()), ft, needed)
    {
      hide Geometry, LinksMatch, ShrinkOne;
      blocks := current;
      ghost var d := Snapshot();
      assert WithBlocks(ft, blocks) == d by { assert metas[ft := metas[ft]] == metas; }
      while needed < |blocks|
        invariant ft in metas && d == WithBlocks(ft, blocks) && WellFormed(d)
        invariant Shrink(d, ft, needed) == Shrink(old(Snapshot()), ft, needed)
        decreases |blocks|
      {
        blocks := ShrinkBlock(ft, blocks);
        d := ShrinkOne(d, ft);
      }
    }

    method ShrinkBlock(ft: FileTag, blocks: seq<nat>) returns (fewer: seq<nat>)
      requires ft in metas && blocks != [] && WellFormed(WithBlocks(ft, blocks))
      modifies this`links, nlink, used
      ensures fewer == blocks[..|blocks| - 1]
      ensures WithBlocks(ft, fewer) == ShrinkOne(old(WithBlocks(ft, blocks)), ft)
    {
      var last := |blocks| - 1;
      var p := blocks[last];
      assert HasBlock(WithBlocks(ft, blocks), Slot(ft, last)) && Slot(ft, last) in links;
      RemoveLink(Slot(ft, last));
      if p != 0 && nlink[p] < 2 {
        MarkBlockFree(p);
      }
      fewer := blocks[..last];
      assert metas[ft := metas[ft].(blocks := blocks)][ft := metas[ft].(blocks := fewer)] ==
        metas[ft := metas[ft].(blocks := fewer)];
    }

    method StorageWrite(ft: FileTag, l: int, data: Block) returns (reply: Reply)
      requires Valid()
      modifies this, content, used, nlink
      ensures Valid() && (Snapshot(), reply) == WriteFile(old(Snapshot()), ft, l, data)
    {
      if ft !in metas {
        return ErrInexistencia;
      }
      var meta := metas[ft];
      if meta.estado == Commited {
        return ErrWriteCommited;
      }
      if l < 0 || l >= |meta.blocks| {
        return ErrFueraLimite;
      }
      WriteConserves(blockSize, Snapshot(), ft, l, data);
      assert InDisk(Snapshot(), meta.blocks) && HasBlock(Snapshot(), Slot(ft, l));
      hide LinksMatch, Counted, NoLeak, ZeroIntact, Redirect;
      var p: int := meta.blocks[l];
      if p == 0 || nlink[p] > 2 {
        p := FindFreeBlock();
        if p == -1 {
          return ErrEspInsuficiente;
        }
        MoveToBlock(ft, l, p, old(Snapshot()));
      }
      content[p] := data;
      reply := OpExitosa;
      assert Snapshot() == WriteFile(old(Snapshot()), ft, l, data).0;
    }

    /** Copy on write, once the block `q` has been reserved. */
    method MoveToBlock(ft: FileTag, l: nat, q: nat, ghost d: Disk)
      requires WellFormed(d) && HasBlock(d, Slot(ft, l)) && q < |d.content|
      requires Snapshot() == d.(used := d.used[q := true])
      modifies this`links, this`metas, nlink
      ensures Snapshot() == Redirect(d, ft, l, q)
    {
      assert Slot(ft, l) in links;
      RemoveLink(Slot(ft, l));
      metas := metas[ft := metas[ft].(blocks := metas[ft].blocks[l := q])];
      AddLink(Slot(ft, l), q);
    }

    /** `Fault` stands for the crash on a position the range test lets through. */
    method StorageRead(ft: FileTag, l: int) returns (reply: Reply)
      requires Valid()
      ensures reply == ReadFile(Snapshot(), ft, l)
    {
      if ft !in metas {
        return ErrInexistencia;
      }
      var blocks := metas[ft].blocks;
      if l > |blocks| {
        return ErrFueraLimite;
      }
      if l < 0 || l == |blocks| {
        return Fault;
      }
      assert InDisk(Snapshot(), blocks);
      reply := Contenido(content[blocks[l]]);
    }

    method StorageCommit(ft: FileTag) returns (reply: Reply)
      requires Valid()
      modifies this, used, nlink
      ensures Valid() && (Snapshot(), reply) == CommitFile(hash, old(Snapshot()), ft)
    {
      if ft !in metas {
        return ErrInexistencia;
      }
      CommitFileConserves(hash, blockSize, Snapshot(), ft);
      hide Geometry, LinksMatch, Counted, NoLeak, ZeroIntact, CommitOne;
      var count := |metas[ft].blocks|;
      var i := 0;
      while i < count
        invariant 0 <= i <= count && WellFormed(Snapshot()) && ft in metas && count == |metas[ft].blocks|
        invariant CommitFrom(hash, Snapshot(), ft, i) == CommitFrom(hash, old(Snapshot()), ft, 0)
      {
        CommitBlock(ft, i);
        i := i + 1;
      }
      metas := metas[ft := metas[ft].(estado := Commited)];
      reply := OpExitosa;
      assert Snapshot() == CommitFile(hash, old(Snapshot()), ft).0;
    }

    /** One round of the COMMIT loop. */
    method CommitBlock(ft: FileTag, i: nat)
      requires WellFormed(Snapshot()) && HasBlock(Snapshot(), Slot(ft, i))
      modifies this, used, nlink
      ensures Snapshot() == CommitOne(hash, old(Snapshot()), ft, i)
    {
      ghost var d := Snapshot();
      var meta := metas[ft];
      var actual := meta.blocks[i];
      assert Slot(ft, i) in links && links[Slot(ft, i)] == actual;
      assert actual < content.Length == nlink.Length == used.Length;
      assert forall k :: k in index ==> index[k] < nlink.Length;
      hide Geometry, LinksMatch, Reassign;
      var key := GetHashFromBlock(Slot(ft, i));
      var stored := BlockAsociedTo(key);
      if stored.None? {
        LoadHashInIndex(key, actual);
        return;
      }
      if stored.value == actual {
        return;
      }
      MoveBlock(ft, i, stored.value);
      assert Snapshot() == Reassign(d, ft, i, stored.value);
    }

    /** The logical block is linked to `q`, and the block it leaves is free. */
    method MoveBlock(ft: FileTag, i: nat, q: nat)
      requires WellFormed(Snapshot()) && HasBlock(Snapshot(), Slot(ft, i)) && q < content.Length
      modifies this, used, nlink
      ensures Snapshot() == Reassign(old(Snapshot()), ft, i, q)
    {
      var meta := metas[ft];
      var actual := meta.blocks[i];
      assert Slot(ft, i) in links && actual < nlink.Length == used.Length && q < nlink.Length;
      hide Geometry, LinksMatch;
      RemoveLink(Slot(ft, i));
      AddLink(Slot(ft, i), q);
      if actual != 0 {
        MarkBlockFree(actual);
      }
      metas := metas[ft := meta.(blocks := meta.blocks[i := q])];
    }

    method StorageTag(src: FileTag, dst: FileTag) returns (reply: Reply)
      requires Valid()
      modifies this, nlink
      ensures Valid() && (Snapshot(), reply) == TagFile(old(Snapshot()), src, dst)
    {
      TagFileConserves(blockSize, Snapshot(), src, dst);
      reply := StorageCreate(dst);
      if reply != OpExitosa {
        return;
      }
      if src !in metas {
        return ErrInexistencia;
      }
      hide Geometry, LinksMatch, Counted, NoLeak, ZeroIntact, TagFrom, Link, TagOne;
      CopyBlocks(src, dst);
      reply := OpExitosa;
    }

    method CopyBlocks(src: FileTag, dst: FileTag)
      requires WellFormed(Snapshot()) && src in metas && dst in metas
      requires metas[dst].blocks == [] && metas[dst].estado == WorkInProgress
      modifies this, nlink
      ensures InDisk(old(Snapshot()), old(metas[src].blocks))
      ensures var source := old(metas[src]);
        Snapshot() == TagFrom(SetSize(old(Snapshot()), dst, source.tamanio), dst, source.blocks, 0)
    {
      var meta := metas[src].(estado := WorkInProgress);
      ghost var d1 := SetSize(Snapshot(), dst, meta.tamanio);
      assert InDisk(d1, meta.blocks) && InDisk(Snapshot(), meta.blocks);
      hide Geometry, LinksMatch, TagFrom, InDisk;
      metas := metas[dst := meta];
      assert d1 == WithBlocks(dst, []);
      LinkBlocks(dst, meta.blocks, d1);
      assert WithBlocks(dst, meta.blocks) == Snapshot() by { assert metas[dst := metas[dst]] == metas; }
    }

    /** The TAG loop: the metadata already lists the blocks that are being linked. */
    method LinkBlocks(dst: FileTag, blocks: seq<nat>, ghost d1: Disk)
      requires dst in metas && d1 == WithBlocks(dst, []) && WellFormed(d1) && InDisk(d1, blocks)
      modifies this`links, nlink
      ensures WithBlocks(dst, blocks) == TagFrom(d1, dst, blocks, 0)
    {
      ghost var d := d1;
      ghost var before: seq<nat> := [];
      hide Geometry, LinksMatch, TagOne;
      var i := 0;
      while i < |blocks|
        invariant 0 <= i <= |blocks| && dst in metas && before == blocks[..i]
        invariant d == WithBlocks(dst, before) && WellFormed(d) && d.content == d1.content
        invariant TagFrom(d, dst, blocks, i) == TagFrom(d1, dst, blocks, 0)
      {
        LinkBlock(dst, i, blocks[i], before);
        d := TagOne(d, dst, blocks[i]);
        before := before + [blocks[i]];
        i := i + 1;
      }
      assert blocks[..i] == blocks;
    }

    method LinkBlock(dst: FileTag, i: nat, p: nat, ghost before: seq<nat>)
      requires |before| == i
      requires dst in metas && WellFormed(WithBlocks(dst, before)) && p < content.Length
      modifies this`links, nlink
      ensures WithBlocks(dst, before + [p]) == TagOne(old(WithBlocks(dst, before)), dst, p)
    {
      assert p < nlink.Length;
      hide Geometry, LinksMatch;
      assert |WithBlocks(dst, before).metas[dst].blocks| == i;
      AddLink(Slot(dst, i), p);
      assert metas[dst := metas[dst].(blocks := before)][dst := metas[dst].(blocks := before + [p])] ==
        metas[dst := metas[dst].(blocks := before + [p])];
    }

    method StorageDelete(ft: FileTag) returns (reply: Reply)
      requires Valid()
      modifies this, used, nlink
      ensures Valid() && (Snapshot(), reply) == DeleteFile(hash, old(Snapshot()), ft)
    {
      if IsBaseFile(ft) {
        return NotDefErr;
      }
      if ft !in metas {
        return ErrInexistencia;
      }
      AllLinked(Snapshot(), ft);
      DeleteConserves(hash, blockSize, Snapshot(), ft);
      hide Geometry, LinksMatch, Counted, NoLeak, ZeroIntact, DeleteOne;
      var count := |metas[ft].blocks|;
      var i := 0;
      while i < count
        invariant 0 <= i <= count && metas == old(metas)
        invariant LinkedFrom(Snapshot(), ft, i)
        invariant DeleteFrom(hash, Snapshot(), ft, i) == DeleteFrom(hash, old(Snapshot()), ft, 0)
      {
        DeleteBlock(ft, i);
        i := i + 1;
      }
      metas := metas - {ft};
      reply := OpExitosa;
      assert Snapshot() == DeleteFile(hash, old(Snapshot()), ft).0;
    }

    /** One round of the DELETE loop. */
    method DeleteBlock(ft: FileTag, i: nat)
      requires LinkedFrom(Snapshot(), ft, i) && i < |metas[ft].blocks|
      modifies this`links, this`index, used, nlink
      ensures Snapshot() == DeleteOne(hash, old(Snapshot()), ft, i)
    {
      var s := Slot(ft, i);
      var p := metas[ft].blocks[i];
      assert s in links && links[s] == p;
      var key := GetHashFromBlock(s);
      RemoveLink(s);
      if p == 0 {
        return;
      }
      if nlink[p] < 2 {
        RemoveHash(key);
        MarkBlockFree(p);
      }
    }
  }
}
