/** A file as its bytes: what a READ or a WRITE at a byte address means, with no pages in
    sight of the definition of an address. */
module FlatFile {
  import opened StorageModel

  // ---------------------------------------------------------------- arithmetic of addresses

  lemma MulMono(a: nat, b: nat, c: nat)
    requires a <= b
    ensures a * c <= b * c
  {
    assert b * c == a * c + (b - a) * c;
  }

  lemma MulNext(k: nat, tam: nat)
    ensures (k + 1) * tam == k * tam + tam
  {
  }

  /** The address of a page's first byte: nro * tam. */
  function Base(nro: nat, tam: nat): (a: nat) {
    if nro == 0 then 0 else Base(nro - 1, tam) + tam
  }

  lemma {:induction false} BaseIsProduct(nro: nat, tam: nat)
    ensures Base(nro, tam) == nro * tam
    decreases nro
  {
    if nro > 0 {
      BaseIsProduct(nro - 1, tam);
      MulNext(nro - 1, tam);
    }
  }

  /** Quotient and remainder are unique. */
  lemma DivMod(a: nat, tam: nat, q: nat, r: nat)
    requires 0 < tam && a == q * tam + r && r < tam
    ensures a / tam == q && a % tam == r
  {
    var q' := a / tam;
    assert a == q' * tam + a % tam;
    if q' < q {
      MulMono(q' + 1, q, tam);
      MulNext(q', tam);
    } else if q < q' {
      MulMono(q + 1, q', tam);
      MulNext(q, tam);
    }
  }

  lemma DivModOf(a: nat, tam: nat)
    requires 0 < tam
    ensures a == (a / tam) * tam + a % tam && a % tam < tam
  {
  }

  // ---------------------------------------------------------------- bytes

  ghost predicate Whole(tam: nat, blocks: seq<Block>) {
    forall k :: 0 <= k < |blocks| ==> |blocks[k]| == tam
  }

  /** The byte at address `a` of the file. */
  function ByteAt(tam: nat, blocks: seq<Block>, a: nat): char
    requires 0 < tam
  {
    if a / tam < |blocks| && a % tam < |blocks[a / tam]| then blocks[a / tam][a % tam] else '\0'
  }

  /** `len` bytes from address `base`. */
  function FlatRead(tam: nat, blocks: seq<Block>, base: nat, len: nat): (r: string)
    requires 0 < tam
    ensures |r| == len && forall j :: 0 <= j < len ==> r[j] == ByteAt(tam, blocks, base + j)
  {
    seq(len, j requires 0 <= j < len => ByteAt(tam, blocks, base + j))
  }

  /** The bytes of `text` at addresses `base..`, every other byte unchanged. */
  ghost predicate FlatWritten(tam: nat, blocks: seq<Block>, base: nat, text: string, after: seq<Block>)
    requires 0 < tam
  {
    && |after| == |blocks| && Whole(tam, after)
    && forall a: nat :: a < |blocks| * tam ==>
      ByteAt(tam, after, a) == if base <= a < base + |text| then text[a - base] else ByteAt(tam, blocks, a)
  }

  /** The address of a byte determines its block. */
  lemma AddressInFile(tam: nat, n: nat, a: nat)
    requires 0 < tam
    ensures a < n * tam <==> a / tam < n
  {
    DivModOf(a, tam);
    if a / tam < n {
      MulMono(a / tam + 1, n, tam);
      MulNext(a / tam, tam);
    } else {
      MulMono(n, a / tam, tam);
    }
  }

  /** Whole files are determined by their bytes. */
  lemma SameBytesSameFile(tam: nat, x: seq<Block>, y: seq<Block>)
    requires 0 < tam && |x| == |y| && Whole(tam, x) && Whole(tam, y)
    requires forall a: nat :: a < |x| * tam ==> ByteAt(tam, x, a) == ByteAt(tam, y, a)
    ensures x == y
  {
    forall k, o | 0 <= k < |x| && 0 <= o < tam
      ensures x[k][o] == y[k][o]
    {
      var a := k * tam + o;
      DivMod(a, tam, k, o);
      AddressInFile(tam, |x|, a);
      assert ByteAt(tam, x, a) == ByteAt(tam, y, a);
    }
    forall k | 0 <= k < |x| ensures x[k] == y[k] { }
  }

  // ---------------------------------------------------------------- one block at a time

  function Splice(b: Block, off: nat, text: string): (r: Block)
    requires off + |text| <= |b|
    ensures |r| == |b|
    ensures forall o :: 0 <= o < |r| ==> r[o] == if off <= o < off + |text| then text[o - off] else b[o]
  {
    b[..off] + text + b[off + |text|..]
  }

  /** Addresses inside a block, and outside it. */
  lemma BlockAddresses(tam: nat, k: nat, a: nat)
    requires 0 < tam
    ensures a / tam == k <==> k * tam <= a < k * tam + tam
    ensures a / tam == k ==> a % tam == a - k * tam
  {
    DivModOf(a, tam);
    if k * tam <= a < k * tam + tam { DivMod(a, tam, k, a - k * tam); }
  }

  lemma SpliceIsFlat(tam: nat, blocks: seq<Block>, k: nat, off: nat, text: string)
    requires 0 < tam && Whole(tam, blocks) && k < |blocks| && off + |text| <= tam
    ensures FlatWritten(tam, blocks, Base(k, tam) + off, text, blocks[k := Splice(blocks[k], off, text)])
  {
    hide Base, Splice, ByteAt;
    var after := blocks[k := Splice(blocks[k], off, text)];
    var base := Base(k, tam) + off;
    forall a: nat | a < |blocks| * tam
      ensures ByteAt(tam, after, a) == if base <= a < base + |text| then text[a - base] else ByteAt(tam, blocks, a)
    {
      AddressParts(tam, |blocks|, k, a);
      SpliceByte(tam, blocks, k, off, text, a, a / tam, a % tam);
    }
  }

  lemma SpliceByte(tam: nat, blocks: seq<Block>, k: nat, off: nat, text: string, a: nat, q: nat, o: nat)
    requires 0 < tam && Whole(tam, blocks) && k < |blocks| && off + |text| <= tam
    requires q == a / tam && o == a % tam && q < |blocks| && o < tam
    requires (q == k <==> Base(k, tam) <= a < Base(k, tam) + tam) && (q == k ==> o == a - Base(k, tam))
    ensures var base := Base(k, tam) + off;
      ByteAt(tam, blocks[k := Splice(blocks[k], off, text)], a) ==
        if base <= a < base + |text| then text[a - base] else ByteAt(tam, blocks, a)
  {
    hide Base, Splice;
    SpliceAt(tam, blocks, k, off, text, Base(k, tam), q, o, a);
  }

  lemma AddressParts(tam: nat, n: nat, k: nat, a: nat)
    requires 0 < tam && a < n * tam
    ensures a / tam < n && a % tam < tam
    ensures a / tam == k <==> Base(k, tam) <= a < Base(k, tam) + tam
    ensures a / tam == k ==> a % tam == a - Base(k, tam)
  {
    BaseIsProduct(k, tam);
    AddressInFile(tam, n, a);
    BlockAddresses(tam, k, a);
  }

  /** The spliced block at offset `o`, the others as they were. */
  lemma SpliceAt(tam: nat, blocks: seq<Block>, k: nat, off: nat, text: string, base: nat, q: nat, o: nat, a: nat)
    requires Whole(tam, blocks) && k < |blocks| && off + |text| <= tam && q < |blocks| && o < tam
    requires (q == k <==> base <= a < base + tam) && (q == k ==> o == a - base)
    ensures |blocks[k]| == tam
    ensures var after := blocks[k := Splice(blocks[k], off, text)];
      o < |after[q]| && o < |blocks[q]| && after[q][o] ==
        if base + off <= a < base + off + |text| then text[a - (base + off)] else blocks[q][o]
  {
  }

  lemma FlatChain(tam: nat, x: seq<Block>, base: nat, s: string, y: seq<Block>, t: string, z: seq<Block>)
    requires 0 < tam && FlatWritten(tam, x, base, s, y) && FlatWritten(tam, y, base + |s|, t, z)
    ensures FlatWritten(tam, x, base, s + t, z)
  {
  }

  lemma FlatNothing(tam: nat, blocks: seq<Block>, base: nat)
    requires 0 < tam && Whole(tam, blocks)
    ensures FlatWritten(tam, blocks, base, "", blocks)
  {
  }

  /** A written file is a function of the file before. */
  lemma FlatUnique(tam: nat, blocks: seq<Block>, base: nat, text: string, x: seq<Block>, y: seq<Block>)
    requires 0 < tam && FlatWritten(tam, blocks, base, text, x) && FlatWritten(tam, blocks, base, text, y)
    ensures x == y
  {
    SameBytesSameFile(tam, x, y);
  }

  lemma ByteInBlock(tam: nat, blocks: seq<Block>, k: nat, o: nat)
    requires 0 < tam && Whole(tam, blocks) && k < |blocks| && o < tam
    ensures ByteAt(tam, blocks, k * tam + o) == blocks[k][o]
  {
    DivMod(k * tam + o, tam, k, o);
  }

  lemma SliceIsFlat(tam: nat, blocks: seq<Block>, k: nat, off: nat, len: nat)
    requires 0 < tam && Whole(tam, blocks) && k < |blocks| && off + len <= tam
    ensures FlatRead(tam, blocks, Base(k, tam) + off, len) == blocks[k][off..off + len]
  {
    BaseIsProduct(k, tam);
    var read := FlatRead(tam, blocks, Base(k, tam) + off, len);
    forall j | 0 <= j < len
      ensures read[j] == blocks[k][off..off + len][j]
    {
      ByteInBlock(tam, blocks, k, off + j);
    }
  }

  lemma FlatReadSplit(tam: nat, blocks: seq<Block>, base: nat, m: nat, n: nat)
    requires 0 < tam
    ensures FlatRead(tam, blocks, base, m + n) == FlatRead(tam, blocks, base, m) + FlatRead(tam, blocks, base + m, n)
  {
  }

  // ---------------------------------------------------------------- how much one instruction copies

  /** (int)ceil((double)len/tam), by repeated subtraction. */
  function Ceil(len: nat, tam: nat): (c: nat)
    requires 0 < tam
  {
    if len == 0 then 0 else if len <= tam then 1 else 1 + Ceil(len - tam, tam)
  }

  /** Pages a copy of more than one page visits after the first. */
  function PagesAfterFirst(len: nat, tam: nat): nat
    requires 0 < tam
  {
    if Ceil(len, tam) == 0 then 0 else Ceil(len, tam) - 1
  }

  /** Pages touched by a copy of `len` bytes at offset `off` of its first page. */
  function PagesTouched(tam: nat, off: nat, len: nat): nat
    requires off < tam
  {
    if len <= tam - off then 1 else Ceil(len, tam)
  }

  /** The first `n` characters, or all of them. */
  function First(text: string, n: nat): (r: string)
    ensures |r| == if n <= |text| then n else |text|
  {
    if n <= |text| then text[..n] else text
  }

  /** What follows the first `n` characters. */
  function After(text: string, n: nat): (r: string)
    ensures |r| == if n <= |text| then |text| - n else 0
  {
    if n <= |text| then text[n..] else ""
  }

  lemma FirstAfter(text: string, m: nat, n: nat)
    ensures First(text, m + n) == First(text, m) + First(After(text, m), n)
  {
  }

  function Least(a: nat, b: nat): nat {
    if a <= b then a else b
  }

  /** Bytes the copy transfers: the page count ignores the offset of the first page. */
  function Transferred(tam: nat, off: nat, len: nat): (t: nat)
    requires off < tam
    ensures t <= len
  {
    CeilBounds(len, tam);
    Least(len, Base(PagesTouched(tam, off, len), tam) - off)
  }

  lemma {:induction false} CeilBounds(len: nat, tam: nat)
    requires 0 < tam
    ensures len <= Base(Ceil(len, tam), tam) < len + tam
    ensures 0 < len ==> 1 <= Ceil(len, tam)
    decreases len
  {
    if len > tam { CeilBounds(len - tam, tam); }
  }

  /** The two counts by subtraction are the quotients of the C code. */
  lemma {:induction false} CountsAreQuotients(len: nat, tam: nat)
    requires 0 < tam
    ensures Ceil(len, tam) == (len + tam - 1) / tam
    ensures NeededBlocks(tam, len) == len / tam
    decreases len
  {
    CeilBounds(len, tam);
    BaseIsProduct(Ceil(len, tam), tam);
    DivMod(len + tam - 1, tam, Ceil(len, tam), len + tam - 1 - Ceil(len, tam) * tam);
    if len >= tam {
      CountsAreQuotients(len - tam, tam);
      MulNext((len - tam) / tam, tam);
      DivModOf(len - tam, tam);
      DivMod(len, tam, (len - tam) / tam + 1, (len - tam) % tam);
    } else {
      DivMod(len, tam, 0, len);
    }
  }

  /** A copy is complete exactly when offset and length fit in the pages the length alone needs. */
  lemma CompleteIff(tam: nat, off: nat, len: nat)
    requires off < tam && 0 < len
    ensures Transferred(tam, off, len) == len <==> off + len <= Base(Ceil(len, tam), tam)
  {
    CeilBounds(len, tam);
  }

  /** size % tam, by repeated subtraction. */
  function Remainder(tam: nat, size: nat): (r: nat)
    requires 0 < tam
    ensures r < tam
  {
    if size < tam then size else Remainder(tam, size - tam)
  }

  /** The page an address falls in, and the address inside it. */
  lemma {:induction false} PageOf(tam: nat, a: nat)
    requires 0 < tam
    ensures Base(NeededBlocks(tam, a), tam) <= a < Base(NeededBlocks(tam, a), tam) + tam
    ensures a - Base(NeededBlocks(tam, a), tam) == Remainder(tam, a)
    decreases a
  {
    if a >= tam { PageOf(tam, a - tam); }
  }

  lemma RemainderIsMod(tam: nat, a: nat)
    requires 0 < tam
    ensures Remainder(tam, a) == a % tam
  {
    PageOf(tam, a);
    BaseIsProduct(NeededBlocks(tam, a), tam);
    DivMod(a, tam, NeededBlocks(tam, a), Remainder(tam, a));
  }

  // ---------------------------------------------------------------- writing, as a function

  function FlatWrite(tam: nat, blocks: seq<Block>, base: nat, text: string): (r: seq<Block>)
    requires 0 < tam && Whole(tam, blocks)
    ensures |r| == |blocks| && Whole(tam, r)
  {
    seq(|blocks|, k requires 0 <= k < |blocks| =>
      seq(tam, o requires 0 <= o < tam =>
        var a := Base(k, tam) + o;
        if base <= a < base + |text| then text[a - base] else blocks[k][o]))
  }

  /** The bytes of `text` are at their addresses and every other byte is unchanged. */
  lemma FlatWriteIsWritten(tam: nat, blocks: seq<Block>, base: nat, text: string)
    requires 0 < tam && Whole(tam, blocks)
    ensures FlatWritten(tam, blocks, base, text, FlatWrite(tam, blocks, base, text))
  {
    var after := FlatWrite(tam, blocks, base, text);
    forall a: nat | a < |blocks| * tam
      ensures ByteAt(tam, after, a) == if base <= a < base + |text| then text[a - base] else ByteAt(tam, blocks, a)
    {
      AddressInFile(tam, |blocks|, a);
      DivModOf(a, tam);
      BaseIsProduct(a / tam, tam);
    }
  }
}
