/** Multi-page copies move exactly `Transferred` bytes, contiguously, to and from the flat file. */
module WorkerBytes {
  import opened StorageModel
  import opened StorageSpec
  import opened FlatFile
  import opened WorkerModel
  import opened WorkerFrames
  import opened WorkerAccess
  import opened WorkerView
  import opened WorkerFaults
  import opened WorkerCopies
  import opened WorkerTransparency

  /** From `m` to `r` the bytes `text` were written at address `base` of `ft`, and every other
      byte of every file is as before. */
  ghost predicate Wrote(m: Mem, r: Mem, ft: FileTag, base: nat, text: string) {
    && 0 < m.tam && Coherent(r) && r.tam == m.tam && r.policy == m.policy && ft in m.srv && ft in r.srv
    && View(r) == View(m)[ft := View(m)[ft].(blocks := View(r)[ft].blocks)]
    && FlatWritten(m.tam, View(m)[ft].blocks, base, text, View(r)[ft].blocks)
  }

  lemma ViewWhole(m: Mem, ft: FileTag)
    requires Coherent(m) && ft in m.srv
    ensures Whole(m.tam, View(m)[ft].blocks) && |View(m)[ft].blocks| == |m.srv[ft].blocks|
    ensures View(m)[ft].estado == m.srv[ft].estado && 0 < m.tam
  {
    hide CleanAgrees, Synced, CountsAhead, DirtyResident, DirtyAccepted;
    forall k | 0 <= k < |m.srv[ft].blocks|
      ensures |PageView(m, PageId(ft, k))| == m.tam
    {
    }
  }

  lemma CoherentBasics(m: Mem)
    requires Coherent(m)
    ensures Sound(m) && 0 < m.tam
  {
  }

  // ---------------------------------------------------------------- composing writes

  lemma ChunkWrote(m: Mem, r: Mem, id: PageId, off: nat, text: string)
    requires Coherent(m) && Present(m, id) && off + |text| <= m.tam && r == WriteChunk(m, id, off, text)
    requires id.ft in m.srv && m.srv[id.ft].estado == WorkInProgress && id.nro < |m.srv[id.ft].blocks|
    ensures Wrote(m, r, id.ft, Base(id.nro, m.tam) + off, text) && r.srv == m.srv
  {
    hide Coherent, View, WriteChunk, Base, Splice, Sound, Present, Whole, Wrote;
    CoherentBasics(m);
    ViewWhole(m, id.ft);
    WriteChunkView(m, id, off, text);
    SpliceWrote(m, r, id, off, text, View(m)[id.ft]);
  }

  /** One block spliced is one chunk of the flat file written. */
  lemma SpliceWrote(m: Mem, r: Mem, id: PageId, off: nat, text: string, f: File)
    requires 0 < m.tam && Coherent(r) && r.tam == m.tam && r.policy == m.policy && id.ft in m.srv && id.ft in r.srv
    requires f == View(m)[id.ft] && Whole(m.tam, f.blocks) && id.nro < |f.blocks| && off + |text| <= m.tam
    requires |f.blocks[id.nro]| == m.tam
    requires View(r) == View(m)[id.ft := f.(blocks := f.blocks[id.nro := Splice(f.blocks[id.nro], off, text)])]
    ensures Wrote(m, r, id.ft, Base(id.nro, m.tam) + off, text)
  {
    hide Coherent, View, FlatWritten, Base, Splice, Whole, Wrote;
    SpliceIsFlat(m.tam, f.blocks, id.nro, off, text);
    WroteOf(m, r, id.ft, Base(id.nro, m.tam) + off, text, f.blocks[id.nro := Splice(f.blocks[id.nro], off, text)]);
  }

  lemma WroteOf(m: Mem, r: Mem, ft: FileTag, base: nat, text: string, after: seq<Block>)
    requires 0 < m.tam && Coherent(r) && r.tam == m.tam && r.policy == m.policy && ft in m.srv && ft in r.srv
    requires View(r) == View(m)[ft := View(m)[ft].(blocks := after)]
    requires FlatWritten(m.tam, View(m)[ft].blocks, base, text, after)
    ensures Wrote(m, r, ft, base, text)
  {
    hide Coherent, FlatWritten;
    assert View(r)[ft].blocks == after;
  }

  lemma WroteChain(m: Mem, r: Mem, z: Mem, ft: FileTag, base: nat, s: string, t: string)
    requires Wrote(m, r, ft, base, s) && Wrote(r, z, ft, base + |s|, t)
    ensures Wrote(m, z, ft, base, s + t)
  {
    hide Coherent, FlatWritten, View;
    FlatChain(m.tam, View(m)[ft].blocks, base, s, View(r)[ft].blocks, t, View(z)[ft].blocks);
  }

  lemma TransparentWrote(m: Mem, r: Mem, z: Mem, ft: FileTag, base: nat, text: string)
    requires Transparent(m, r) && ft in m.srv && Wrote(r, z, ft, base, text)
    ensures Wrote(m, z, ft, base, text)
  {
    hide Coherent, FlatWritten;
  }

  /** Writing nothing writes nothing anywhere. */
  lemma WroteNothing(m: Mem, r: Mem, ft: FileTag, base: nat, other: nat)
    requires Wrote(m, r, ft, base, "")
    ensures Wrote(m, r, ft, other, "")
  {
    hide Coherent, View, ByteAt;
  }

  lemma WroteSelf(m: Mem, ft: FileTag, base: nat)
    requires Coherent(m) && ft in m.srv
    ensures Wrote(m, m, ft, base, "")
  {
    ViewWhole(m, ft);
    FlatNothing(m.tam, View(m)[ft].blocks, base);
    assert View(m)[ft := View(m)[ft]] == View(m);
    hide Coherent, FlatWritten;
  }

  lemma WroteKeepsHeaders(m: Mem, r: Mem, ft: FileTag, base: nat, text: string)
    requires Wrote(m, r, ft, base, text)
    ensures r.srv.Keys == m.srv.Keys && r.srv[ft].estado == m.srv[ft].estado
    ensures |r.srv[ft].blocks| == |m.srv[ft].blocks| && Coherent(r) && r.tam == m.tam
  {
    hide Coherent, ByteAt;
    assert View(r)[ft].estado == View(m)[ft].estado;
    assert View(r).Keys == View(m).Keys;
    assert |View(r)[ft].blocks| == |View(m)[ft].blocks|;
  }

  lemma TransparentKeepsHeaders(m: Mem, r: Mem)
    requires Transparent(m, r)
    ensures SameHeaders(m.srv, r.srv) && r.tam == m.tam
  {
    hide Coherent;
    assert View(r).Keys == View(m).Keys;
    forall ft | ft in m.srv
      ensures SameHeader(m.srv[ft], r.srv[ft])
    {
      assert View(m)[ft] == View(r)[ft];
    }
  }

  // ---------------------------------------------------------------- WRITE

  /** The file can be written to and the Worker's view of it is coherent. */
  ghost predicate Writable(m: Mem, ft: FileTag) {
    Coherent(m) && Measured(m.tam, m.srv, ft) && ft in m.srv && m.srv[ft].estado == WorkInProgress
  }

  lemma {:induction false} WriteRestWrote(m: Mem, ft: FileTag, nro: nat, text: string, pages: nat, r: Outcome)
    requires Writable(m, ft) && Sound(m) && r == WriteRest(m, ft, nro, text, pages)
    ensures r.Ready? <==> pages == 0 || nro + pages <= |m.srv[ft].blocks|
    ensures r.Ready? ==> Wrote(m, r.m, ft, Base(nro, m.tam), First(text, Base(pages, m.tam)))
    decreases pages
  {
    hide Sound, PaginaEnTabla, Coherent, Transparent, Wrote, WriteChunk;
    if pages == 0 {
      WroteSelf(m, ft, Base(nro, m.tam));
    } else {
      var id := PageId(ft, nro);
      PaginaCoherent(m, id);
      var found := PaginaEnTabla(m, id);
      if found.Ready? {
        var m1 := found.m;
        TransparentKeepsHeaders(m, m1);
        CoherentOf(m, m1);
        CoherentBasics(m1);
        var m2 := WriteChunk(m1, id, 0, First(text, m.tam));
        ChunkWrote(m1, m2, id, 0, First(text, m.tam));
        WroteKeepsHeaders(m1, m2, ft, Base(nro, m.tam), First(text, m.tam));
        CoherentBasics(m2);
        WriteRestWrote(m2, ft, nro + 1, After(text, m.tam), pages - 1, r);
        if r.Ready? {
          WriteRestJoin(m1, m2, r.m, id, text, pages);
          TransparentWrote(m, m1, r.m, ft, Base(nro, m.tam), First(text, Base(pages, m.tam)));
        }
      }
    }
  }

  /** The first chunk and the rest make one contiguous write. */
  lemma WriteRestJoin(m: Mem, m1: Mem, r: Mem, id: PageId, text: string, pages: nat)
    requires 0 < pages && 0 < m.tam && m1.tam == m.tam
    requires Wrote(m, m1, id.ft, Base(id.nro, m.tam), First(text, m.tam))
    requires Wrote(m1, r, id.ft, Base(id.nro + 1, m.tam), First(After(text, m.tam), Base(pages - 1, m.tam)))
    ensures Wrote(m, r, id.ft, Base(id.nro, m.tam), First(text, Base(pages, m.tam)))
  {
    hide Wrote;
    var tail := First(After(text, m.tam), Base(pages - 1, m.tam));
    FirstAfter(text, m.tam, Base(pages - 1, m.tam));
    if |text| < m.tam {
      assert tail == "";
      WroteNothing(m1, r, id.ft, Base(id.nro + 1, m.tam), Base(id.nro, m.tam) + |text|);
    }
    WroteChain(m, m1, r, id.ft, Base(id.nro, m.tam), First(text, m.tam), tail);
  }

  /** WRITE succeeds just when every page it touches is in the file, and then writes the first
      `Transferred` bytes at their addresses. */
  lemma EscribirWrote(m: Mem, id: PageId, off: nat, text: string, r: Outcome)
    requires Writable(m, id.ft) && Sound(m) && Present(m, id) && off < m.tam && id.nro < |m.srv[id.ft].blocks|
    requires r == Escribir(m, id, off, text)
    ensures r.Ready? <==> id.nro + PagesTouched(m.tam, off, |text|) <= |m.srv[id.ft].blocks|
    ensures r.Ready? ==>
      Wrote(m, r.m, id.ft, Base(id.nro, m.tam) + off, First(text, Transferred(m.tam, off, |text|)))
  {
    hide Sound, Coherent, Wrote, WriteChunk, WriteRest, PagesTouched, Transferred, PagesAfterFirst, Base, Present;
    if |text| <= m.tam - off {
      ChunkWrote(m, r.m, id, off, text);
      TransferredFits(m.tam, off, |text|);
      assert First(text, |text|) == text;
    } else {
      var esp := m.tam - off;
      var m1 := WriteChunk(m, id, off, First(text, esp));
      var more := PagesAfterFirst(|text|, m.tam);
      ChunkWrote(m, m1, id, off, First(text, esp));
      TransferredSpans(m.tam, off, |text|);
      WroteKeepsHeaders(m, m1, id.ft, Base(id.nro, m.tam) + off, First(text, esp));
      CoherentBasics(m1);
      WriteRestWrote(m1, id.ft, id.nro + 1, After(text, esp), more, r);
      if r.Ready? {
        EscribirJoin(m, m1, r.m, id, off, text);
      }
    }
  }

  /** The end of the first page and the loop make one contiguous write. */
  lemma EscribirJoin(m: Mem, m1: Mem, r: Mem, id: PageId, off: nat, text: string)
    requires off < m.tam && m1.tam == m.tam && |text| > m.tam - off
    requires Wrote(m, m1, id.ft, Base(id.nro, m.tam) + off, First(text, m.tam - off))
    requires Wrote(m1, r, id.ft, Base(id.nro + 1, m.tam),
               First(After(text, m.tam - off), Base(PagesAfterFirst(|text|, m.tam), m.tam)))
    ensures Wrote(m, r, id.ft, Base(id.nro, m.tam) + off, First(text, Transferred(m.tam, off, |text|)))
  {
    hide Wrote, PagesTouched, Transferred, PagesAfterFirst;
    var esp := m.tam - off;
    var more := PagesAfterFirst(|text|, m.tam);
    BaseNext(id.nro, m.tam);
    TransferredSpans(m.tam, off, |text|);
    FirstAfter(text, esp, Base(more, m.tam));
    FirstMin(text, esp + Base(more, m.tam));
    hide Base;
    WroteChain(m, m1, r, id.ft, Base(id.nro, m.tam) + off, First(text, esp),
               First(After(text, esp), Base(more, m.tam)));
  }

  lemma FirstMin(text: string, n: nat)
    ensures First(text, n) == First(text, Least(|text|, n))
  {
  }

  lemma BaseNext(nro: nat, tam: nat)
    ensures Base(nro + 1, tam) == Base(nro, tam) + tam
  {
  }

  lemma TransferredFits(tam: nat, off: nat, len: nat)
    requires off < tam && len <= tam - off
    ensures Transferred(tam, off, len) == len && PagesTouched(tam, off, len) == 1
  {
  }

  lemma TransferredSpans(tam: nat, off: nat, len: nat)
    requires off < tam && len > tam - off
    ensures PagesTouched(tam, off, len) == 1 + PagesAfterFirst(len, tam)
    ensures Transferred(tam, off, len) == Least(len, tam - off + Base(PagesAfterFirst(len, tam), tam))
  {
    CeilBounds(len, tam);
  }

  // ---------------------------------------------------------------- READ

  /** From `m` to `r` the `len` bytes at address `base` of `ft` were read, changing no content. */
  ghost predicate Got(m: Mem, r: Mem, ft: FileTag, base: nat, len: nat, text: string) {
    && 0 < m.tam && ft in m.srv && Transparent(m, r)
    && text == FlatRead(m.tam, View(m)[ft].blocks, base, len)
  }

  lemma GotChain(m: Mem, r: Mem, z: Mem, ft: FileTag, base: nat, j: nat, k: nat, s: string, t: string)
    requires Got(m, r, ft, base, j, s) && Got(r, z, ft, base + j, k, t)
    ensures Got(m, z, ft, base, j + k, s + t)
  {
    hide Coherent, FlatRead, View;
    TransparentChain(m, r, z);
    FlatReadSplit(m.tam, View(m)[ft].blocks, base, j, k);
  }

  /** Reading nothing reads nothing anywhere. */
  lemma GotNothing(m: Mem, ft: FileTag, base: nat)
    requires Coherent(m) && ft in m.srv
    ensures Got(m, m, ft, base, 0, "")
  {
    CoherentBasics(m);
    hide Coherent, View;
  }

  lemma GotKeepsHeaders(m: Mem, r: Mem, ft: FileTag, base: nat, len: nat, text: string)
    requires Got(m, r, ft, base, len, text)
    ensures Coherent(r) && Sound(r) && r.tam == m.tam && 0 < m.tam
    ensures ft in r.srv && |r.srv[ft].blocks| == |m.srv[ft].blocks|
  {
    hide FlatRead, Coherent;
    TransparentKeepsHeaders(m, r);
    CoherentBasics(r);
  }

  lemma FrameDataView(m: Mem, id: PageId)
    requires Sound(m) && Present(m, id)
    ensures FrameData(m, id) == PageView(m, id)
  {
    hide CountsAhead, DirtyResident;
  }

  /** A slice of a resident page is a slice of the file. */
  lemma PageSliceIsFlat(m: Mem, id: PageId, off: nat, len: nat)
    requires Coherent(m) && Sound(m) && Present(m, id) && id.ft in m.srv && id.nro < |m.srv[id.ft].blocks|
    requires off + len <= m.tam
    ensures FrameData(m, id)[off..off + len] == FlatRead(m.tam, View(m)[id.ft].blocks, Base(id.nro, m.tam) + off, len)
  {
    hide Coherent, Sound, Base, FlatRead, Present, PageView, FrameData;
    ViewWhole(m, id.ft);
    FrameDataView(m, id);
    var b := View(m)[id.ft].blocks;
    assert b[id.nro] == FrameData(m, id);
    SliceIsFlat(m.tam, b, id.nro, off, len);
  }

  /** One page read, once it is found. */
  lemma ChunkGot(m: Mem, id: PageId, off: nat, len: nat)
    requires Coherent(m) && Sound(m) && Present(m, id) && id.ft in m.srv && id.nro < |m.srv[id.ft].blocks|
    requires off + len <= m.tam
    ensures Got(m, ReadChunk(m, id), id.ft, Base(id.nro, m.tam) + off, len, FrameData(m, id)[off..off + len])
  {
    hide Coherent, Sound, Base, FlatRead, Present, FrameData, ReadChunk, View, Transparent;
    CoherentBasics(m);
    PageSliceIsFlat(m, id, off, len);
    ReadChunkTransparent(m, id);
  }

  lemma TransparentGot(m: Mem, r: Mem, z: Mem, ft: FileTag, base: nat, len: nat, text: string)
    requires Transparent(m, r) && ft in m.srv && Got(r, z, ft, base, len, text)
    ensures Got(m, z, ft, base, len, text)
  {
    hide Coherent, FlatRead, View;
    TransparentChain(m, r, z);
  }

  lemma {:induction false} ReadRestGot(m: Mem, ft: FileTag, nro: nat, len: nat, pages: nat, r: (Outcome, string))
    requires Coherent(m) && Sound(m) && Measured(m.tam, m.srv, ft) && ft in m.srv
    requires r == ReadRest(m, ft, nro, len, pages)
    ensures r.0.Ready? <==> pages == 0 || nro + pages <= |m.srv[ft].blocks|
    ensures r.0.Ready? ==> Got(m, r.0.m, ft, Base(nro, m.tam), Least(len, Base(pages, m.tam)), r.1)
    decreases pages
  {
    hide Sound, PaginaEnTabla, Coherent, Transparent, ReadChunk, FrameData, Present, Got, Base;
    if pages == 0 {
      GotNothing(m, ft, Base(nro, m.tam));
      BaseNothing(m.tam);
    } else {
      var id := PageId(ft, nro);
      PaginaCoherent(m, id);
      var found := PaginaEnTabla(m, id);
      if found.Ready? {
        var m1 := found.m;
        TransparentKeepsHeaders(m, m1);
        CoherentOf(m, m1);
        CoherentBasics(m1);
        var n := Least(len, m.tam);
        var m2 := ReadChunk(m1, id);
        var here := FrameData(m1, id)[..n];
        ChunkGot(m1, id, 0, n);
        assert FrameData(m1, id)[0..0 + n] == here;
        GotKeepsHeaders(m1, m2, ft, Base(nro, m.tam), n, here);
        var rest := ReadRest(m2, ft, nro + 1, len - n, pages - 1);
        ReadRestGot(m2, ft, nro + 1, len - n, pages - 1, rest);
        if rest.0.Ready? {
          ReadRestJoin(m1, m2, rest.0.m, id, len, pages, here, rest.1);
          TransparentGot(m, m1, rest.0.m, ft, Base(nro, m.tam), Least(len, Base(pages, m.tam)), here + rest.1);
        }
      }
    }
  }

  lemma BaseNothing(tam: nat)
    ensures Base(0, tam) == 0
  {
  }

  /** The first page read and the rest make one contiguous read. */
  lemma ReadRestJoin(m: Mem, m1: Mem, r: Mem, id: PageId, len: nat, pages: nat, here: string, text: string)
    requires 0 < pages && 0 < m.tam && m1.tam == m.tam
    requires Got(m, m1, id.ft, Base(id.nro, m.tam), Least(len, m.tam), here)
    requires Got(m1, r, id.ft, Base(id.nro + 1, m.tam), Least(len - Least(len, m.tam), Base(pages - 1, m.tam)), text)
    ensures Got(m, r, id.ft, Base(id.nro, m.tam), Least(len, Base(pages, m.tam)), here + text)
  {
    hide Got;
    var n := Least(len, m.tam);
    var k := Least(len - n, Base(pages - 1, m.tam));
    BaseNext(id.nro, m.tam);
    BaseNext(pages - 1, m.tam);
    hide Base;
    if len < m.tam {
      GotElsewhere(m1, r, id.ft, Base(id.nro + 1, m.tam), Base(id.nro, m.tam) + n, text);
    }
    GotChain(m, m1, r, id.ft, Base(id.nro, m.tam), n, k, here, text);
  }

  lemma GotElsewhere(m: Mem, r: Mem, ft: FileTag, base: nat, other: nat, text: string)
    requires Got(m, r, ft, base, 0, text)
    ensures Got(m, r, ft, other, 0, text)
  {
    hide Coherent, View;
  }

  /** READ succeeds just when every page it touches is in the file, changes no content, and
      copies the first `Transferred` of the bytes asked for. */
  lemma LeerGot(m: Mem, id: PageId, off: nat, len: nat, r: (Outcome, string))
    requires Coherent(m) && Sound(m) && Measured(m.tam, m.srv, id.ft) && Present(m, id) && off < m.tam
    requires id.ft in m.srv && id.nro < |m.srv[id.ft].blocks| && r == Leer(m, id, off, len)
    ensures r.0.Ready? <==> id.nro + PagesTouched(m.tam, off, len) <= |m.srv[id.ft].blocks|
    ensures r.0.Ready? ==>
      Got(m, r.0.m, id.ft, Base(id.nro, m.tam) + off, Transferred(m.tam, off, len), r.1)
  {
    hide Sound, Coherent, Got, ReadChunk, ReadRest, PagesTouched, Transferred, PagesAfterFirst, Base, Present;
    hide FrameData;
    var data := FrameData(m, id);
    var m1 := ReadChunk(m, id);
    if len <= m.tam - off {
      ChunkGot(m, id, off, len);
      TransferredFits(m.tam, off, len);
    } else {
      var esp := m.tam - off;
      var more := PagesAfterFirst(len, m.tam);
      ChunkGot(m, id, off, esp);
      assert data[off..off + esp] == data[off..];
      TransferredSpans(m.tam, off, len);
      GotKeepsHeaders(m, m1, id.ft, Base(id.nro, m.tam) + off, esp, data[off..]);
      var rest := ReadRest(m1, id.ft, id.nro + 1, len - esp, more);
      ReadRestGot(m1, id.ft, id.nro + 1, len - esp, more, rest);
      if rest.0.Ready? {
        LeerJoin(m, m1, rest.0.m, id, off, len, data[off..], rest.1);
      }
    }
  }

  lemma LeerJoin(m: Mem, m1: Mem, r: Mem, id: PageId, off: nat, len: nat, here: string, text: string)
    requires off < m.tam && m1.tam == m.tam && len > m.tam - off
    requires Got(m, m1, id.ft, Base(id.nro, m.tam) + off, m.tam - off, here)
    requires Got(m1, r, id.ft, Base(id.nro + 1, m.tam),
               Least(len - (m.tam - off), Base(PagesAfterFirst(len, m.tam), m.tam)), text)
    ensures Got(m, r, id.ft, Base(id.nro, m.tam) + off, Transferred(m.tam, off, len), here + text)
  {
    hide Got, PagesTouched, Transferred, PagesAfterFirst;
    var esp := m.tam - off;
    BaseNext(id.nro, m.tam);
    TransferredSpans(m.tam, off, len);
    hide Base;
    GotChain(m, m1, r, id.ft, Base(id.nro, m.tam) + off, esp,
      Least(len - esp, Base(PagesAfterFirst(len, m.tam), m.tam)),
             here, text);
  }
}
