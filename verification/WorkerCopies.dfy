/** READ and WRITE copy across pages while pages are faulted in and evicted; the bytes they
    move are those of the flat file. */
module WorkerCopies {
  import opened StorageModel
  import opened FlatFile
  import opened WorkerModel
  import opened WorkerFrames
  import opened WorkerAccess

  // ---------------------------------------------------------------- the loops of the C code

  /** The loop of escribir_pagina: `pages` more pages, each from its base. */
  function WriteRest(m: Mem, ft: FileTag, nro: nat, text: string, pages: nat): (r: Outcome)
    requires Sound(m)
    ensures !r.Null? && (r.Ready? ==> Sound(r.m) && r.m.tam == m.tam)
    decreases pages
  {
    if pages == 0 then Ready(m)
    else
      var id := PageId(ft, nro);
      var r := PaginaEnTabla(m, id);
      if !r.Ready? then Exit  // pagina_extra is NULL
      else
        WriteRest(WriteChunk(r.m, id, 0, First(text, m.tam)), ft, nro + 1, After(text, m.tam), pages - 1)
  }

  /** The bytes of the frame a resident page is in. */
  function FrameData(m: Mem, id: PageId): (data: Block)
    requires Sound(m) && Present(m, id)
    ensures |data| == m.tam
  {
    m.marcos[FrameOf(m, id)].data
  }

  /** The loop of leer_pagina. */
  function ReadRest(m: Mem, ft: FileTag, nro: nat, len: nat, pages: nat): (r: (Outcome, string))
    requires Sound(m)
    ensures !r.0.Null? && (r.0.Ready? ==> Sound(r.0.m) && r.0.m.tam == m.tam)
    decreases pages
  {
    if pages == 0 then (Ready(m), "")
    else
      var id := PageId(ft, nro);
      var r := PaginaEnTabla(m, id);
      if !r.Ready? then (Exit, "")
      else
        var n := Least(len, m.tam);
        var here := FrameData(r.m, id)[..n];
        var (rest, text) := ReadRest(ReadChunk(r.m, id), ft, nro + 1, len - n, pages - 1);
        (rest, here + text)
  }

  /** escribir_pagina, on the page the address falls in. */
  function Escribir(m: Mem, id: PageId, off: nat, text: string): (r: Outcome)
    requires Sound(m) && Present(m, id) && off < m.tam
    ensures !r.Null? && (r.Ready? ==> Sound(r.m) && r.m.tam == m.tam)
  {
    hide PagesAfterFirst, WriteChunk, FramesWhole, CountsAhead, DirtyResident;
    if |text| <= m.tam - off then Ready(WriteChunk(m, id, off, text))
    else
      var esp := m.tam - off;
      var m1 := WriteChunk(m, id, off, First(text, esp));
      WriteRest(m1, id.ft, id.nro + 1, After(text, esp), PagesAfterFirst(|text|, m.tam))
  }

  /** leer_pagina: the bytes copied; what lies beyond them in the buffer is not initialised. */
  function Leer(m: Mem, id: PageId, off: nat, len: nat): (r: (Outcome, string))
    requires Sound(m) && Present(m, id) && off < m.tam
    ensures !r.0.Null? && (r.0.Ready? ==> Sound(r.0.m) && r.0.m.tam == m.tam)
  {
    hide PagesAfterFirst, ReadChunk, CountsAhead, DirtyResident;
    var data := FrameData(m, id);
    if len <= m.tam - off then (Ready(ReadChunk(m, id)), data[off..off + len])
    else
      var esp := m.tam - off;
      var (rest, text) := ReadRest(ReadChunk(m, id), id.ft, id.nro + 1, len - esp, PagesAfterFirst(len, m.tam));
      (rest, data[off..] + text)
  }
}
