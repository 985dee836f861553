/** The conditions `Admits` puts on READ and WRITE are needed: a file whose size does not describe
    its blocks gets a wrong table, and bytes written to a COMMITED file wait for a write-back that
    Storage will refuse. */
module WorkerGuards {
  import opened StorageModel
  import opened StorageSpec
  import opened FlatFile
  import opened WorkerModel
  import opened WorkerFrames
  import opened WorkerAccess
  import opened WorkerCopies
  import opened WorkerView
  import opened WorkerTransparency
  import opened WorkerReference
  import opened WorkerInstructions
  import opened WorkerFlush
  import opened WorkerSimulation

  // ---------------------------------------------------------------- the size describes the blocks

  /** Loading a table leaves the cache coherent exactly when the file's size describes its blocks. */
  lemma LoadTableIff(m: Mem, ft: FileTag)
    requires Coherent(m) && Sound(m) && 0 < m.tam && ft in m.srv && ft !in m.tables
    ensures Linked(m) && LoadTable(m, ft).Ready?
    ensures Coherent(LoadTable(m, ft).m) <==> Measured(m.tam, m.srv, ft)
  {
    if Measured(m.tam, m.srv, ft) {
      LoadTableCoherent(m, ft);
    } else {
      hide NeededBlocks;
      assert !Synced(LoadTable(m, ft).m);
    }
  }

  // ---------------------------------------------------------------- the store's headers

  /** Whatever is evicted on the way, files keep their sizes, states and numbers of blocks. */
  lemma EvictHeaders(m: Mem, f: nat, incoming: FileTag)
    requires Sound(m) && f < |m.bits| && m.bits[f]
    ensures SameHeaders(m.srv, Evict(m, f, incoming).srv)
  {
    EvictPages(m, f, incoming);
    SoundTam(m);
    StoreWrite(m.tam, m.srv, m.marcos[f].page, m.marcos[f].data);
    hide Evict, Sound, HoldsPage, MapStep, StoredIn;
    SameHeadersSelf(m.srv);
  }

  lemma SameHeadersSelf(a: FileMap)
    ensures SameHeaders(a, a)
  {
  }

  lemma FaultHeaders(m: Mem, id: PageId, data: Block)
    requires Sound(m) && HasPage(m, id) && id in m.pages && !m.pages[id].presencia
    ensures SameHeaders(m.srv, BringIn(m, id, data).srv)
  {
    SameHeadersSelf(m.srv);
    StillAbsent(m, id);
    if FirstFree(m.bits, 0).None? { ReplaceHeaders(m, id.ft); }
    hide Replace, SameHeaders;
  }

  lemma ReplaceHeaders(m: Mem, incoming: FileTag)
    requires Sound(m) && AllBusy(m)
    ensures SameHeaders(m.srv, Replace(m, incoming).0.srv)
  {
    if m.policy == LRU {
      hide Evict, SameHeaders;
      EvictHeaders(m, PageReplacement.Oldest(Times(m), 1, 0), incoming);
    } else {
      PageReplacement.ClockMChoice(Marks(m), m.hand);
      var scan := PageReplacement.ClockM(Marks(m), m.hand);
      SetUseSound(m, scan.marks);
      var m1 := SetUse(m, scan.marks);
      assert m1.bits[scan.victim];
      hide PageReplacement.ClockM, SetUse, Evict, SameHeaders;
      EvictHeaders(m1, scan.victim, incoming);
    }
  }

  lemma PaginaHeaders(m: Mem, id: PageId)
    requires Sound(m)
    ensures PaginaEnTabla(m, id).Ready? ==> SameHeaders(m.srv, PaginaEnTabla(m, id).m.srv)
  {
    hide Sound, Solicitar, SameHeaders, KeepsSlack, NewPages, NeededBlocks;
    SoundLinked(m);
    SameHeadersSelf(m.srv);
    var r := LoadTable(m, id.ft);
    if r.Ready? {
      LoadTableSound(m, id.ft);
      SoundLinked(r.m);
      assert r.m.srv == m.srv;
      if id.nro <= r.m.tables[id.ft].size {
        PageAtHeaders(r.m, id);
      } else {
        var r2 := RefreshTable(r.m, id.ft);
        if r2.Ready? {
          RefreshTableSound(r.m, id.ft);
          assert r2.m.srv == m.srv;
          PageAtHeaders(r2.m, id);
        }
      }
    }
  }

  lemma PageAtHeaders(m: Mem, id: PageId)
    requires Sound(m) && id.ft in m.tables
    ensures PageAt(m, id).Ready? ==> SameHeaders(m.srv, PageAt(m, id).m.srv)
  {
    hide Sound, BringIn, SameHeaders;
    SameHeadersSelf(m.srv);
    SoundTam(m);
    PagesInTables(m);
    if id.nro < m.tables[id.ft].size {
      assert HasPage(m, id);
      var reply := MapStep(m.tam, m.srv, Read(id.ft, id.nro)).1;
      if !m.pages[id].presencia && reply.Contenido? { FaultHeaders(m, id, reply.data); }
    }
  }

  // ---------------------------------------------------------------- bytes waiting for Storage

  /** A page of the file is dirty although Storage takes no writes to it. */
  ghost predicate Doomed(m: Mem, ft: FileTag) {
    ft in m.srv && m.srv[ft].estado == Commited && exists id :: id in m.pages && id.ft == ft && m.pages[id].modificado
  }

  lemma DoomedIncoherent(m: Mem, ft: FileTag)
    requires Doomed(m, ft)
    ensures !Coherent(m)
  {
    hide Sound;
  }

  lemma ChunkDoomed(m: Mem, id: PageId, off: nat, text: string)
    requires Sound(m) && Present(m, id) && off + |text| <= m.tam && id.ft in m.srv && m.srv[id.ft].estado == Commited
    ensures Doomed(WriteChunk(m, id, off, text), id.ft)
  {
    WriteChunkShape(m, id, off, text);
    hide WriteChunk, Sound, FrameOf, Splice;
    var r := WriteChunk(m, id, off, text);
    assert id in r.pages && r.pages[id].modificado;
  }

  lemma {:induction false} WriteRestDoomed(m: Mem, ft: FileTag, nro: nat, text: string, pages: nat)
    requires Sound(m) && Doomed(m, ft)
    ensures WriteRest(m, ft, nro, text, pages).Ready? ==> Doomed(WriteRest(m, ft, nro, text, pages).m, ft)
    decreases pages
  {
    hide Sound, PaginaEnTabla, WriteChunk, First, After;
    if pages > 0 {
      var id := PageId(ft, nro);
      var r := PaginaEnTabla(m, id);
      if r.Ready? {
        PaginaHeaders(m, id);
        var m2 := WriteChunk(r.m, id, 0, First(text, m.tam));
        ChunkDoomed(r.m, id, 0, First(text, m.tam));
        WriteRestDoomed(m2, ft, nro + 1, After(text, m.tam), pages - 1);
      }
    }
  }

  lemma EscribirDoomed(m: Mem, id: PageId, off: nat, text: string)
    requires Sound(m) && Present(m, id) && off < m.tam && id.ft in m.srv && m.srv[id.ft].estado == Commited
    ensures Escribir(m, id, off, text).Ready? ==> Doomed(Escribir(m, id, off, text).m, id.ft)
  {
    hide Sound, WriteChunk, WriteRest, PagesAfterFirst, Doomed, First, After;
    if |text| <= m.tam - off {
      ChunkDoomed(m, id, off, text);
    } else {
      var esp := m.tam - off;
      ChunkDoomed(m, id, off, First(text, esp));
      WriteRestDoomed(WriteChunk(m, id, off, First(text, esp)), id.ft, id.nro + 1, After(text, esp),
                      PagesAfterFirst(|text|, m.tam));
    }
  }

  /** A WRITE that answers success leaves the cache coherent exactly when the file is not COMMITED:
      Storage's refusal only comes with the write-back. */
  lemma WriteAdmitsIff(m: Mem, ft: FileTag, base: nat, text: string)
    requires Coherent(m) && Sound(m) && 0 < m.tam && ft in m.srv && Measured(m.tam, m.srv, ft)
    requires WriteAt(m, ft, base, text).Done? && WriteAt(m, ft, base, text).answer.Ok?
    ensures Coherent(WriteAt(m, ft, base, text).m) <==> m.srv[ft].estado == WorkInProgress
  {
    hide Coherent, Sound, Escribir, PaginaEnTabla, Measured, NeededBlocks, Remainder, Doomed, FlatExec;
    if m.srv[ft].estado == WorkInProgress {
      ViewAllWhole(m);
      WriteSimulates(m, ft, base, text);
    } else {
      var id := PageId(ft, NeededBlocks(m.tam, base));
      PaginaHeaders(m, id);
      var m1 := PaginaEnTabla(m, id).m;
      EscribirDoomed(m1, id, Remainder(m.tam, base), text);
      DoomedIncoherent(WriteAt(m, ft, base, text).m, ft);
    }
  }
}
