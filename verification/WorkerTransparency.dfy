/** Cache transparency: reads and writes through the pages are reads and writes of the flat
    file, however many pages they fault in and evict on the way. */
module WorkerTransparency {
  import opened StorageModel
  import opened FlatFile
  import opened WorkerModel
  import opened WorkerFrames
  import opened WorkerAccess
  import opened WorkerView
  import opened WorkerFaults

  // ---------------------------------------------------------------- finding a page

  lemma LoadTableCoherent(m: Mem, ft: FileTag)
    requires Coherent(m) && Measured(m.tam, m.srv, ft)
    ensures var r := LoadTable(m, ft);
      if ft in m.srv then r.Ready? && Transparent(m, r.m) else r.Exit?
  {
    hide NeededBlocks;
    if ft in m.srv && ft !in m.tables {
      LoadTableSound(m, ft);
      LoadTablePages(m, ft);
      var r := LoadTable(m, ft).m;
      assert PagesOf(m, ft) == |m.srv[ft].blocks|;
      assert Synced(r);
      assert CleanAgrees(r);
      hide Sound, Present, PageView, LoadTable, Stored, CleanAgrees, WholeBlocks, Transparent;
      SyncedViewsCarryOver(m, r);
    }
  }

  lemma LoadTablePages(m: Mem, ft: FileTag)
    requires Linked(m) && ft in m.srv && ft !in m.tables
    ensures var r := LoadTable(m, ft).m;
      && r.srv == m.srv && r.marcos == m.marcos && r.tam == m.tam && r.policy == m.policy
      && r.tables == m.tables[ft := Tabla(PagesOf(m, ft), PagesOf(m, ft))]
      && (forall id :: Present(r, id) <==> Present(m, id))
      && (forall id :: id in r.pages && r.pages[id].modificado ==> id in m.pages && m.pages[id].modificado)
      && (forall id :: Present(m, id) ==> r.pages[id] == m.pages[id])
      && (forall id :: PageView(r, id) == PageView(m, id) && Stored(r, id) == Stored(m, id))
  {
    hide NeededBlocks;
    assert forall id :: id in m.pages ==> HasPage(m, id);
  }

  /** With tables as long as the files, pagina_en_Tabla finds just the pages of the file.  A
      number equal to the file's length is not recognised as out of range. */
  lemma PaginaCoherent(m: Mem, id: PageId)
    requires Coherent(m) && Measured(m.tam, m.srv, id.ft)
    ensures match PaginaEnTabla(m, id)
      case Exit => id.ft !in m.srv || id.nro == |m.srv[id.ft].blocks|
      case Null(r) => id.ft in m.srv && id.nro > |m.srv[id.ft].blocks| && Transparent(m, r)
      case Ready(r) => id.ft in m.srv && id.nro < |m.srv[id.ft].blocks| && Transparent(m, r) && Present(r, id)
  {
    hide NeededBlocks, LoadTable, Transparent, Coherent, Sound, PageAt, RefreshTable, Measured;
    SoundOf(m);
    LoadTableCoherent(m, id.ft);
    if id.ft in m.srv {
      var m1 := LoadTable(m, id.ft).m;
      LoadTableLength(m, id.ft);
      CoherentOf(m, m1);
      LoadTableSound(m, id.ft);
      if id.nro < m1.tables[id.ft].size {
        assert HasPage(m1, id);
        PageAtCoherent(m1, id);
        TransparentChain(m, m1, PageAt(m1, id).m);
      } else if id.nro > m1.tables[id.ft].size {
        MeasuredSame(m, m1, id.ft);
        RefreshSynced(m1, id.ft);
      } else {
        BeyondLast(m1, id);
      }
    }
  }

  lemma SoundOf(m: Mem)
    requires Coherent(m)
    ensures Sound(m)
  {
  }

  lemma MeasuredSame(m: Mem, r: Mem, ft: FileTag)
    requires Measured(m.tam, m.srv, ft) && r.srv == m.srv && r.tam == m.tam
    ensures Measured(r.tam, r.srv, ft)
  {
  }

  /** The node list_get does not find. */
  lemma BeyondLast(m: Mem, id: PageId)
    requires Sound(m) && id.ft in m.tables && id.nro == m.tables[id.ft].size
    ensures PageAt(m, id).Exit?
  {
    hide CountsAhead, DirtyResident;
  }

  lemma LoadTableLength(m: Mem, ft: FileTag)
    requires Coherent(m) && Measured(m.tam, m.srv, ft) && ft in m.srv
    ensures var r := LoadTable(m, ft);
      r.Ready? && r.m.srv == m.srv && ft in r.m.tables && r.m.tables[ft].size == |m.srv[ft].blocks|
  {
    assert PagesOf(m, ft) == |m.srv[ft].blocks|;
    hide NeededBlocks, Linked;
  }

  lemma RefreshSynced(m: Mem, ft: FileTag)
    requires Coherent(m) && ft in m.tables && Measured(m.tam, m.srv, ft)
    ensures Linked(m) && RefreshTable(m, ft) == Ready(m)
  {
    assert PagesOf(m, ft) == m.tables[ft].size;
    hide Linked, NeededBlocks;
  }

  lemma PageAtCoherent(m: Mem, id: PageId)
    requires Coherent(m) && HasPage(m, id)
    ensures Sound(m)
    ensures var r := PageAt(m, id); r.Ready? && Transparent(m, r.m) && Present(r.m, id)
  {
    assert id in m.pages;
    if !m.pages[id].presencia { SolicitarCoherent(m, id); }
  }

  // ---------------------------------------------------------------- one chunk

  lemma WriteChunkView(m: Mem, id: PageId, off: nat, text: string)
    requires Coherent(m) && Present(m, id) && off + |text| <= m.tam
    requires id.ft in m.srv && m.srv[id.ft].estado == WorkInProgress && id.nro < |m.srv[id.ft].blocks|
    ensures var r := WriteChunk(m, id, off, text);
      var f := View(m)[id.ft];
      && Coherent(r) && r.srv == m.srv && r.policy == m.policy && |f.blocks[id.nro]| == m.tam
      && View(r) == View(m)[id.ft := f.(blocks := f.blocks[id.nro := Splice(f.blocks[id.nro], off, text)])]
  {
    var r := WriteChunk(m, id, off, text);
    WriteChunkPages(m, id, off, text);
    WriteChunkShape(m, id, off, text);
    WriteChunkCoherent(m, id, off, text);
    hide WriteChunk, Coherent, PageView, FrameOf, Splice, Sound;
    ViewOneBlock(m, r, id, Splice(PageView(m, id), off, text));
  }

  /** One page view changed. */
  lemma ViewOneBlock(m: Mem, r: Mem, id: PageId, data: Block)
    requires r.srv == m.srv && id.ft in m.srv && id.nro < |m.srv[id.ft].blocks|
    requires forall x :: PageView(r, x) == if x == id then data else PageView(m, x)
    ensures var f := View(m)[id.ft];
      && f.blocks[id.nro] == PageView(m, id)
      && View(r) == View(m)[id.ft := f.(blocks := f.blocks[id.nro := data])]
  {
    hide PageView;
    var b := BlocksView(m, id.ft);
    assert BlocksView(r, id.ft) == b[id.nro := data];
    forall ft | ft in m.srv && ft != id.ft
      ensures BlocksView(r, ft) == BlocksView(m, ft)
    {
    }
  }

  /** The frames and pages after a chunk is written. */
  lemma WriteChunkShape(m: Mem, id: PageId, off: nat, text: string)
    requires Sound(m) && Present(m, id) && off + |text| <= m.tam
    ensures var r := WriteChunk(m, id, off, text);
      var f := FrameOf(m, id);
      && r.policy == m.policy && r.tables == m.tables && r.srv == m.srv && |r.marcos| == |m.marcos|
      && r.pages == m.pages[id := m.pages[id].(modificado := true, uso := true)]
      && r.marcos[f].data == Splice(m.marcos[f].data, off, text)
      && (forall g: nat :: g < |m.marcos| && g != f ==> r.marcos[g].data == m.marcos[g].data)
  {
    hide CountsAhead, DirtyResident, Splice, KeepsSlack;
  }

  lemma WriteChunkPages(m: Mem, id: PageId, off: nat, text: string)
    requires Sound(m) && Present(m, id) && off + |text| <= m.tam
    ensures |PageView(m, id)| == m.tam
    ensures var r := WriteChunk(m, id, off, text);
      forall x :: PageView(r, x) ==
        if x == id then Splice(PageView(m, id), off, text) else PageView(m, x)
  {
    hide WriteChunk, Sound, Splice, Linked;
    SoundLinked(m);
    FrameWhole(m, id);
    FramesApart(m, id);
    WriteChunkShape(m, id, off, text);
    hide FrameOf;
  }

  /** The frame of a present page holds no other. */
  lemma FramesApart(m: Mem, id: PageId)
    requires Linked(m) && Present(m, id)
    ensures var f := FrameOf(m, id);
      && PageView(m, id) == m.marcos[f].data
      && forall x :: Present(m, x) && x != id ==> 0 <= m.pages[x].marco < |m.marcos| && m.pages[x].marco != f
  {
    forall x | Present(m, x) && x != id
      ensures 0 <= m.pages[x].marco < |m.marcos| && m.pages[x].marco != FrameOf(m, id)
    {
      assert InFrame(m, x);
    }
  }

  lemma WriteChunkCoherent(m: Mem, id: PageId, off: nat, text: string)
    requires Coherent(m) && Present(m, id) && off + |text| <= m.tam
    requires id.ft in m.srv && m.srv[id.ft].estado == WorkInProgress
    ensures Coherent(WriteChunk(m, id, off, text))
  {
    WriteChunkPages(m, id, off, text);
    WriteChunkShape(m, id, off, text);
    var r := WriteChunk(m, id, off, text);
    assert Sound(r) && r.tam == m.tam;
    hide WriteChunk, Sound, PageView, Splice, CleanAgrees, WholeBlocks, Synced, DirtyAccepted, FrameOf;
    CleanElsewhere(m, r, id, Splice(PageView(m, id), off, text));
    StoreUntouched(m, r, id);
  }

  lemma StoreUntouched(m: Mem, r: Mem, id: PageId)
    requires WholeBlocks(m.tam, m.srv) && Synced(m) && DirtyAccepted(m)
    requires r.srv == m.srv && r.tables == m.tables && r.tam == m.tam
    requires id in r.pages && r.pages == m.pages[id := r.pages[id]]
    requires id.ft in m.srv && m.srv[id.ft].estado == WorkInProgress
    ensures WholeBlocks(r.tam, r.srv) && Synced(r) && DirtyAccepted(r)
  {
    hide NeededBlocks;
  }

  lemma CleanElsewhere(m: Mem, r: Mem, id: PageId, data: Block)
    requires CleanAgrees(m) && r.srv == m.srv && id in m.pages && id in r.pages
    requires r.pages == m.pages[id := r.pages[id]] && r.pages[id].modificado
    requires forall x :: PageView(r, x) == if x == id then data else PageView(m, x)
    ensures CleanAgrees(r)
  {
    hide PageView, StoredIn;
    forall x | Present(r, x) && !r.pages[x].modificado
      ensures PageView(r, x) == Stored(r, x)
    {
      assert Present(m, x) && x != id;
    }
  }

  lemma ReadChunkShape(m: Mem, id: PageId)
    requires Sound(m) && Present(m, id)
    ensures SameBytes(m, ReadChunk(m, id)) && ReadChunk(m, id).srv == m.srv
  {
    hide CountsAhead, DirtyResident, KeepsSlack;
  }

  lemma ReadChunkTransparent(m: Mem, id: PageId)
    requires Coherent(m) && Present(m, id)
    ensures Transparent(m, ReadChunk(m, id)) && ReadChunk(m, id).srv == m.srv
    ensures m.marcos[FrameOf(m, id)].data == PageView(m, id) && |PageView(m, id)| == m.tam
  {
    ReadChunkShape(m, id);
    var r := ReadChunk(m, id);
    assert Sound(r);
    hide ReadChunk, SameBytes, Sound, CleanAgrees, Synced;
    SameBytesTransparent(m, r);
  }
}
