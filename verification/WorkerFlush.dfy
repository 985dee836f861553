/** FLUSH writes a file's pages back without changing what it contains, and leaves none dirty. */
module WorkerFlush {
  import opened StorageModel
  import opened WorkerModel
  import opened WorkerFrames
  import opened WorkerAccess
  import opened WorkerView
  import opened WorkerFaults
  import opened WorkerInstructions

  /** Only write-backs happened: pages stay where they are and none becomes dirty. */
  ghost predicate Cleaner(m: Mem, r: Mem) {
    && r.tables == m.tables && r.pages.Keys == m.pages.Keys
    && forall id :: id in m.pages ==>
         r.pages[id].presencia == m.pages[id].presencia && (r.pages[id].modificado ==> m.pages[id].modificado)
  }

  lemma FlushOneStore(m: Mem, id: PageId)
    requires Coherent(m) && id in m.pages && m.pages[id].modificado
    ensures Sound(m) && m.pages[id].presencia
    ensures var r := FlushOne(m, id);
      && r.pages == m.pages[id := m.pages[id].(modificado := false)]
      && r.marcos == m.marcos && r.tam == m.tam && r.policy == m.policy && r.tables == m.tables
      && r.reported == m.reported
      && SameHeaders(m.srv, r.srv) && WholeBlocks(r.tam, r.srv)
      && (forall x :: x != id ==> Stored(r, x) == Stored(m, x))
      && Stored(r, id) == PageView(m, id)
  {
    assert DirtyResident(m) && Present(m, id);
    var f := FrameOf(m, id);
    var data := m.marcos[f].data;
    assert PageView(m, id) == data && |data| == m.tam;
    assert HasPage(m, id);
    StoreWrite(m.tam, m.srv, id, data);
    WriteBackEffect(m, f);
    assert Accepts(m, id) && m.marcos[f].page == id;
    hide Linked, CountsAhead, DirtyResident, CleanAgrees, WriteBack, KeepsSlack, Synced, DirtyAccepted, Accepts;
    assert WholeBlocks(m.tam, FlushOne(m, id).srv);
  }

  lemma FlushOneTransparent(m: Mem, id: PageId)
    requires Coherent(m) && id in m.pages
    ensures Sound(m) && Transparent(m, FlushOne(m, id)) && Cleaner(m, FlushOne(m, id))
    ensures !FlushOne(m, id).pages[id].modificado
  {
    hide Linked, CountsAhead, FramesWhole, CleanAgrees, WholeBlocks, DirtyAccepted, PageView, Stored;
    hide Transparent, KeepsSlack;
    hide SameHeaders, WriteBack, FrameOf;
    var r := FlushOne(m, id);
    if m.pages[id].modificado {
      FlushOneStore(m, id);
      FlushOneViews(m, r, id);
      FlushOneSynced(m, r);
      hide FlushOne, Sound, Synced, DirtyResident;
      SyncedViewsCarryOver(m, r);
    } else {
      TransparentSelf(m);
    }
  }

  lemma FlushOneSynced(m: Mem, r: Mem)
    requires Synced(m) && r.tables == m.tables && SameHeaders(m.srv, r.srv)
    ensures Synced(r)
  {
  }

  lemma FlushOneViews(m: Mem, r: Mem, id: PageId)
    requires Sound(m) && CleanAgrees(m) && id in m.pages && m.pages[id].presencia
    requires r.pages == m.pages[id := m.pages[id].(modificado := false)]
    requires r.marcos == m.marcos && (forall x :: x != id ==> Stored(r, x) == Stored(m, x))
    requires Stored(r, id) == PageView(m, id)
    ensures CleanAgrees(r) && forall x :: PageView(r, x) == PageView(m, x)
  {
    assert InFrame(m, id);
    hide Sound, PageView, CleanAgrees, StoredIn;
    FlushOneClean(m, r, id);
  }

  lemma FlushOneClean(m: Mem, r: Mem, id: PageId)
    requires CleanAgrees(m) && Present(m, id) && r.pages == m.pages[id := m.pages[id].(modificado := false)]
    requires r.marcos == m.marcos && (forall x :: x != id ==> Stored(r, x) == Stored(m, x))
    requires Stored(r, id) == PageView(m, id) && 0 <= m.pages[id].marco < |m.marcos|
    ensures CleanAgrees(r) && forall x :: PageView(r, x) == PageView(m, x)
  {
    hide StoredIn;
    forall x
      ensures PageView(r, x) == PageView(m, x)
    {
      if x != id { assert Stored(r, x) == Stored(m, x); }
    }
    forall x | Present(r, x) && !r.pages[x].modificado
      ensures PageView(r, x) == Stored(r, x)
    {
      if x != id { assert Present(m, x) && PageView(m, x) == Stored(m, x); }
    }
  }

  lemma TransparentSelf(m: Mem)
    requires Coherent(m)
    ensures Transparent(m, m)
  {
    hide Coherent;
  }

  lemma PagesInTables(m: Mem)
    requires Sound(m)
    ensures forall id :: id in m.pages <==> HasPage(m, id)
  {
  }

  lemma {:induction false} FlushFromTransparent(m: Mem, ft: FileTag, j: nat)
    requires Coherent(m) && Sound(m) && ft in m.tables
    requires forall id :: id in m.pages && id.ft == ft && id.nro < j ==> !m.pages[id].modificado
    ensures var r := FlushFrom(m, ft, j);
      && Transparent(m, r) && Cleaner(m, r)
      && forall id :: id in r.pages && id.ft == ft ==> !r.pages[id].modificado
    decreases m.tables[ft].size - j
  {
    hide Sound, FlushOne, Coherent, Transparent, Cleaner;
    PagesInTables(m);
    if j >= m.tables[ft].size {
      TransparentSelf(m);
      CleanerSelf(m);
    } else {
      var id := PageId(ft, j);
      assert HasPage(m, id);
      FlushOneTransparent(m, id);
      var r := FlushOne(m, id);
      CoherentOf(m, r);
      CleanUpTo(m, r, ft, j);
      FlushFromTransparent(r, ft, j + 1);
      TransparentChain(m, r, FlushFrom(r, ft, j + 1));
      CleanerChain(m, r, FlushFrom(r, ft, j + 1));
    }
  }

  lemma CleanerSelf(m: Mem)
    ensures Cleaner(m, m)
  {
  }

  lemma CleanerChain(a: Mem, b: Mem, c: Mem)
    requires Cleaner(a, b) && Cleaner(b, c)
    ensures Cleaner(a, c)
  {
  }

  lemma CleanUpTo(m: Mem, r: Mem, ft: FileTag, j: nat)
    requires Cleaner(m, r) && PageId(ft, j) in r.pages && !r.pages[PageId(ft, j)].modificado
    requires forall id :: id in m.pages && id.ft == ft && id.nro < j ==> !m.pages[id].modificado
    ensures r.tables == m.tables
    ensures forall id :: id in r.pages && id.ft == ft && id.nro < j + 1 ==> !r.pages[id].modificado
  {
    forall id | id in r.pages && id.ft == ft && id.nro < j + 1
      ensures !r.pages[id].modificado
    {
      if id.nro == j { assert id == PageId(ft, j); }
    }
  }

  ghost predicate NoDirty(m: Mem, ft: FileTag) {
    forall id :: id in m.pages && id.ft == ft ==> !m.pages[id].modificado
  }

  /** FLUSH leaves the view unchanged and the file clean; it dirties nothing else. */
  lemma FlushTransparent(m: Mem, ft: FileTag)
    requires Coherent(m) && Sound(m)
    ensures var r := Flush(m, ft);
      Transparent(m, r) && Cleaner(m, r) && NoDirty(r, ft)
  {
    if ft in m.tables {
      FlushFromTransparent(m, ft, 0);
    } else {
      assert forall id :: id in m.pages ==> HasPage(m, id);
      hide Coherent;
      TransparentSelf(m);
    }
  }

  /** A file with no dirty page is in Storage what the Worker sees. */
  lemma FlushedStored(m: Mem, ft: FileTag)
    requires Coherent(m) && NoDirty(m, ft) && ft in m.srv
    ensures BlocksView(m, ft) == m.srv[ft].blocks
  {
    hide Sound, WholeBlocks, Synced, DirtyAccepted;
    forall k | 0 <= k < |m.srv[ft].blocks|
      ensures PageView(m, PageId(ft, k)) == m.srv[ft].blocks[k]
    {
      var id := PageId(ft, k);
      if Present(m, id) { assert PageView(m, id) == Stored(m, id); }
    }
  }

  // ---------------------------------------------------------------- every file:tag

  /** The interruption loop: FLUSH of each table, in list order. */
  function FlushAll(m: Mem, order: seq<FileTag>): (r: Mem)
    requires Sound(m)
    ensures Sound(r) && r.tables == m.tables && r.tam == m.tam
    decreases |order|
  {
    hide Sound, Flush;
    if order == [] then m else FlushAll(Flush(m, order[0]), order[1..])
  }

  lemma {:induction false} FlushAllTransparent(m: Mem, order: seq<FileTag>)
    requires Coherent(m) && Sound(m)
    ensures var r := FlushAll(m, order);
      Transparent(m, r) && Cleaner(m, r) && forall ft :: ft in order || NoDirty(m, ft) ==> NoDirty(r, ft)
    decreases |order|
  {
    hide Sound, Flush, Coherent, Transparent;
    if order == [] {
      TransparentSelf(m);
    } else {
      var r := Flush(m, order[0]);
      FlushTransparent(m, order[0]);
      CoherentOf(m, r);
      FlushAllTransparent(r, order[1..]);
      TransparentChain(m, r, FlushAll(r, order[1..]));
    }
  }

  /** After an interruption Storage holds exactly what the Worker saw. */
  lemma FlushAllStored(m: Mem, order: seq<FileTag>)
    requires Coherent(m) && Sound(m) && (forall ft :: ft in m.tables ==> ft in order)
    ensures FlushAll(m, order).srv == View(m)
  {
    var r := FlushAll(m, order);
    FlushAllTransparent(m, order);
    hide FlushAll, PageView, StoredIn;
    forall ft | ft in r.srv
      ensures BlocksView(r, ft) == r.srv[ft].blocks
    {
      if ft !in m.tables { assert forall id :: id in m.pages ==> HasPage(m, id); }
      assert NoDirty(r, ft);
      FlushedStored(r, ft);
    }
    assert View(r) == r.srv;
  }
}
