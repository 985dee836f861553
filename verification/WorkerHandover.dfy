/** What a query finds when it resumes on another Worker while the first is still flushing: the
    Master frees the query with its answer, which the flush follows. */
module WorkerHandover {
  import opened StorageModel
  import opened StorageSpec
  import opened FlatFile
  import opened WorkerModel
  import opened WorkerFrames
  import opened WorkerView
  import opened WorkerFaults
  import opened WorkerReference
  import opened WorkerInstructions
  import opened WorkerFlush
  import opened WorkerBytes
  import opened WorkerRequests
  import opened WorkerSimulation
  import opened WorkerQueries

  // ---------------------------------------------------------------- a flush, page by page

  ghost predicate Listed(m: Mem, ids: seq<PageId>) {
    forall id :: id in ids ==> id in m.pages
  }

  /** The pages the flush has gone through at some moment. */
  function FlushPages(m: Mem, ids: seq<PageId>): (r: Mem)
    requires Sound(m) && Listed(m, ids)
    ensures Sound(r) && r.pages.Keys == m.pages.Keys && r.tables == m.tables && r.tam == m.tam
    decreases |ids|
  {
    hide Sound, FlushOne, KeepsSlack;
    if ids == [] then m else FlushPages(FlushOne(m, ids[0]), ids[1..])
  }

  lemma {:induction false} FlushPagesJoin(m: Mem, a: seq<PageId>, b: seq<PageId>)
    requires Sound(m) && Listed(m, a) && Listed(m, b)
    ensures Listed(m, a + b) && FlushPages(m, a + b) == FlushPages(FlushPages(m, a), b)
    decreases |a|
  {
    hide Sound, FlushOne, KeepsSlack;
    if a == [] {
      assert [] + b == b;
    } else {
      assert (a + b)[0] == a[0] && (a + b)[1..] == a[1..] + b;
      FlushPagesJoin(FlushOne(m, a[0]), a[1..], b);
    }
  }

  function TablePages(m: Mem, ft: FileTag, j: nat): (r: seq<PageId>)
    ensures ft in m.tables && j <= m.tables[ft].size ==> |r| == m.tables[ft].size - j
    ensures forall id :: id in r ==> ft in m.tables && id.ft == ft && j <= id.nro < m.tables[ft].size
  {
    if ft in m.tables && j < m.tables[ft].size
    then seq(m.tables[ft].size - j, k requires 0 <= k < m.tables[ft].size - j => PageId(ft, j + k))
    else []
  }

  lemma TableListed(m: Mem, ft: FileTag, j: nat)
    requires Sound(m)
    ensures Listed(m, TablePages(m, ft, j))
  {
    PagesInTables(m);
  }

  lemma {:induction false} FlushFromPages(m: Mem, ft: FileTag, j: nat)
    requires Sound(m) && ft in m.tables
    ensures Listed(m, TablePages(m, ft, j)) && FlushFrom(m, ft, j) == FlushPages(m, TablePages(m, ft, j))
    decreases m.tables[ft].size - j
  {
    hide Sound, FlushOne, KeepsSlack;
    TableListed(m, ft, j);
    if j < m.tables[ft].size {
      PagesInTables(m);
      assert HasPage(m, PageId(ft, j));
      var m1 := FlushOne(m, PageId(ft, j));
      assert TablePages(m, ft, j)[1..] == TablePages(m1, ft, j + 1);
      FlushFromPages(m1, ft, j + 1);
    }
  }

  /** The whole flush visits every page of the tables, in some order: a moment of it is a prefix. */
  lemma {:induction false} FlushAllPages(m: Mem, order: seq<FileTag>) returns (ids: seq<PageId>)
    requires Sound(m)
    ensures Listed(m, ids) && FlushAll(m, order) == FlushPages(m, ids)
    ensures forall id :: id in m.pages && id.ft in order ==> id in ids
    decreases |order|
  {
    hide Sound, FlushPages, FlushFrom, KeepsSlack;
    ids := [];
    if order == [] {
      FlushNothing(m);
    } else {
      var first := TablePages(m, order[0], 0);
      var m1 := Flush(m, order[0]);
      TableListed(m, order[0], 0);
      if order[0] in m.tables { FlushFromPages(m, order[0], 0); } else { FlushNothing(m); }
      var rest := FlushAllPages(m1, order[1..]);
      FlushPagesJoin(m, first, rest);
      ids := first + rest;
      forall id | id in m.pages && id.ft in order
        ensures id in ids
      {
        PagesInTables(m);
        if id.ft == order[0] {
          assert HasPage(m, id) && first[id.nro] == id;
        }
      }
    }
  }

  lemma FlushNothing(m: Mem)
    requires Sound(m)
    ensures FlushPages(m, []) == m
  {
    hide Sound;
  }

  // ---------------------------------------------------------------- what Storage has by then

  lemma {:induction false} FlushPagesTransparent(m: Mem, ids: seq<PageId>)
    requires Coherent(m) && Sound(m) && Listed(m, ids)
    ensures var r := FlushPages(m, ids);
      && Transparent(m, r) && Cleaner(m, r)
      && (forall id :: id in ids ==> !r.pages[id].modificado)
      && (forall id :: id in m.pages && id !in ids ==> r.pages[id] == m.pages[id] && Stored(r, id) == Stored(m, id))
    decreases |ids|
  {
    hide Sound, Coherent, Transparent, FlushOne, StoredIn, KeepsSlack;
    if ids == [] {
      TransparentSelf(m);
    } else {
      var m1 := FlushOne(m, ids[0]);
      FlushOneTransparent(m, ids[0]);
      FlushOneOthers(m, ids[0]);
      CoherentOf(m, m1);
      FlushPagesTransparent(m1, ids[1..]);
      TransparentChain(m, m1, FlushPages(m, ids));
      CleanerChain(m, m1, FlushPages(m, ids));
    }
  }

  lemma FlushOneOthers(m: Mem, id: PageId)
    requires Coherent(m) && Sound(m) && id in m.pages
    ensures var r := FlushOne(m, id);
      forall x :: x in m.pages && x != id ==> r.pages[x] == m.pages[x] && Stored(r, x) == Stored(m, x)
  {
    hide Sound, Synced, WholeBlocks, CleanAgrees, StoredIn;
    if m.pages[id].modificado {
      FlushOneStore(m, id);
      hide Coherent, FlushOne;
    }
  }

  /** The pages still to be written back hold what Storage has anyway. */
  ghost predicate Handed(m: Mem, ids: seq<PageId>) {
    forall id :: id in m.pages && m.pages[id].modificado && id !in ids ==> PageView(m, id) == Stored(m, id)
  }

  /** At any moment of the flush, Storage has the files the query saw exactly when the dirty pages
      still to be written back hold what Storage has anyway. */
  lemma HandoverExact(m: Mem, ids: seq<PageId>)
    requires Coherent(m) && Sound(m) && Listed(m, ids)
    ensures FlushPages(m, ids).srv == View(m) <==> Handed(m, ids)
  {
    hide Sound, Coherent, FlushPages, StoredIn, PageView, BlocksView, Flushed;
    var r := FlushPages(m, ids);
    FlushPagesTransparent(m, ids);
    CoherentOf(m, r);
    HandedIff(m, r, ids);
    forall ft | ft in r.srv
      ensures Flushed(r, ft) <==> BlocksView(r, ft) == r.srv[ft].blocks
    {
      FlushedIff(r, ft);
    }
    if forall ft :: ft in r.srv ==> BlocksView(r, ft) == r.srv[ft].blocks {
      SameFiles(r.srv, View(r));
    }
  }

  lemma HandedIff(m: Mem, r: Mem, ids: seq<PageId>)
    requires Coherent(m) && Coherent(r) && Transparent(m, r) && Cleaner(m, r) && Listed(m, ids)
    requires forall id :: id in ids ==> !r.pages[id].modificado
    requires forall id :: id in m.pages && id !in ids ==> r.pages[id] == m.pages[id] && Stored(r, id) == Stored(m, id)
    ensures Handed(m, ids) <==> forall ft :: ft in r.srv ==> Flushed(r, ft)
  {
    PagesInTables(m);
    hide Sound, WholeBlocks, CleanAgrees, DirtyAccepted, StoredIn, PageView;
    forall id | id in m.pages
      ensures id.ft in r.srv && PageView(r, id) == PageView(m, id)
    {
      assert HasPage(m, id) && View(r)[id.ft].blocks[id.nro] == View(m)[id.ft].blocks[id.nro];
    }
    hide Coherent, View, Transparent;
  }

  // ---------------------------------------------------------------- what the next Worker answers

  lemma {:induction false} PageStart(tam: nat, nro: nat)
    requires 0 < tam
    ensures NeededBlocks(tam, Base(nro, tam)) == nro && Remainder(tam, Base(nro, tam)) == 0
  {
    if nro > 0 { PageStart(tam, nro - 1); }
  }

  lemma OneWholePage(tam: nat)
    requires 0 < tam
    ensures PagesTouched(tam, 0, tam) == 1 && Transferred(tam, 0, tam) == tam
  {
    assert Base(1, tam) == Base(0, tam) + tam;
  }

  /** READ of one page on flat files. */
  lemma FlatReadsPage(tam: nat, v: FileMap, id: PageId)
    requires 0 < tam && AllWhole(tam, v) && id.ft in v && id.nro < |v[id.ft].blocks|
    ensures FlatExec(tam, v, READ(id.ft, Base(id.nro, tam), tam)) == FlatDone(v, Bytes(v[id.ft].blocks[id.nro]))
  {
    hide Base, NeededBlocks, Remainder, PagesTouched, Transferred, FlatRead;
    PageStart(tam, id.nro);
    OneWholePage(tam);
    var blocks := v[id.ft].blocks;
    SliceIsFlat(tam, blocks, id.nro, 0, tam);
    assert blocks[id.nro][0..tam] == blocks[id.nro];
  }

  /** A Worker that sees the page answers with its bytes. */
  lemma ReadsPage(m: Mem, id: PageId)
    requires Coherent(m) && Sound(m) && 0 < m.tam && id.ft in m.srv && id.nro < |m.srv[id.ft].blocks|
    requires Measured(m.tam, m.srv, id.ft)
    ensures var e := Exec(m, READ(id.ft, Base(id.nro, m.tam), m.tam));
      e.Done? && e.answer == Bytes(View(m)[id.ft].blocks[id.nro])
  {
    hide Coherent, Sound, View, AllWhole, Exec, FlatExec, Measured, Base;
    ViewAllWhole(m);
    FlatReadsPage(m.tam, View(m), id);
    ExecSimulates(m, READ(id.ft, Base(id.nro, m.tam), m.tam));
  }

  /** A Worker with the files Storage has by then answers a READ of a page still to be written
      back with Storage's bytes, where the query saw its own. */
  lemma StaleRead(m: Mem, ids: seq<PageId>, m2: Mem, id: PageId)
    requires Coherent(m) && Sound(m) && Listed(m, ids) && Fit(m2, m.tam, FlushPages(m, ids).srv)
    requires id in m.pages && id !in ids && Measured(m.tam, m.srv, id.ft)
    ensures var read := READ(id.ft, Base(id.nro, m.tam), m.tam);
      && Exec(m2, read).Done? && Exec(m2, read).answer == Bytes(Stored(m, id))
      && Exec(m, read).Done? && Exec(m, read).answer == Bytes(PageView(m, id))
  {
    hide Sound, Coherent, FlushPages, Exec, Measured, View, Base, StoredIn, PageView;
    CoherentBasics(m);
    SeenPage(m, id);
    ReadsPage(m, id);
    var r := FlushPages(m, ids);
    FlushPagesTransparent(m, ids);
    SameSizes(m, r, m2, id.ft);
    StoredBlock(r, id);
    ReadsPage(m2, id);
  }

  lemma SeenPage(m: Mem, id: PageId)
    requires Coherent(m) && id in m.pages
    ensures id.ft in m.srv && id.nro < |m.srv[id.ft].blocks| && View(m)[id.ft].blocks[id.nro] == PageView(m, id)
  {
    assert HasPage(m, id);
    hide PageView, CleanAgrees, WholeBlocks;
  }

  lemma StoredBlock(m: Mem, id: PageId)
    requires id.ft in m.srv && id.nro < |m.srv[id.ft].blocks|
    ensures Stored(m, id) == m.srv[id.ft].blocks[id.nro]
  {
  }

  lemma SameSizes(m: Mem, r: Mem, m2: Mem, ft: FileTag)
    requires Transparent(m, r) && ft in m.srv && Measured(m.tam, m.srv, ft) && View(m2) == r.srv && m2.tam == m.tam
    ensures ft in r.srv && |r.srv[ft].blocks| == |m.srv[ft].blocks|
    ensures ft in m2.srv && |m2.srv[ft].blocks| == |m.srv[ft].blocks| && Measured(m2.tam, m2.srv, ft)
  {
    assert View(r)[ft] == View(m)[ft] && View(m2)[ft] == r.srv[ft];
    hide Coherent, BlocksView, NeededBlocks;
  }
}
