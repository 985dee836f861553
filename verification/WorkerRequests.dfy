/** CREATE, COMMIT, DELETE and TAG through the Worker: Storage's answer, seen through the cache. */
module WorkerRequests {
  import opened StorageModel
  import opened StorageSpec
  import opened WorkerModel
  import opened WorkerFrames
  import opened WorkerView
  import opened WorkerBytes
  import opened WorkerInstructions
  import opened WorkerFlush

  /** Storage changed, but not the blocks of a file with pages in memory. */
  ghost predicate TablesUntouched(m: Mem, srv: FileMap) {
    && (forall ft :: ft in m.tables ==> ft in srv && ft in m.srv && srv[ft].blocks == m.srv[ft].blocks)
    && (forall id :: id in m.pages && m.pages[id].modificado ==> id.ft in srv && srv[id.ft].estado == WorkInProgress)
  }

  lemma StoreChanged(m: Mem, srv: FileMap)
    requires Coherent(m) && TablesUntouched(m, srv) && WholeBlocks(m.tam, srv)
    ensures Coherent(m.(srv := srv))
  {
    var r := m.(srv := srv);
    SrvSound(m, srv);
    PagesInTables(m);
    hide Sound, WholeBlocks;
    forall id | Present(r, id) && !r.pages[id].modificado
      ensures PageView(r, id) == Stored(r, id)
    {
      assert HasPage(m, id) && PageView(m, id) == Stored(m, id);
    }
  }

  /** The view of a file whose blocks in Storage are as before. */
  lemma UnchangedView(m: Mem, srv: FileMap, ft: FileTag)
    requires ft in m.srv && ft in srv && srv[ft].blocks == m.srv[ft].blocks
    ensures BlocksView(m.(srv := srv), ft) == BlocksView(m, ft)
  {
    var r := m.(srv := srv);
    assert forall k: nat :: StoredIn(srv, PageId(ft, k)) == StoredIn(m.srv, PageId(ft, k));
  }

  /** The view of a file with no pages in memory. */
  lemma UncachedView(m: Mem, ft: FileTag)
    requires Sound(m) && ft in m.srv && ft !in m.tables
    ensures BlocksView(m, ft) == m.srv[ft].blocks
  {
    PagesInTables(m);
    hide Sound;
    assert forall k: nat :: PageId(ft, k) !in m.pages by {
      forall k: nat ensures PageId(ft, k) !in m.pages { assert !HasPage(m, PageId(ft, k)); }
    }
  }

  /** Two maps of files, file by file. */
  lemma SameFiles(a: FileMap, b: FileMap)
    requires a.Keys == b.Keys && forall ft :: ft in a ==> a[ft] == b[ft]
    ensures a == b
  {
  }

  // ---------------------------------------------------------------- CREATE

  lemma CreateSimulates(m: Mem, ft: FileTag)
    requires Coherent(m) && Sound(m)
    ensures var (srv, reply) := MapStep(m.tam, m.srv, Create(ft));
      && Coherent(m.(srv := srv))
      && (View(m.(srv := srv)), reply) == MapStep(m.tam, View(m), Create(ft))
  {
    hide Sound, PageView, CleanAgrees;
    CoherentBasics(m);
    var srv := MapStep(m.tam, m.srv, Create(ft)).0;
    var r := m.(srv := srv);
    if ft in m.srv {
      assert r == m;
    } else {
      StoreChanged(m, srv);
      assert forall g :: g in m.srv ==> g in srv && srv[g].blocks == m.srv[g].blocks;
      hide Coherent, MapStep, TablesUntouched, WholeBlocks;
      forall g | g in m.srv
        ensures BlocksView(r, g) == BlocksView(m, g)
      {
        UnchangedView(m, srv, g);
      }
      CreateViews(m, r, ft);
    }
  }

  lemma CreateViews(m: Mem, r: Mem, ft: FileTag)
    requires 0 < m.tam && ft !in m.srv && r.srv == MapStep(m.tam, m.srv, Create(ft)).0
    requires forall g :: g in m.srv ==> BlocksView(r, g) == BlocksView(m, g)
    ensures (View(r), OpExitosa) == MapStep(m.tam, View(m), Create(ft))
  {
    hide PageView;
    SameFiles(View(r), MapStep(m.tam, View(m), Create(ft)).0);
  }

  // ---------------------------------------------------------------- COMMIT

  lemma CommitSimulates(m: Mem, ft: FileTag)
    requires Coherent(m) && Sound(m) && NoDirty(m, ft)
    ensures var (srv, reply) := MapStep(m.tam, m.srv, Commit(ft));
      && Coherent(m.(srv := srv))
      && (View(m.(srv := srv)), reply) == MapStep(m.tam, View(m), Commit(ft))
  {
    hide Sound, PageView, CleanAgrees;
    CoherentBasics(m);
    var srv := MapStep(m.tam, m.srv, Commit(ft)).0;
    var r := m.(srv := srv);
    if ft !in m.srv {
      assert r == m;
    } else {
      StoreChanged(m, srv);
      assert forall g :: g in m.srv ==> g in srv && srv[g].blocks == m.srv[g].blocks;
      hide Coherent, MapStep, TablesUntouched, WholeBlocks;
      forall g | g in m.srv
        ensures BlocksView(r, g) == BlocksView(m, g)
      {
        UnchangedView(m, srv, g);
      }
      CommitViews(m, r, ft);
    }
  }

  lemma CommitViews(m: Mem, r: Mem, ft: FileTag)
    requires 0 < m.tam && ft in m.srv && r.srv == MapStep(m.tam, m.srv, Commit(ft)).0
    requires forall g :: g in m.srv ==> BlocksView(r, g) == BlocksView(m, g)
    ensures (View(r), OpExitosa) == MapStep(m.tam, View(m), Commit(ft))
  {
    hide PageView;
    SameFiles(View(r), MapStep(m.tam, View(m), Commit(ft)).0);
  }

  // ---------------------------------------------------------------- TAG

  /** Storage has what the Worker sees of the file: every dirty page was written back, or holds
      the stored bytes anyway. */
  ghost predicate Flushed(m: Mem, ft: FileTag) {
    forall id :: id in m.pages && id.ft == ft && m.pages[id].modificado ==> PageView(m, id) == Stored(m, id)
  }

  lemma FlushedIff(m: Mem, ft: FileTag)
    requires Coherent(m) && ft in m.srv
    ensures Flushed(m, ft) <==> BlocksView(m, ft) == m.srv[ft].blocks
  {
    PagesInTables(m);
    hide Sound, WholeBlocks, DirtyAccepted;
    forall k | 0 <= k < |m.srv[ft].blocks| && (PageId(ft, k) in m.pages && m.pages[PageId(ft, k)].modificado ==>
        PageView(m, PageId(ft, k)) == Stored(m, PageId(ft, k)))
      ensures PageView(m, PageId(ft, k)) == m.srv[ft].blocks[k]
    {
      var id := PageId(ft, k);
      if Present(m, id) && !m.pages[id].modificado { assert PageView(m, id) == Stored(m, id); }
    }
    if BlocksView(m, ft) == m.srv[ft].blocks {
      forall id | id in m.pages && id.ft == ft && m.pages[id].modificado
        ensures PageView(m, id) == Stored(m, id)
      {
        assert HasPage(m, id) && BlocksView(m, ft)[id.nro] == m.srv[ft].blocks[id.nro];
      }
    }
  }

  /** TAG copies what Storage has, which is the flat file exactly when the source is flushed. */
  lemma TagSimulatesIff(m: Mem, src: FileTag, dst: FileTag)
    requires Coherent(m) && Sound(m)
    ensures var (srv, reply) := MapStep(m.tam, m.srv, Tag(src, dst));
      && Coherent(m.(srv := srv)) && reply == MapStep(m.tam, View(m), Tag(src, dst)).1
      && (View(m.(srv := srv)) == MapStep(m.tam, View(m), Tag(src, dst)).0 <==>
            dst in m.srv || src !in m.srv || Flushed(m, src))
  {
    var srv := MapStep(m.tam, m.srv, Tag(src, dst)).0;
    var r := m.(srv := srv);
    if dst in m.srv {
      assert r == m;
    } else {
      TagCoherent(m, src, dst);
      UncachedView(r, dst);
      forall g | g in m.srv
        ensures BlocksView(r, g) == BlocksView(m, g)
      {
        UnchangedView(m, srv, g);
      }
      if src in m.srv { FlushedIff(m, src); }
      hide Sound, Coherent, Flushed, PageView;
      TagViews(m, r, src, dst);
    }
  }

  lemma TagCoherent(m: Mem, src: FileTag, dst: FileTag)
    requires Coherent(m) && dst !in m.srv
    ensures var r := m.(srv := MapStep(m.tam, m.srv, Tag(src, dst)).0);
      Coherent(r) && Sound(r) && dst !in r.tables
  {
    var srv := MapStep(m.tam, m.srv, Tag(src, dst)).0;
    hide Sound;
    StoreChanged(m, srv);
    CoherentBasics(m.(srv := srv));
  }

  lemma TagViews(m: Mem, r: Mem, src: FileTag, dst: FileTag)
    requires 0 < m.tam && dst !in m.srv && r.srv == MapStep(m.tam, m.srv, Tag(src, dst)).0
    requires BlocksView(r, dst) == r.srv[dst].blocks
    requires forall g :: g in m.srv ==> BlocksView(r, g) == BlocksView(m, g)
    ensures MapStep(m.tam, m.srv, Tag(src, dst)).1 == MapStep(m.tam, View(m), Tag(src, dst)).1
    ensures View(r) == MapStep(m.tam, View(m), Tag(src, dst)).0 <==>
      src !in m.srv || BlocksView(m, src) == m.srv[src].blocks
  {
    hide PageView;
    var flat := MapStep(m.tam, View(m), Tag(src, dst)).0;
    TaggedFile(m.tam, m.srv, src, dst);
    TaggedFile(m.tam, View(m), src, dst);
    assert View(r)[dst] == r.srv[dst];
    hide MapStep, BlocksView;
    forall g | g in m.srv
      ensures View(r)[g] == flat[g]
    {
      assert View(r)[g] == View(m)[g];
    }
    if View(r)[dst] == flat[dst] { SameFiles(View(r), flat); }
  }

  /** TAG adds one file and changes none. */
  lemma TaggedFile(tam: nat, v: FileMap, src: FileTag, dst: FileTag)
    requires 0 < tam && dst !in v
    ensures var (r, reply) := MapStep(tam, v, Tag(src, dst));
      && r.Keys == v.Keys + {dst} && (forall g :: g in v ==> r[g] == v[g])
      && r[dst] == (if src in v then File(v[src].tamanio, v[src].blocks, WorkInProgress)
           else File(0, [], WorkInProgress))
      && reply == if src in v || src == dst then OpExitosa else ErrInexistencia
  {
  }

  // ---------------------------------------------------------------- DELETE

  lemma DropPagesShape(m: Mem, ft: FileTag)
    requires Sound(m)
    ensures var r := DropPages(m, ft);
      && r.srv == m.srv && r.marcos == m.marcos && r.tam == m.tam && r.policy == m.policy
      && r.reported == m.reported
      && r.tables.Keys == m.tables.Keys - {ft} && (forall g :: g in r.tables ==> r.tables[g] == m.tables[g])
      && (forall id :: id in r.pages <==> id in m.pages && id.ft != ft)
      && (forall id :: id in r.pages ==> r.pages[id] == m.pages[id])
  {
    PagesInTables(m);
    if ft in m.tables { DropPagesSound(m, ft); }
    hide Sound, FreeFrom;
  }

  /** DELETE succeeds or fails as on flat files; when it fails on initial_file:BASE the pages are
      gone all the same, so the view survives exactly when the file was flushed. */
  lemma DeleteSimulatesIff(m: Mem, ft: FileTag)
    requires Coherent(m) && Sound(m)
    ensures var m1 := DropPages(m, ft);
      var (srv, reply) := MapStep(m.tam, m.srv, Delete(ft));
      && Coherent(m1.(srv := srv)) && reply == MapStep(m.tam, View(m), Delete(ft)).1
      && (View(m1.(srv := srv)) == MapStep(m.tam, View(m), Delete(ft)).0 <==>
            (IsBaseFile(ft) && ft in m.srv ==> Flushed(m, ft)))
  {
    hide Sound, Coherent, Flushed, PageView, DropPages, IsBaseFile;
    CoherentBasics(m);
    var m1 := DropPages(m, ft);
    var (srv, reply) := MapStep(m.tam, m.srv, Delete(ft));
    DropPagesShape(m, ft);
    DropPagesCoherent(m, ft);
    DroppedViews(m, m1, ft);
    if ft in m.srv { FlushedIff(m, ft); UncachedView(m1, ft); }
    DeletedStore(m1, ft);
    forall g | g in srv
      ensures BlocksView(m1.(srv := srv), g) == BlocksView(m1, g)
    {
      UnchangedView(m1, srv, g);
    }
    DeleteViews(m, m1, m1.(srv := srv), ft);
  }

  lemma DroppedViews(m: Mem, m1: Mem, ft: FileTag)
    requires m1.srv == m.srv && m1.marcos == m.marcos
    requires forall id :: id in m1.pages <==> id in m.pages && id.ft != ft
    requires forall id :: id in m1.pages ==> m1.pages[id] == m.pages[id]
    ensures forall g :: g in m.srv && g != ft ==> BlocksView(m1, g) == BlocksView(m, g)
  {
  }

  lemma DeletedStore(m: Mem, ft: FileTag)
    requires Coherent(m) && Sound(m) && ft !in m.tables
    ensures 0 < m.tam && Coherent(m.(srv := MapStep(m.tam, m.srv, Delete(ft)).0))
  {
    hide Coherent, TablesUntouched, WholeBlocks, MapStep, Sound;
    CoherentBasics(m);
    DeletedOthers(m, ft);
    StoreChanged(m, MapStep(m.tam, m.srv, Delete(ft)).0);
  }

  lemma DeletedOthers(m: Mem, ft: FileTag)
    requires Coherent(m) && 0 < m.tam && ft !in m.tables
    ensures var srv := MapStep(m.tam, m.srv, Delete(ft)).0;
      TablesUntouched(m, srv) && WholeBlocks(m.tam, srv)
  {
    PagesInTables(m);
    hide Sound, CleanAgrees, IsBaseFile;
    assert forall g :: g in m.tables ==> g in m.srv && g != ft;
    DeletedBlocks(m.tam, m.srv, ft);
    hide MapStep;
  }

  lemma DeletedBlocks(tam: nat, srv: FileMap, ft: FileTag)
    requires 0 < tam
    ensures var r := MapStep(tam, srv, Delete(ft)).0;
      && (forall g :: g in srv && g != ft ==> g in r && r[g] == srv[g])
      && (WholeBlocks(tam, srv) ==> WholeBlocks(tam, r))
  {
    hide IsBaseFile;
  }

  lemma DropPagesCoherent(m: Mem, ft: FileTag)
    requires Coherent(m) && Sound(m)
    ensures Coherent(DropPages(m, ft)) && Sound(DropPages(m, ft))
  {
    var r := DropPages(m, ft);
    DropPagesShape(m, ft);
    hide Sound, DropPages, WholeBlocks;
    forall id | Present(r, id) && !r.pages[id].modificado
      ensures PageView(r, id) == Stored(r, id)
    {
      assert PageView(m, id) == Stored(m, id);
    }
  }

  lemma DeleteViews(m: Mem, m1: Mem, r: Mem, ft: FileTag)
    requires 0 < m.tam && m1.srv == m.srv && r.srv == MapStep(m.tam, m.srv, Delete(ft)).0
    requires forall g :: g in m.srv && g != ft ==> BlocksView(m1, g) == BlocksView(m, g)
    requires ft in m.srv ==> BlocksView(m1, ft) == m.srv[ft].blocks
    requires forall g :: g in r.srv ==> BlocksView(r, g) == BlocksView(m1, g)
    ensures MapStep(m.tam, m.srv, Delete(ft)).1 == MapStep(m.tam, View(m), Delete(ft)).1
    ensures View(r) == MapStep(m.tam, View(m), Delete(ft)).0 <==>
      (IsBaseFile(ft) && ft in m.srv ==> BlocksView(m, ft) == m.srv[ft].blocks)
  {
    hide PageView, IsBaseFile;
    var flat := MapStep(m.tam, View(m), Delete(ft)).0;
    if IsBaseFile(ft) && ft in m.srv && BlocksView(m, ft) != m.srv[ft].blocks {
      assert View(r)[ft] != flat[ft];
    } else {
      SameFiles(View(r), flat);
    }
  }
}
