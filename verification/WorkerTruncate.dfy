/** TRUNCATE through the Worker: Storage resizes the file, the page table follows, and the pages
    that stay keep their bytes. */
module WorkerTruncate {
  import opened StorageModel
  import opened StorageSpec
  import opened WorkerModel
  import opened WorkerFrames
  import opened WorkerView
  import opened WorkerFaults
  import opened WorkerTransparency
  import opened WorkerBytes
  import opened WorkerReference
  import opened WorkerInstructions
  import opened WorkerFlush
  import opened WorkerRequests

  /** The table of `ft` has `n` pages, and only pages beyond them have left memory. */
  ghost predicate Reshaped(m: Mem, r: Mem, ft: FileTag, n: nat) {
    && r.srv == m.srv && r.marcos == m.marcos && r.tam == m.tam && r.policy == m.policy
    && r.reported == m.reported && r.tables.Keys == m.tables.Keys + {ft} && ft in r.tables && r.tables[ft].size == n
    && (forall g :: g in m.tables && g != ft ==> r.tables[g] == m.tables[g])
    && (forall id :: Present(r, id) <==> Present(m, id) && (id.ft == ft ==> id.nro < n))
    && (forall id :: Present(r, id) ==> r.pages[id] == m.pages[id])
    && (forall id :: id in r.pages && r.pages[id].modificado ==> id in m.pages && m.pages[id].modificado)
  }

  ghost predicate NoDirtyBeyond(m: Mem, ft: FileTag, n: nat) {
    forall id :: id in m.pages && id.ft == ft && id.nro >= n && m.pages[id].presencia ==> !m.pages[id].modificado
  }

  lemma DropLastShape(m: Mem, ft: FileTag)
    requires Linked(m) && ft in m.tables && 0 < m.tables[ft].size
    ensures var n := m.tables[ft].size - 1;
      var r := DropLast(m, ft);
      && (r.Ready? <==> NoDirtyBeyond(m, ft, n))
      && (r.Ready? ==> Reshaped(m, r.m, ft, n) && forall id :: id in r.m.pages ==>
           id in m.pages && r.m.pages[id] == m.pages[id])
  {
    var id := PageId(ft, m.tables[ft].size - 1);
    assert HasPage(m, id);
    assert forall x :: x in m.pages && x.ft == ft && x.nro >= id.nro ==> HasPage(m, x) && x == id;
  }

  lemma {:induction false} DropToShape(m: Mem, ft: FileTag, n: nat)
    requires Linked(m) && ft in m.tables && n <= m.tables[ft].size
    ensures var r := DropTo(m, ft, n);
      && (r.Ready? <==> NoDirtyBeyond(m, ft, n))
      && (r.Ready? ==> Reshaped(m, r.m, ft, n))
    decreases m.tables[ft].size
  {
    if m.tables[ft].size <= n {
      assert forall x :: x in m.pages ==> HasPage(m, x);
    } else {
      var r := DropLast(m, ft);
      assert DropTo(m, ft, n) == if r.Exit? then Exit else DropTo(r.m, ft, n);
      hide Linked, DropLast, DropTo, Reshaped, NoDirtyBeyond;
      DropLastShape(m, ft);
      if r.Exit? {
        BeyondMore(m, ft, m.tables[ft].size - 1, n);
      } else {
        DropToShape(r.m, ft, n);
        ShapedOn(m, r.m, DropTo(r.m, ft, n), ft, n);
      }
    }
  }

  lemma ShapedOn(m: Mem, r: Mem, z: Outcome, ft: FileTag, n: nat)
    requires ft in m.tables && n < m.tables[ft].size && Reshaped(m, r, ft, m.tables[ft].size - 1) && !z.Null?
    requires NoDirtyBeyond(m, ft, m.tables[ft].size - 1)
    requires forall id :: id in r.pages ==> id in m.pages && r.pages[id] == m.pages[id]
    requires (z.Ready? <==> NoDirtyBeyond(r, ft, n)) && (z.Ready? ==> Reshaped(r, z.m, ft, n))
    ensures (z.Ready? <==> NoDirtyBeyond(m, ft, n)) && (z.Ready? ==> Reshaped(m, z.m, ft, n))
  {
    BeyondBefore(m, r, ft, n);
    hide NoDirtyBeyond, Reshaped;
    if z.Ready? { ReshapedChain(m, r, z.m, ft, m.tables[ft].size - 1, n); }
  }

  lemma BeyondMore(m: Mem, ft: FileTag, k: nat, n: nat)
    requires !NoDirtyBeyond(m, ft, k) && n <= k
    ensures !NoDirtyBeyond(m, ft, n)
  {
  }

  lemma BeyondBefore(m: Mem, r: Mem, ft: FileTag, n: nat)
    requires ft in m.tables && n < m.tables[ft].size && Reshaped(m, r, ft, m.tables[ft].size - 1)
    requires NoDirtyBeyond(m, ft, m.tables[ft].size - 1)
    requires forall id :: id in r.pages ==> id in m.pages && r.pages[id] == m.pages[id]
    ensures NoDirtyBeyond(r, ft, n) <==> NoDirtyBeyond(m, ft, n)
  {
    forall id | id in m.pages && id.ft == ft && n <= id.nro < m.tables[ft].size - 1 && m.pages[id].presencia
      ensures id in r.pages && r.pages[id].presencia && r.pages[id] == m.pages[id]
    {
      assert Present(m, id) && Present(r, id);
    }
  }

  lemma ReshapedChain(a: Mem, b: Mem, c: Mem, ft: FileTag, j: nat, k: nat)
    requires ft in a.tables && k <= j && Reshaped(a, b, ft, j) && Reshaped(b, c, ft, k)
    ensures Reshaped(a, c, ft, k)
  {
    hide Present;
  }

  /** actualizar_tabla fails exactly on a dirty page beyond the file. */
  lemma RefreshShape(m: Mem, ft: FileTag)
    requires Linked(m) && ft in m.tables && ft in m.srv
    ensures var n := PagesOf(m, ft);
      var r := RefreshTable(m, ft);
      && (r.Ready? <==> NoDirtyBeyond(m, ft, n))
      && (r.Ready? ==> Reshaped(m, r.m, ft, n))
  {
    hide NeededBlocks;
    assert forall x :: x in m.pages ==> HasPage(m, x);
    if PagesOf(m, ft) <= m.tables[ft].size { DropToShape(m, ft, PagesOf(m, ft)); }
  }

  lemma LoadShape(m: Mem, ft: FileTag)
    requires Linked(m) && ft in m.srv && ft !in m.tables
    ensures var r := LoadTable(m, ft);
      r.Ready? && Reshaped(m, r.m, ft, PagesOf(m, ft)) && r.m.tables[ft].cantidad == PagesOf(m, ft)
  {
    LoadTablePages(m, ft);
    hide Linked, NeededBlocks, LoadTable;
  }

  // ---------------------------------------------------------------- the table after TRUNCATE

  /** The table follows the file: its counter does not hide the change, and no dirty page would
      be lost. */
  ghost predicate Follows(m: Mem, ft: FileTag, n: nat) {
    ft in m.tables ==> (m.tables[ft].cantidad == n ==> m.tables[ft].size == n) && NoDirtyBeyond(m, ft, n)
  }

  lemma TruncateTableShape(m: Mem, ft: FileTag, size: nat, answer: Answer)
    requires Sound(m) && 0 < m.tam && ft in m.srv && PagesOf(m, ft) == NeededBlocks(m.tam, size)
    ensures var n := NeededBlocks(m.tam, size);
      var r := TruncateTable(m, ft, size, answer);
      && (r.Done? ==> r.answer == answer)
      && (Follows(m, ft, n) ==> r.Done? && Reshaped(m, r.m, ft, n))
      && (!Follows(m, ft, n) ==> r.Stop? || (r.m == m && ft in m.tables && m.tables[ft].size != n))
  {
    hide NeededBlocks, CountsAhead, DirtyResident;
    var n := NeededBlocks(m.tam, size);
    if ft !in m.tables {
      LoadShape(m, ft);
    } else {
      RefreshShape(m, ft);
      InPlaceShape(m, ft);
      assert m.tables[ft].size == n ==> NoDirtyBeyond(m, ft, n);
    }
  }

  lemma InPlaceShape(m: Mem, ft: FileTag)
    requires Linked(m) && ft in m.tables
    ensures Reshaped(m, m, ft, m.tables[ft].size) && NoDirtyBeyond(m, ft, m.tables[ft].size)
  {
    assert forall x :: x in m.pages ==> HasPage(m, x);
  }

  // ---------------------------------------------------------------- the view after TRUNCATE

  /** The file as Storage resizes it. */
  lemma TruncatedFile(tam: nat, v: FileMap, ft: FileTag, size: nat)
    requires 0 < tam && ft in v && v[ft].estado == WorkInProgress
    ensures MapStep(tam, v, Truncate(ft, size)) ==
      (v[ft := File(size, Resized(tam, v[ft].blocks, NeededBlocks(tam, size)), WorkInProgress)], OpExitosa)
  {
  }

  lemma TruncatedPages(m: Mem, r: Mem, ft: FileTag, size: nat, n: nat)
    requires Coherent(m) && ft in m.srv && n == NeededBlocks(m.tam, size)
    requires r.srv == m.srv[ft := File(size, Resized(m.tam, m.srv[ft].blocks, n), WorkInProgress)]
    requires Reshaped(m.(srv := r.srv), r, ft, n)
    ensures forall id: PageId :: id.ft != ft ==> PageView(r, id) == PageView(m, id) && Stored(r, id) == Stored(m, id)
    ensures forall id: PageId :: id.ft == ft && id.nro < n && id.nro < |m.srv[ft].blocks| ==>
      PageView(r, id) == PageView(m, id) && Stored(r, id) == Stored(m, id)
    ensures forall id: PageId :: id.ft == ft && |m.srv[ft].blocks| <= id.nro < n ==>
      PageView(r, id) == ZeroBlock(m.tam) && !Present(m, id)
  {
    PresentInFile(m, ft);
    hide Coherent, NeededBlocks, Reshaped, PageView, Stored, Resized;
    forall id: PageId
      ensures id.ft != ft || (id.nro < n && id.nro < |m.srv[ft].blocks|) ==>
        PageView(r, id) == PageView(m, id) && Stored(r, id) == Stored(m, id)
      ensures id.ft == ft && |m.srv[ft].blocks| <= id.nro < n ==> PageView(r, id) == ZeroBlock(m.tam)
    {
      TruncatedPage(m, r, ft, size, n, id);
    }
  }

  lemma PresentInFile(m: Mem, ft: FileTag)
    requires Coherent(m) && ft in m.srv
    ensures forall id: PageId :: id.ft == ft && Present(m, id) ==> id.nro < |m.srv[ft].blocks|
  {
    PagesInTables(m);
    hide Sound, CleanAgrees, WholeBlocks, DirtyAccepted;
  }

  lemma TruncatedPage(m: Mem, r: Mem, ft: FileTag, size: nat, n: nat, id: PageId)
    requires ft in m.srv && (id.ft == ft && Present(m, id) ==> id.nro < |m.srv[ft].blocks|)
    requires r.srv == m.srv[ft := File(size, Resized(m.tam, m.srv[ft].blocks, n), WorkInProgress)]
    requires Reshaped(m.(srv := r.srv), r, ft, n)
    ensures id.ft != ft || (id.nro < n && id.nro < |m.srv[ft].blocks|) ==>
      PageView(r, id) == PageView(m, id) && Stored(r, id) == Stored(m, id)
    ensures id.ft == ft && |m.srv[ft].blocks| <= id.nro < n ==> PageView(r, id) == ZeroBlock(m.tam)
  {
    var m1 := m.(srv := r.srv);
    assert Present(m1, id) <==> Present(m, id);
    assert Present(r, id) <==> Present(m1, id) && (id.ft == ft ==> id.nro < n);
    assert Present(r, id) ==> r.pages[id] == m1.pages[id];
  }

  lemma TruncatedCoherent(m: Mem, r: Mem, ft: FileTag, size: nat, n: nat)
    requires Coherent(m) && Sound(r) && ft in m.srv && n == NeededBlocks(m.tam, size)
    requires m.srv[ft].estado == WorkInProgress
    requires r.srv == m.srv[ft := File(size, Resized(m.tam, m.srv[ft].blocks, n), WorkInProgress)]
    requires Reshaped(m.(srv := r.srv), r, ft, n)
    ensures Coherent(r)
  {
    hide NeededBlocks, Sound;
    TruncatedPages(m, r, ft, size, n);
    TruncatedClean(m, r, ft, n);
    hide CleanAgrees, PageView;
    assert WholeBlocks(r.tam, r.srv);
  }

  lemma TruncatedClean(m: Mem, r: Mem, ft: FileTag, n: nat)
    requires CleanAgrees(m) && ft in m.srv && Reshaped(m.(srv := r.srv), r, ft, n)
    requires forall id: PageId :: id.ft != ft ==> PageView(r, id) == PageView(m, id) && Stored(r, id) == Stored(m, id)
    requires forall id: PageId :: id.ft == ft && id.nro < n && id.nro < |m.srv[ft].blocks| ==>
      PageView(r, id) == PageView(m, id) && Stored(r, id) == Stored(m, id)
    requires forall id: PageId :: id.ft == ft && |m.srv[ft].blocks| <= id.nro < n ==> !Present(m, id)
    ensures CleanAgrees(r)
  {
    hide PageView, StoredIn;
    var m1 := m.(srv := r.srv);
    forall id | Present(r, id) && !r.pages[id].modificado
      ensures PageView(r, id) == Stored(r, id)
    {
      assert Present(m1, id) && Present(m, id);
      assert PageView(m, id) == Stored(m, id);
    }
  }

  lemma TruncatedView(m: Mem, r: Mem, ft: FileTag, size: nat, n: nat)
    requires Coherent(m) && ft in m.srv && n == NeededBlocks(m.tam, size) && m.srv[ft].estado == WorkInProgress
    requires r.srv == m.srv[ft := File(size, Resized(m.tam, m.srv[ft].blocks, n), WorkInProgress)]
    requires Reshaped(m.(srv := r.srv), r, ft, n)
    ensures 0 < m.tam && View(r) == MapStep(m.tam, View(m), Truncate(ft, size)).0
  {
    hide Coherent, NeededBlocks, PageView, Reshaped, MapStep, Resized, BlocksView;
    CoherentBasics(m);
    TruncatedBlocks(m, r, ft, size, n);
    TruncatedFile(m.tam, View(m), ft, size);
    SameFiles(View(r), View(m)[ft := File(size, Resized(m.tam, View(m)[ft].blocks, n), WorkInProgress)]);
  }

  lemma TruncatedBlocks(m: Mem, r: Mem, ft: FileTag, size: nat, n: nat)
    requires Coherent(m) && ft in m.srv && n == NeededBlocks(m.tam, size)
    requires r.srv == m.srv[ft := File(size, Resized(m.tam, m.srv[ft].blocks, n), WorkInProgress)]
    requires Reshaped(m.(srv := r.srv), r, ft, n)
    ensures forall g :: g in m.srv && g != ft ==> BlocksView(r, g) == BlocksView(m, g)
    ensures BlocksView(r, ft) == Resized(m.tam, BlocksView(m, ft), n)
  {
    TruncatedPages(m, r, ft, size, n);
    hide Coherent, NeededBlocks, PageView, Reshaped, Stored;
    forall g | g in m.srv && g != ft
      ensures BlocksView(r, g) == BlocksView(m, g)
    {
    }
    assert BlocksView(r, ft) == Resized(m.tam, BlocksView(m, ft), n);
  }

  /** On a file that can be resized, TRUNCATE leaves a coherent memory exactly when the table
      follows the file, and then the view is the resized flat file. */
  lemma TruncateSimulatesIff(m: Mem, ft: FileTag, size: nat)
    requires Coherent(m) && Sound(m) && 0 < m.tam && ft in m.srv && m.srv[ft].estado == WorkInProgress
    ensures var s := AdjustedSize(m.tam, size);
      var r := Exec(m, TRUNCATE(ft, size));
      && (Follows(m, ft, NeededBlocks(m.tam, s)) <==> r.Done? && Coherent(r.m))
      && (r.Done? ==> r.answer == Ok)
      && (r.Done? && Coherent(r.m) ==> View(r.m) == MapStep(m.tam, View(m), Truncate(ft, s)).0)
  {
    hide NeededBlocks, Sound, Coherent, PageView, View, Reshaped, AdjustedSize, TruncateTable;
    var s := AdjustedSize(m.tam, size);
    var n := NeededBlocks(m.tam, s);
    TruncatedFile(m.tam, m.srv, ft, s);
    var m1 := m.(srv := MapStep(m.tam, m.srv, Truncate(ft, s)).0);
    assert Sound(m1) by { SrvSound(m, m1.srv); }
    TruncateTableShape(m1, ft, s, Ok);
    assert Follows(m1, ft, n) <==> Follows(m, ft, n);
    var r := Exec(m, TRUNCATE(ft, size));
    assert r == TruncateTable(m1, ft, s, Ok);
    if Follows(m, ft, n) {
      TruncatedStep(m, m1, r.m, ft, s, n);
    } else if r.Done? {
      TruncateUnsynced(m1, ft, n);
    }
  }

  lemma TruncatedStep(m: Mem, m1: Mem, r: Mem, ft: FileTag, size: nat, n: nat)
    requires Coherent(m) && Sound(r) && 0 < m.tam && ft in m.srv && n == NeededBlocks(m.tam, size)
    requires m.srv[ft].estado == WorkInProgress && Reshaped(m1, r, ft, n)
    requires m1 == m.(srv := m.srv[ft := File(size, Resized(m.tam, m.srv[ft].blocks, n), WorkInProgress)])
    ensures Coherent(r) && View(r) == MapStep(m.tam, View(m), Truncate(ft, size)).0
  {
    assert r.srv == m1.srv;
    hide NeededBlocks, Sound, Coherent, View, Reshaped;
    TruncatedCoherent(m, r, ft, size, n);
    TruncatedView(m, r, ft, size, n);
  }

  lemma TruncateUnsynced(m: Mem, ft: FileTag, n: nat)
    requires ft in m.tables && m.tables[ft].size != n && ft in m.srv && |m.srv[ft].blocks| == n
    ensures !Coherent(m)
  {
    hide Sound;
  }

  /** A refused TRUNCATE changes nothing. */
  lemma TruncateRefused(m: Mem, ft: FileTag, size: nat)
    requires Coherent(m) && Sound(m) && 0 < m.tam && ft in m.srv && m.srv[ft].estado == Commited
    requires Measured(m.tam, m.srv, ft)
    ensures var r := Exec(m, TRUNCATE(ft, size));
      r.Done? && r.answer == Refused(ErrWriteCommited) && Transparent(m, r.m)
  {
    hide NeededBlocks, Coherent, Sound, Transparent, LoadTable, RefreshTable, Linked;
    SoundLinked(m);
    LoadTableCoherent(m, ft);
    var m1 := LoadTable(m, ft).m;
    CoherentOf(m, m1);
    LoadTableLength(m, ft);
    assert Measured(m1.tam, m1.srv, ft);
    RefreshSynced(m1, ft);
  }
}
