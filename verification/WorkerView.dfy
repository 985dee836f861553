/** The paged cache is transparent: what a File:Tag contains is the frame of each resident page
    and Storage's block for the others, and page faults, evictions and write-backs leave that
    view alone. */
module WorkerView {
  import opened StorageModel
  import opened StorageSpec
  import opened WorkerModel
  import opened WorkerFrames

  function StoredIn(srv: FileMap, id: PageId): Block {
    if id.ft in srv && id.nro < |srv[id.ft].blocks| then srv[id.ft].blocks[id.nro] else ""
  }

  function Stored(m: Mem, id: PageId): Block {
    StoredIn(m.srv, id)
  }

  function PageView(m: Mem, id: PageId): Block {
    if id in m.pages && m.pages[id].presencia && 0 <= m.pages[id].marco < |m.marcos|
    then m.marcos[m.pages[id].marco].data
    else Stored(m, id)
  }

  function BlocksView(m: Mem, ft: FileTag): (r: seq<Block>)
    requires ft in m.srv
    ensures |r| == |m.srv[ft].blocks| && forall k :: 0 <= k < |r| ==> r[k] == PageView(m, PageId(ft, k))
  {
    seq(|m.srv[ft].blocks|, k requires 0 <= k < |m.srv[ft].blocks| => PageView(m, PageId(ft, k)))
  }

  /** The files as the Worker's reads see them. */
  function View(m: Mem): (v: FileMap)
    ensures v.Keys == m.srv.Keys
    ensures forall ft :: ft in v ==> v[ft] == m.srv[ft].(blocks := BlocksView(m, ft))
  {
    map ft | ft in m.srv :: m.srv[ft].(blocks := BlocksView(m, ft))
  }

  // ---------------------------------------------------------------- the cache invariant

  /** Page tables are as long as the files. */
  ghost predicate Synced(m: Mem) {
    forall ft :: ft in m.tables ==> ft in m.srv && m.tables[ft].size == |m.srv[ft].blocks|
  }

  /** A clean resident page is Storage's block. */
  ghost predicate CleanAgrees(m: Mem) {
    forall id :: Present(m, id) && !m.pages[id].modificado ==> PageView(m, id) == Stored(m, id)
  }

  /** Storage will accept the pending write-backs. */
  ghost predicate DirtyAccepted(m: Mem) {
    forall id :: id in m.pages && m.pages[id].modificado ==> id.ft in m.srv && m.srv[id.ft].estado == WorkInProgress
  }

  /** The size in a file's metadata describes its block list: what the Worker takes the length of
      a page table from.  So for every file but the initial_file:BASE of a fresh start, which has
      size 0 and one block, and its TAG copies, until they are truncated. */
  ghost predicate Measured(tam: nat, srv: FileMap, ft: FileTag) {
    ft in srv ==> 0 < tam && NeededBlocks(tam, srv[ft].tamanio) == |srv[ft].blocks|
  }

  /** No refused write-back is waiting for the Master to be consulted. */
  ghost predicate Coherent(m: Mem) {
    && Sound(m) && WholeBlocks(m.tam, m.srv) && Synced(m) && CleanAgrees(m) && DirtyAccepted(m)
    && !m.reported
  }

  // ---------------------------------------------------------------- eviction

  lemma SameView(m: Mem, r: Mem)
    requires SameHeaders(m.srv, r.srv)
    requires forall ft, k :: ft in m.srv && 0 <= k < |m.srv[ft].blocks| ==>
      PageView(r, PageId(ft, k)) == PageView(m, PageId(ft, k))
    ensures View(r) == View(m)
  {
    forall ft | ft in m.srv
      ensures BlocksView(r, ft) == BlocksView(m, ft)
    {
    }
  }

  /** Whether Storage takes a write of the page. */
  ghost predicate Accepts(m: Mem, id: PageId) {
    id.ft in m.srv && m.srv[id.ft].estado == WorkInProgress && id.nro < |m.srv[id.ft].blocks|
  }

  ghost predicate SameHeader(a: File, b: File) {
    a.tamanio == b.tamanio && a.estado == b.estado && |a.blocks| == |b.blocks|
  }

  /** Two stores with the same files, sizes and states. */
  ghost predicate SameHeaders(a: FileMap, b: FileMap) {
    a.Keys == b.Keys && forall ft :: ft in a ==> SameHeader(a[ft], b[ft])
  }

  ghost predicate WholeBlocks(tam: nat, srv: FileMap) {
    forall ft, k :: ft in srv && 0 <= k < |srv[ft].blocks| ==> |srv[ft].blocks[k]| == tam
  }

  /** A write of one block changes that block and nothing else. */
  lemma StoreWrite(tam: nat, srv: FileMap, id: PageId, data: Block)
    requires 0 < tam
    ensures var r := MapStep(tam, srv, Write(id.ft, id.nro, data)).0;
      && SameHeaders(srv, r)
      && (forall x :: x != id ==> StoredIn(r, x) == StoredIn(srv, x))
      && (WholeBlocks(tam, srv) && |data| == tam ==> WholeBlocks(tam, r))
      && (id.ft in srv && srv[id.ft].estado == WorkInProgress && id.nro < |srv[id.ft].blocks| ==>
            StoredIn(r, id) == data)
  {
  }

  lemma WriteBackEffect(m: Mem, f: nat)
    requires f < |m.marcos| && 0 < m.tam
    ensures var id := m.marcos[f].page;
      WriteBack(m, f) == if Accepts(m, id) then
        m.(srv := m.srv[id.ft := m.srv[id.ft].(blocks := m.srv[id.ft].blocks[id.nro := m.marcos[f].data])])
      else m.(reported := true)
  {
  }

  /** The memory after the write-back, if any, of the victim. */
  function VictimWritten(m: Mem, f: nat): Mem
    requires f < |m.marcos| && m.marcos[f].page in m.pages && 0 < m.tam
  {
    if m.pages[m.marcos[f].page].modificado then WriteBack(m, f) else m
  }

  lemma UnloadPages(m: Mem, f: nat)
    requires f < |m.bits| && HoldsPage(m, f)
    ensures var r := Unload(m, f);
      var v := m.marcos[f].page;
      && r.srv == m.srv && r.reported == m.reported && r.marcos == m.marcos && r.tam == m.tam && r.tables == m.tables
      && r.pages.Keys == m.pages.Keys
      && !r.pages[v].presencia && !r.pages[v].modificado
      && (forall id :: id in m.pages && id != v ==> r.pages[id] == m.pages[id])
  {
  }

  /** check_file_tag moves no page: the table it drops has none resident. */
  lemma CheckPages(m: Mem, ft: FileTag, incoming: FileTag)
    requires Linked(m) && ft in m.tables && m.tables[ft].cantidad - 1 >= |Resident(m, ft)|
    ensures var r := CheckFileTag(m, ft, incoming);
      && r.srv == m.srv && r.reported == m.reported && r.marcos == m.marcos && r.tam == m.tam
      && (forall id :: Present(r, id) <==> Present(m, id))
      && (forall id :: id in r.pages ==> id in m.pages && r.pages[id] == m.pages[id])
      && (forall g :: g in r.tables ==> g in m.tables && r.tables[g].size == m.tables[g].size)
  {
    var r := CheckFileTag(m, ft, incoming);
    CheckFileTagLinked(m, ft, incoming);
    hide Linked;
    forall id
      ensures Present(r, id) <==> Present(m, id)
    {
      assert Present(m, id) <==> id in Resident(m, id.ft);
      assert Present(r, id) <==> id in Resident(r, id.ft);
    }
  }

  /** Where pages are after an eviction: only the victim has moved out. */
  lemma EvictPages(m: Mem, f: nat, incoming: FileTag)
    requires Sound(m) && f < |m.bits| && m.bits[f]
    ensures HoldsPage(m, f)
    ensures var r := Evict(m, f, incoming);
      var v := m.marcos[f].page;
      && r.srv == VictimWritten(m, f).srv && r.reported == VictimWritten(m, f).reported
      && r.marcos == m.marcos && r.tam == m.tam
      && (forall id :: Present(r, id) <==> Present(m, id) && id != v)
      && (forall id :: id in r.pages ==> id in m.pages && (id != v ==> r.pages[id] == m.pages[id]))
      && (forall id :: id in r.pages && id == v ==> !r.pages[id].modificado)
      && (forall ft :: ft in r.tables ==> ft in m.tables && r.tables[ft].size == m.tables[ft].size)
  {
    assert HoldsPage(m, f);
    var v := m.marcos[f].page;
    assert HasPage(m, v);
    var m1 := VictimWritten(m, f);
    assert Evict(m, f, incoming) == CheckFileTag(Unload(m1, f), v.ft, incoming);
    WriteBackSound(m, f);
    assert HoldsPage(m1, f);
    hide Evict, VictimWritten;
    UnloadAndCheckPages(m1, f, incoming);
  }

  lemma UnloadAndCheckPages(m: Mem, f: nat, incoming: FileTag)
    requires Sound(m) && f < |m.bits| && m.bits[f] && HoldsPage(m, f) && m.marcos[f].page.ft in m.tables
    ensures var v := m.marcos[f].page;
      var r := CheckFileTag(Unload(m, f), v.ft, incoming);
      && r.srv == m.srv && r.reported == m.reported && r.marcos == m.marcos && r.tam == m.tam
      && (forall id :: Present(r, id) <==> Present(m, id) && id != v)
      && (forall id :: id in r.pages ==> id in m.pages && (id != v ==> r.pages[id] == m.pages[id]))
      && (forall id :: id in r.pages && id == v ==> !r.pages[id].modificado)
      && (forall ft :: ft in r.tables ==> ft in m.tables && r.tables[ft].size == m.tables[ft].size)
  {
    var v := m.marcos[f].page;
    UnloadLinked(m, f);
    UnloadPages(m, f);
    SubsetCard({v}, Resident(m, v.ft));
    assert Slack(m, v.ft) >= 0;
    hide Linked, Unload, CheckFileTag, Resident, CountsAhead, DirtyResident, HoldsPage;
    CheckPages(Unload(m, f), v.ft, incoming);
  }

  lemma SoundTam(m: Mem)
    requires Sound(m)
    ensures 0 < m.tam && |m.marcos| == |m.bits|
  {
  }

  lemma EvictPageViews(m: Mem, f: nat, incoming: FileTag, id: PageId)
    requires Sound(m) && f < |m.bits| && m.bits[f]
    ensures HoldsPage(m, f)
    ensures var r := Evict(m, f, incoming);
      var v := m.marcos[f].page;
      PageView(r, id) == if id != v then PageView(m, id) else
        if m.pages[v].modificado && Accepts(m, v) then m.marcos[f].data else Stored(m, v)
  {
    hide Evict, Sound, WriteBack;
    SoundTam(m);
    SoundLinked(m);
    EvictPages(m, f, incoming);
    WriteBackEffect(m, f);
    hide HoldsPage;
    var r := Evict(m, f, incoming);
    if id == m.marcos[f].page {
      assert !Present(r, id);
    } else {
      assert Present(r, id) <==> Present(m, id);
      assert Stored(r, id) == Stored(m, id);
    }
  }

  /** Eviction leaves the view unchanged exactly when the victim is clean, Storage accepts its
      page, or the page is what Storage has anyway. */
  lemma EvictExact(m: Mem, f: nat, incoming: FileTag)
    requires Sound(m) && CleanAgrees(m) && Synced(m) && f < |m.bits| && m.bits[f]
    ensures HoldsPage(m, f)
    ensures var v := m.marcos[f].page;
      View(Evict(m, f, incoming)) == View(m) <==>
        !m.pages[v].modificado || Accepts(m, v) || m.marcos[f].data == Stored(m, v)
  {
    var v := m.marcos[f].page;
    EvictPages(m, f, incoming);
    assert HasPage(m, v) && v.ft in m.srv && PageView(m, v) == m.marcos[f].data && Present(m, v);
    assert v.nro < |m.srv[v.ft].blocks|;
    WriteBackEffect(m, f);
    hide Evict, CountsAhead, DirtyResident, Linked, WriteBack, CleanAgrees, Synced;
    var r := Evict(m, f, incoming);
    EvictPageViews(m, f, incoming, v);
    if !m.pages[v].modificado || Accepts(m, v) || m.marcos[f].data == Stored(m, v) {
      EvictTransparent(m, f, incoming);
    } else {
      assert BlocksView(r, v.ft)[v.nro] != BlocksView(m, v.ft)[v.nro];
    }
  }

  lemma EvictTransparent(m: Mem, f: nat, incoming: FileTag)
    requires Sound(m) && CleanAgrees(m) && f < |m.bits| && m.bits[f]
    requires HoldsPage(m, f)
    requires var v := m.marcos[f].page;
      !m.pages[v].modificado || Accepts(m, v) || m.marcos[f].data == Stored(m, v)
    ensures View(Evict(m, f, incoming)) == View(m)
  {
    hide Evict, CountsAhead, DirtyResident;
    var v := m.marcos[f].page;
    var r := Evict(m, f, incoming);
    EvictPages(m, f, incoming);
    WriteBackEffect(m, f);
    assert Present(m, v) && PageView(m, v) == m.marcos[f].data;
    hide Linked, WriteBack;
    forall ft, k | ft in m.srv && 0 <= k < |m.srv[ft].blocks|
      ensures PageView(r, PageId(ft, k)) == PageView(m, PageId(ft, k))
    {
      EvictPageViews(m, f, incoming, PageId(ft, k));
    }
    SameView(m, r);
  }
}
