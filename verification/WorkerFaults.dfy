/** Page faults keep the cache coherent and do not change the view. */
module WorkerFaults {
  import opened StorageModel
  import opened StorageSpec
  import opened PageReplacement
  import opened WorkerModel
  import opened WorkerFrames
  import opened WorkerAccess
  import opened WorkerView

  /** Coherent, with the same view: what every access that writes nothing keeps. */
  ghost predicate Transparent(m: Mem, r: Mem) {
    Coherent(r) && View(r) == View(m) && r.tam == m.tam && r.policy == m.policy
  }

  lemma TransparentChain(a: Mem, b: Mem, c: Mem)
    requires Transparent(a, b) && Transparent(b, c)
    ensures Transparent(a, c)
  {
    hide Coherent, View;
  }

  /** Coherence and the view carry over to a memory with the same page views. */
  lemma ViewsCarryOver(m: Mem, r: Mem)
    requires Coherent(m) && Sound(r) && r.tam == m.tam && r.policy == m.policy && r.reported == m.reported
    requires SameHeaders(m.srv, r.srv) && WholeBlocks(r.tam, r.srv)
    requires forall ft :: ft in r.tables ==> ft in m.tables && r.tables[ft].size == m.tables[ft].size
    requires forall id :: id in r.pages && r.pages[id].modificado ==> id in m.pages && m.pages[id].modificado
    requires forall id :: PageView(r, id) == PageView(m, id)
    requires CleanAgrees(r)
    ensures Transparent(m, r)
  {
    hide Sound, PageView, CleanAgrees, WholeBlocks, View, NeededBlocks;
    assert Synced(r);
    SyncedViewsCarryOver(m, r);
  }

  lemma SyncedViewsCarryOver(m: Mem, r: Mem)
    requires Coherent(m) && Sound(r) && r.tam == m.tam && r.policy == m.policy && r.reported == m.reported
    requires SameHeaders(m.srv, r.srv) && WholeBlocks(r.tam, r.srv) && Synced(r)
    requires forall id :: id in r.pages && r.pages[id].modificado ==> id in m.pages && m.pages[id].modificado
    requires forall id :: PageView(r, id) == PageView(m, id)
    requires CleanAgrees(r)
    ensures Transparent(m, r)
  {
    hide Sound, PageView, CleanAgrees, WholeBlocks, NeededBlocks;
    SameView(m, r);
    hide View;
  }

  // ---------------------------------------------------------------- marks and times

  /** Only use bits, access times, the clock and the hand differ. */
  ghost predicate SameBytes(m: Mem, r: Mem) {
    && SamePlacement(m, r) && r.srv == m.srv && r.tables == m.tables && r.policy == m.policy
    && r.reported == m.reported
    && (forall f: nat :: f < |m.marcos| ==> r.marcos[f].data == m.marcos[f].data)
    && (forall id :: id in m.pages ==> r.pages[id].modificado == m.pages[id].modificado)
  }

  lemma SameBytesTransparent(m: Mem, r: Mem)
    requires Coherent(m) && SameBytes(m, r) && Sound(r)
    ensures Transparent(m, r)
  {
    hide Sound, Linked;
    forall id
      ensures PageView(r, id) == PageView(m, id) && Stored(r, id) == Stored(m, id)
    {
    }
    ViewsCarryOver(m, r);
  }

  // ---------------------------------------------------------------- eviction

  lemma EvictStore(m: Mem, f: nat, incoming: FileTag)
    requires Coherent(m) && f < |m.bits| && m.bits[f]
    ensures HoldsPage(m, f)
    ensures var r := Evict(m, f, incoming);
      && SameHeaders(m.srv, r.srv) && WholeBlocks(r.tam, r.srv)
      && (forall id :: id != m.marcos[f].page ==> Stored(r, id) == Stored(m, id))
  {
    EvictPages(m, f, incoming);
    var v := m.marcos[f].page;
    assert f < |m.marcos| && |m.marcos[f].data| == m.tam && 0 < m.tam;
    var data := m.marcos[f].data;
    StoreWrite(m.tam, m.srv, v, data);
    hide Evict, Sound, CleanAgrees, Synced, DirtyAccepted, HoldsPage, MapStep, StoredIn;
    assert WholeBlocks(m.tam, Evict(m, f, incoming).srv);
  }

  lemma EvictClean(m: Mem, f: nat, incoming: FileTag)
    requires Coherent(m) && f < |m.bits| && m.bits[f]
    ensures CleanAgrees(Evict(m, f, incoming))
  {
    EvictPages(m, f, incoming);
    EvictStore(m, f, incoming);
    hide Evict, Sound, WholeBlocks, HoldsPage, SameHeaders, VictimWritten;
    var r := Evict(m, f, incoming);
    forall id | Present(r, id) && !r.pages[id].modificado
      ensures PageView(r, id) == Stored(r, id)
    {
      assert Present(m, id) && r.pages[id] == m.pages[id];
      assert PageView(m, id) == Stored(m, id);
    }
  }

  lemma EvictCoherent(m: Mem, f: nat, incoming: FileTag)
    requires Coherent(m) && f < |m.bits| && m.bits[f]
    ensures Transparent(m, Evict(m, f, incoming))
  {
    EvictSound(m, f, incoming);
    EvictShape(m, f, incoming);
    EvictPages(m, f, incoming);
    EvictStore(m, f, incoming);
    EvictClean(m, f, incoming);
    VictimAccepted(m, f);
    hide Evict, CleanAgrees, VictimWritten, HoldsPage, SameHeaders, WholeBlocks, Linked, Stored;
    forall id
      ensures PageView(Evict(m, f, incoming), id) == PageView(m, id)
    {
      EvictPageViews(m, f, incoming, id);
    }
    hide PageView, CountsAhead, DirtyResident;
    ViewsCarryOver(m, Evict(m, f, incoming));
  }

  /** Storage takes the victim's bytes, which are its own when the victim is clean. */
  lemma VictimAccepted(m: Mem, f: nat)
    requires Coherent(m) && f < |m.bits| && m.bits[f]
    ensures HoldsPage(m, f)
    ensures var v := m.marcos[f].page;
      && !VictimWritten(m, f).reported
      && PageView(m, v) == m.marcos[f].data
      && (if m.pages[v].modificado then Accepts(m, v) else m.marcos[f].data == Stored(m, v))
  {
    assert HoldsPage(m, f);
    var v := m.marcos[f].page;
    assert HasPage(m, v) && Present(m, v) && PageView(m, v) == m.marcos[f].data;
    if m.pages[v].modificado {
      assert Accepts(m, v);
      WriteBackEffect(m, f);
    }
  }

  lemma ReplaceCoherent(m: Mem, incoming: FileTag)
    requires Coherent(m) && AllBusy(m)
    ensures Transparent(m, Replace(m, incoming).0)
  {
    if m.policy == LRU {
      hide Evict, Transparent;
      EvictCoherent(m, Oldest(Times(m), 1, 0), incoming);
    } else {
      ClockMChoice(Marks(m), m.hand);
      var scan := ClockM(Marks(m), m.hand);
      hide ClockM;
      ClockCoherent(m, scan.marks, scan.victim, incoming);
    }
  }

  lemma ClockCoherent(m: Mem, marks: seq<Mark>, victim: nat, incoming: FileTag)
    requires Coherent(m) && |marks| == |m.marcos| && victim < |m.bits| && m.bits[victim]
    ensures SetUse(m, marks).bits == m.bits
    ensures Transparent(m, Evict(SetUse(m, marks), victim, incoming).(hand := At(|m.marcos|, victim, 1)))
  {
    var m1 := SetUse(m, marks);
    SetUseTransparent(m, marks);
    assert Sound(m) && Sound(m1);
    hide Coherent, SetUse, Transparent, At;
    EvictCoherent(m1, victim, incoming);
    EvictShape(m1, victim, incoming);
    var m2 := Evict(m1, victim, incoming);
    hide Evict, Sound;
    assert Coherent(m2) by { CoherentOf(m1, m2); }
    MoveHandTransparent(m2, At(|m.marcos|, victim, 1));
    TransparentChain(m, m1, m2);
    TransparentChain(m, m2, m2.(hand := At(|m.marcos|, victim, 1)));
  }

  lemma CoherentOf(m: Mem, r: Mem)
    requires Transparent(m, r)
    ensures Coherent(r)
  {
  }

  lemma SetUseTransparent(m: Mem, marks: seq<Mark>)
    requires Coherent(m) && |marks| == |m.marcos|
    ensures var r := SetUse(m, marks); r.bits == m.bits && |r.marcos| == |m.marcos| && Coherent(r) && Transparent(m, r)
  {
    var m1 := SetUse(m, marks);
    SetUseSound(m, marks);
    SetUseSameBytes(m, marks);
    hide Sound, SameBytes, SetUse, CleanAgrees, Synced, WholeBlocks;
    SameBytesTransparent(m, m1);
  }

  lemma SetUseSameBytes(m: Mem, marks: seq<Mark>)
    requires Linked(m) && |marks| == |m.marcos|
    ensures SameBytes(m, SetUse(m, marks))
  {
  }

  lemma MoveHandTransparent(m: Mem, hand: nat)
    requires Coherent(m) && hand < |m.marcos|
    ensures Transparent(m, m.(hand := hand))
  {
    MoveHand(m, hand);
    assert SameBytes(m, m.(hand := hand));
    hide Coherent, SameBytes;
    SameBytesTransparent(m, m.(hand := hand));
  }

  // ---------------------------------------------------------------- loading a page

  lemma FillViews(m: Mem, id: PageId, f: nat, data: Block)
    requires Linked(m) && HasPage(m, id) && id in m.pages && !m.pages[id].presencia
    requires f < |m.bits| && f < |m.marcos| && !m.bits[f] && data == Stored(m, id) && |data| == m.tam
    ensures var r := Fill(m, id, f, data);
      && (forall x :: PageView(r, x) == PageView(m, x) && Stored(r, x) == Stored(m, x))
      && (forall x :: x in r.pages <==> x in m.pages)
      && (forall x :: x in r.pages ==> r.pages[x].modificado == m.pages[x].modificado)
      && (forall x :: Present(r, x) ==> x == id || Present(m, x))
  {
    var r := Fill(m, id, f, data);
    forall x
      ensures PageView(r, x) == PageView(m, x)
    {
      if x != id && Present(m, x) { assert InFrame(m, x); }
    }
  }

  lemma FillCoherent(m: Mem, id: PageId, f: nat)
    requires Coherent(m) && HasPage(m, id) && id in m.pages && !m.pages[id].presencia
    requires f < |m.bits| && !m.bits[f]
    ensures f < |m.marcos| && Transparent(m, Fill(m, id, f, Stored(m, id)))
  {
    var data := Stored(m, id);
    assert |data| == m.tam;
    FillSound(m, id, f, data);
    FillViews(m, id, f, data);
    FillShape(m, id, f);
    assert PageView(m, id) == data;
    hide Linked, CountsAhead, DirtyResident, WholeBlocks, Fill, PageView, Stored, Synced, HasPage;
    ViewsCarryOver(m, Fill(m, id, f, data));
  }

  lemma FillShape(m: Mem, id: PageId, f: nat)
    requires WholeBlocks(m.tam, m.srv) && Synced(m) && HasPage(m, id) && id in m.pages
    requires f < |m.bits| && f < |m.marcos|
    ensures var r := Fill(m, id, f, Stored(m, id));
      && r.tam == m.tam && r.policy == m.policy && WholeBlocks(r.tam, r.srv) && SameHeaders(m.srv, r.srv)
      && forall ft :: ft in r.tables ==> ft in m.tables && r.tables[ft].size == m.tables[ft].size
  {
    assert |Stored(m, id)| == m.tam;
  }

  lemma FreeFrameCoherent(m: Mem, incoming: FileTag)
    requires Coherent(m) && incoming in m.tables
    ensures Transparent(m, FreeFrame(m, incoming).0)
  {
    hide Replace;
    if FirstFree(m.bits, 0).None? { ReplaceCoherent(m, incoming); }
  }

  /** An absent page's view is Storage's block, whatever happens to the view's other pages. */
  lemma AbsentStored(m: Mem, r: Mem, id: PageId)
    requires HasPage(m, id) && id in m.pages && !m.pages[id].presencia && Synced(m) && View(r) == View(m)
    requires id in r.pages && !r.pages[id].presencia
    ensures Stored(r, id) == Stored(m, id) && id.ft in m.srv && id.nro < |m.srv[id.ft].blocks|
  {
    assert BlocksView(m, id.ft)[id.nro] == PageView(m, id);
    assert View(r)[id.ft].blocks[id.nro] == PageView(r, id);
  }

  lemma FaultCoherent(m: Mem, id: PageId)
    requires Coherent(m) && HasPage(m, id) && id in m.pages && !m.pages[id].presencia
    ensures Transparent(m, BringIn(m, id, Stored(m, id)))
  {
    StillAbsent(m, id);
    FreeFrameCoherent(m, id.ft);
    var (m1, f) := FreeFrame(m, id.ft);
    AbsentStored(m, m1, id);
    hide FreeFrame, View, Fill, Synced, CleanAgrees, DirtyAccepted, WholeBlocks, Linked, CountsAhead, Stored;
    FillCoherent(m1, id, f);
    assert Coherent(m1);
    hide Sound;
    TransparentChain(m, m1, Fill(m1, id, f, Stored(m, id)));
  }

  lemma SolicitarCoherent(m: Mem, id: PageId)
    requires Coherent(m) && HasPage(m, id) && id in m.pages && !m.pages[id].presencia
    ensures var r := Solicitar(m, id); r.Ready? && Transparent(m, r.m)
  {
    assert MapStep(m.tam, m.srv, Read(id.ft, id.nro)).1 == Contenido(Stored(m, id));
    FaultCoherent(m, id);
    hide Coherent, BringIn, Stored, MapStep, Transparent;
  }
}
