/** Frames and pages are paired one to one, and a table's counter stays ahead of its resident
    pages, so that `check_file_tag` never drops a table that still has one. */
module WorkerFrames {
  import opened StorageModel
  import opened StorageSpec
  import opened PageReplacement
  import opened WorkerModel

  function Resident(m: Mem, ft: FileTag): set<PageId> {
    set id | id in m.pages && id.ft == ft && m.pages[id].presencia
  }

  ghost predicate Present(m: Mem, id: PageId) {
    id in m.pages && m.pages[id].presencia
  }

  /** What `cantidad_paginas` counts beyond the resident pages: the table's first length. */
  function Slack(m: Mem, ft: FileTag): int
    requires ft in m.tables
  {
    m.tables[ft].cantidad - |Resident(m, ft)|
  }

  ghost predicate CountsAhead(m: Mem) {
    forall ft :: ft in m.tables ==> Slack(m, ft) >= 0
  }

  /** Only a resident page can be dirty. */
  ghost predicate DirtyResident(m: Mem) {
    forall id :: id in m.pages && m.pages[id].modificado ==> m.pages[id].presencia
  }

  /** Every frame is tam_pagina bytes. */
  ghost predicate FramesWhole(m: Mem) {
    forall f: nat :: f < |m.marcos| ==> |m.marcos[f].data| == m.tam
  }

  ghost predicate Sound(m: Mem) {
    Linked(m) && CountsAhead(m) && DirtyResident(m) && FramesWhole(m)
  }

  /** Tables that survive keep their slack; tables that go had no resident page. */
  ghost predicate KeepsSlack(m: Mem, r: Mem) {
    && (forall ft :: ft in m.tables && ft in r.tables ==> Slack(r, ft) == Slack(m, ft))
    && (forall ft :: ft in m.tables && ft !in r.tables ==> Resident(r, ft) == {})
  }

  lemma SubsetCard<T>(part: set<T>, whole: set<T>)
    requires part <= whole
    ensures |whole - part| == |whole| - |part|
  {
    assert whole == part + (whole - part);
  }

  /** Other files' resident pages, when only pages of `ft` change. */
  lemma ResidentElsewhere(m: Mem, r: Mem, ft: FileTag)
    requires forall id: PageId :: id.ft != ft ==> (Present(r, id) <==> Present(m, id))
    ensures forall g :: g != ft ==> Resident(r, g) == Resident(m, g)
  {
    forall g | g != ft
      ensures Resident(r, g) == Resident(m, g)
    {
      assert forall id :: id in Resident(r, g) <==> id.ft == g && Present(r, id);
      assert forall id :: id in Resident(m, g) <==> id.ft == g && Present(m, id);
    }
  }

  /** Pages `lost` of `ft` leave memory and the counter follows them. */
  lemma SlackStep(m: Mem, r: Mem, ft: FileTag, lost: set<PageId>)
    requires CountsAhead(m) && ft in m.tables && lost <= Resident(m, ft)
    requires forall g :: g in r.tables ==> g in m.tables
    requires forall g :: g in r.tables && g != ft ==> r.tables[g].cantidad == m.tables[g].cantidad
    requires ft in r.tables ==> r.tables[ft].cantidad == m.tables[ft].cantidad - |lost|
    requires Resident(r, ft) == Resident(m, ft) - lost
    requires forall g :: g != ft ==> Resident(r, g) == Resident(m, g)
    requires forall g :: g in m.tables && g !in r.tables ==> Resident(r, g) == {}
    ensures CountsAhead(r) && KeepsSlack(m, r)
  {
    SubsetCard(lost, Resident(m, ft));
    hide Resident;
    forall g | g in r.tables
      ensures Slack(r, g) == Slack(m, g)
    {
    }
  }

  lemma SoundLinked(m: Mem)
    requires Sound(m)
    ensures Linked(m)
  {
  }

  /** Slack survives one change after another. */
  lemma SlackChain(a: Mem, b: Mem, c: Mem)
    requires KeepsSlack(a, b) && KeepsSlack(b, c)
    requires forall ft :: ft in c.tables && ft in a.tables ==> ft in b.tables
    requires forall ft :: ft !in b.tables && Resident(b, ft) == {} ==> Resident(c, ft) == {}
    ensures KeepsSlack(a, c)
  {
    hide Resident;
  }

  // ---------------------------------------------------------------- pairing

  lemma OnePagePerFrame(m: Mem, a: PageId, b: PageId)
    requires Linked(m) && a in m.pages && b in m.pages
    requires m.pages[a].presencia && m.pages[b].presencia && m.pages[a].marco == m.pages[b].marco
    ensures a == b
  {
    assert InFrame(m, a) && InFrame(m, b);
  }

  // ---------------------------------------------------------------- tables

  lemma LoadTableSound(m: Mem, ft: FileTag)
    requires Sound(m) && LoadTable(m, ft).Ready?
    ensures Sound(LoadTable(m, ft).m) && KeepsSlack(m, LoadTable(m, ft).m)
  {
    var r := LoadTable(m, ft).m;
    forall g
      ensures Resident(r, g) == Resident(m, g)
    {
      if ft !in m.tables { assert forall id :: id in m.pages ==> HasPage(m, id); }
    }
  }

  lemma DropLastSound(m: Mem, ft: FileTag)
    requires Sound(m) && ft in m.tables && 0 < m.tables[ft].size && DropLast(m, ft).Ready?
    ensures Sound(DropLast(m, ft).m) && KeepsSlack(m, DropLast(m, ft).m)
  {
    hide Linked, Resident, DirtyResident, CountsAhead, KeepsSlack, HasPage;
    var id := PageId(ft, m.tables[ft].size - 1);
    LastPage(m, ft);
    var r := DropLast(m, ft).m;
    var lost := if m.pages[id].presencia then {id} else {};
    DropLastMarks(m, ft, lost);
    SlackStep(m, r, ft, lost);
  }

  lemma LastPage(m: Mem, ft: FileTag)
    requires Linked(m) && ft in m.tables && 0 < m.tables[ft].size
    ensures PageId(ft, m.tables[ft].size - 1) in m.pages
  {
    assert HasPage(m, PageId(ft, m.tables[ft].size - 1));
  }

  lemma DropLastMarks(m: Mem, ft: FileTag, lost: set<PageId>)
    requires Linked(m) && DirtyResident(m) && ft in m.tables && 0 < m.tables[ft].size && DropLast(m, ft).Ready?
    requires var id := PageId(ft, m.tables[ft].size - 1);
      id in m.pages && lost == if m.pages[id].presencia then {id} else {}
    ensures var r := DropLast(m, ft).m;
      && DirtyResident(r) && r.tables.Keys == m.tables.Keys && lost <= Resident(m, ft)
      && Resident(r, ft) == Resident(m, ft) - lost && (forall g :: g != ft ==> Resident(r, g) == Resident(m, g))
      && r.tables[ft].cantidad == m.tables[ft].cantidad - |lost|
  {
    var r := DropLast(m, ft).m;
    assert Resident(r, ft) == Resident(m, ft) - lost;
    ResidentElsewhere(m, r, ft);
  }

  lemma {:induction false} DropToSound(m: Mem, ft: FileTag, size: nat)
    requires Sound(m) && ft in m.tables && DropTo(m, ft, size).Ready?
    ensures Sound(DropTo(m, ft, size).m) && KeepsSlack(m, DropTo(m, ft, size).m)
    ensures DropTo(m, ft, size).m.tables.Keys == m.tables.Keys
    decreases m.tables[ft].size
  {
    hide Sound, Resident;
    SoundLinked(m);
    if m.tables[ft].size > size {
      DropLastSound(m, ft);
      DropToSound(DropLast(m, ft).m, ft, size);
    }
  }

  lemma RefreshTableSound(m: Mem, ft: FileTag)
    requires Sound(m) && ft in m.tables && RefreshTable(m, ft).Ready?
    ensures Sound(RefreshTable(m, ft).m) && KeepsSlack(m, RefreshTable(m, ft).m)
  {
    hide NeededBlocks, DropTo;
    var n := PagesOf(m, ft);
    if n > m.tables[ft].size {
      GrownSound(m, ft, RefreshTable(m, ft).m, n);
    } else {
      DropToSound(m, ft, n);
    }
  }

  /** The table grows by pages that are not in memory. */
  lemma GrownSound(m: Mem, ft: FileTag, r: Mem, n: nat)
    requires Sound(m) && ft in m.tables && n > m.tables[ft].size && Linked(r)
    requires r == m.(tables := m.tables[ft := Tabla(m.tables[ft].cantidad, n)],
                     pages := m.pages + NewPages(ft, m.tables[ft].size, n))
    ensures Sound(r) && KeepsSlack(m, r)
  {
    hide Linked, Resident, CountsAhead, DirtyResident, KeepsSlack;
    GrownResident(m, ft, r, n);
    GrownDirty(m, ft, r, n);
    SlackStep(m, r, ft, {});
  }

  lemma GrownDirty(m: Mem, ft: FileTag, r: Mem, n: nat)
    requires DirtyResident(m) && ft in m.tables
    requires r.pages == m.pages + NewPages(ft, m.tables[ft].size, n)
    ensures DirtyResident(r)
  {
  }

  lemma GrownResident(m: Mem, ft: FileTag, r: Mem, n: nat)
    requires Linked(m) && ft in m.tables && r.pages == m.pages + NewPages(ft, m.tables[ft].size, n)
    ensures forall g :: Resident(r, g) == Resident(m, g)
  {
    assert forall id :: id in m.pages ==> HasPage(m, id);
  }

  // ---------------------------------------------------------------- replacement

  lemma UnloadLinked(m: Mem, f: nat)
    requires Linked(m) && f < |m.bits| && m.bits[f]
    ensures HoldsPage(m, f) && Linked(Unload(m, f))
    ensures var id := m.marcos[f].page;
      && id in Resident(m, id.ft)
      && Resident(Unload(m, f), id.ft) == Resident(m, id.ft) - {id}
      && (forall ft :: ft != id.ft ==> Resident(Unload(m, f), ft) == Resident(m, ft))
  {
    assert HoldsPage(m, f);
    var r := Unload(m, f);
    assert forall id :: HasPage(r, id) <==> HasPage(m, id);
    forall id | id in r.pages && r.pages[id].presencia
      ensures InFrame(r, id)
    {
      assert InFrame(m, id);
    }
    forall g: nat | g < |r.bits| && r.bits[g]
      ensures HoldsPage(r, g)
    {
      assert HoldsPage(m, g);
    }
  }

  lemma CheckFileTagLinked(m: Mem, ft: FileTag, incoming: FileTag)
    requires Linked(m) && ft in m.tables && m.tables[ft].cantidad - 1 >= |Resident(m, ft)|
    ensures Linked(CheckFileTag(m, ft, incoming))
    ensures var r := CheckFileTag(m, ft, incoming);
      && (forall g :: Resident(r, g) == Resident(m, g))
      && (forall g :: g != ft ==> (g in r.tables <==> g in m.tables))
      && (ft !in r.tables ==> Resident(m, ft) == {})
      && (ft in r.tables ==> r.tables[ft] == Tabla(m.tables[ft].cantidad - 1, m.tables[ft].size))
      && (forall g :: g in r.tables && g != ft ==> r.tables[g] == m.tables[g])
      && (forall id :: id in r.pages ==> id in m.pages && r.pages[id] == m.pages[id])
  {
    var r := CheckFileTag(m, ft, incoming);
    if ft !in r.tables {
      assert Resident(m, ft) == {};
      forall id | id in m.pages && m.pages[id].presencia
        ensures id.ft != ft
      {
        assert id !in Resident(m, ft);
      }
    }
    assert forall id :: id in r.pages <==> id in m.pages && id.ft in r.tables;
    assert forall id :: HasPage(r, id) <==> HasPage(m, id) && id.ft in r.tables;
    forall id | id in r.pages && r.pages[id].presencia ensures InFrame(r, id) { assert InFrame(m, id); }
    forall g: nat | g < |r.bits| && r.bits[g] ensures HoldsPage(r, g) { assert HoldsPage(m, g); }
  }

  /** Unload and check_file_tag together, on the memory whose write-back is done. */
  lemma UnloadAndCheckSound(m: Mem, f: nat, incoming: FileTag)
    requires Sound(m) && f < |m.bits| && m.bits[f]
    ensures HoldsPage(m, f) && m.marcos[f].page.ft in m.tables
    ensures var r := CheckFileTag(Unload(m, f), m.marcos[f].page.ft, incoming);
      && Sound(r) && KeepsSlack(m, r)
      && (forall g :: g in r.tables ==> g in m.tables)
      && (incoming in m.tables ==> incoming in r.tables && r.tables[incoming].size == m.tables[incoming].size)
  {
    hide Linked, Unload, HasPage, CheckFileTag, Resident, DirtyResident, CountsAhead;
    UnloadLinked(m, f);
    UnloadMarks(m, f);
    var id := m.marcos[f].page;
    var m2 := Unload(m, f);
    VictimCounted(m, id);
    CheckFileTagLinked(m2, id.ft, incoming);
    CheckFileTagShape(m2, id.ft, incoming);
    SlackStep(m, CheckFileTag(m2, id.ft, incoming), id.ft, {id});
  }

  lemma UnloadMarks(m: Mem, f: nat)
    requires DirtyResident(m) && f < |m.bits| && HoldsPage(m, f) && Linked(m)
    ensures var r := Unload(m, f);
      && DirtyResident(r) && r.tables == m.tables && r.marcos == m.marcos && r.tam == m.tam
      && m.marcos[f].page.ft in m.tables
  {
    assert HasPage(m, m.marcos[f].page);
  }

  lemma CheckFileTagShape(m: Mem, ft: FileTag, incoming: FileTag)
    requires ft in m.tables && DirtyResident(m)
    ensures var r := CheckFileTag(m, ft, incoming);
      && DirtyResident(r) && r.marcos == m.marcos && r.tam == m.tam && (ft == incoming ==> ft in r.tables)
  {
  }

  lemma VictimCounted(m: Mem, id: PageId)
    requires CountsAhead(m) && id in Resident(m, id.ft) && id.ft in m.tables
    ensures m.tables[id.ft].cantidad - 1 >= |Resident(m, id.ft) - {id}| && {id} <= Resident(m, id.ft)
  {
    SubsetCard({id}, Resident(m, id.ft));
    assert Slack(m, id.ft) >= 0;
  }

  lemma SrvSound(m: Mem, srv: FileMap)
    requires Sound(m)
    ensures Sound(m.(srv := srv)) && KeepsSlack(m, m.(srv := srv))
    ensures forall g :: Resident(m.(srv := srv), g) == Resident(m, g)
  {
    SamePlacementLinked(m, m.(srv := srv));
    assert forall g :: Resident(m.(srv := srv), g) == Resident(m, g);
  }

  lemma WriteBackSound(m: Mem, f: nat)
    requires Sound(m) && f < |m.marcos|
    ensures Sound(WriteBack(m, f)) && KeepsSlack(m, WriteBack(m, f))
    ensures var r := WriteBack(m, f);
      r.tables == m.tables && r.pages == m.pages && r.marcos == m.marcos && r.bits == m.bits
    ensures forall g :: Resident(WriteBack(m, f), g) == Resident(m, g)
  {
    var r := WriteBack(m, f);
    SamePlacementLinked(m, r);
    assert forall g :: Resident(r, g) == Resident(m, g);
  }

  lemma EvictSound(m: Mem, f: nat, incoming: FileTag)
    requires Sound(m) && f < |m.bits| && m.bits[f]
    ensures var r := Evict(m, f, incoming);
      && Sound(r) && KeepsSlack(m, r)
      && (forall g :: g in r.tables ==> g in m.tables)
      && (incoming in m.tables ==> incoming in r.tables && r.tables[incoming].size == m.tables[incoming].size)
  {
    hide Sound, Linked, Evict, CheckFileTag, Unload, HoldsPage, KeepsSlack, Resident, WriteBack, HasPage;
    SoundLinked(m);
    EvictIs(m, f, incoming);
    var m1 := if m.pages[m.marcos[f].page].modificado then WriteBack(m, f) else m;
    WriteBackSound(m, f);
    UnloadAndCheckSound(m1, f, incoming);
    SameSlackAfter(m, m1, Evict(m, f, incoming));
  }

  lemma EvictIs(m: Mem, f: nat, incoming: FileTag)
    requires Linked(m) && f < |m.bits| && m.bits[f]
    ensures HoldsPage(m, f) && m.marcos[f].page.ft in m.tables
    ensures var m1 := if m.pages[m.marcos[f].page].modificado then WriteBack(m, f) else m;
      && HoldsPage(m1, f)
      && Evict(m, f, incoming) == CheckFileTag(Unload(m1, f), m.marcos[f].page.ft, incoming)
  {
    assert HoldsPage(m, f) && HasPage(m, m.marcos[f].page);
  }

  lemma SameSlackAfter(a: Mem, b: Mem, c: Mem)
    requires b.tables == a.tables && KeepsSlack(b, c) && forall g :: Resident(b, g) == Resident(a, g)
    ensures KeepsSlack(a, c)
  {
    hide Resident;
  }

  lemma EvictShape(m: Mem, f: nat, incoming: FileTag)
    requires Linked(m) && f < |m.bits| && m.bits[f]
    ensures var r := Evict(m, f, incoming);
      && r.bits == m.bits[f := false] && r.marcos == m.marcos
      && r.policy == m.policy && r.tam == m.tam && r.hand == m.hand && r.clock == m.clock
  {
  }

  lemma SetUseSound(m: Mem, marks: seq<Mark>)
    requires Sound(m) && |marks| == |m.marcos|
    ensures var r := SetUse(m, marks);
      && Sound(r) && KeepsSlack(m, r) && r == m.(pages := r.pages)
      && r.pages.Keys == m.pages.Keys
      && (forall g :: Resident(r, g) == Resident(m, g))
      && forall id :: id in m.pages ==> r.pages[id].(uso := m.pages[id].uso) == m.pages[id]
  {
    hide CountsAhead, DirtyResident, FramesWhole;
    var r := SetUse(m, marks);
    assert forall g :: Resident(r, g) == Resident(m, g);
    hide Linked, SetUse, Resident;
    SameCounts(m, r);
  }

  lemma SameCounts(m: Mem, r: Mem)
    requires CountsAhead(m) && DirtyResident(m) && FramesWhole(m) && r == m.(pages := r.pages)
    requires forall g :: Resident(r, g) == Resident(m, g)
    requires r.pages.Keys == m.pages.Keys
    requires forall id :: id in m.pages ==>
      r.pages[id].presencia == m.pages[id].presencia && r.pages[id].modificado == m.pages[id].modificado
    ensures CountsAhead(r) && DirtyResident(r) && FramesWhole(r) && KeepsSlack(m, r)
  {
    hide Resident;
  }

  lemma ReplaceSound(m: Mem, incoming: FileTag)
    requires Sound(m) && AllBusy(m)
    ensures var (r, f) := Replace(m, incoming);
      && Sound(r) && KeepsSlack(m, r)
      && (forall g :: g in r.tables ==> g in m.tables)
      && (incoming in m.tables ==> incoming in r.tables && r.tables[incoming].size == m.tables[incoming].size)
  {
    if m.policy == LRU {
      hide Evict, CountsAhead, DirtyResident, KeepsSlack;
      EvictSound(m, Oldest(Times(m), 1, 0), incoming);
    } else {
      hide Sound, KeepsSlack, Replace;
      ReplaceClockSound(m, incoming);
    }
  }

  lemma ReplaceClockSound(m: Mem, incoming: FileTag)
    requires Sound(m) && AllBusy(m) && m.policy == ClockMod
    ensures var (r, f) := Replace(m, incoming);
      && Sound(r) && KeepsSlack(m, r)
      && (forall g :: g in r.tables ==> g in m.tables)
      && (incoming in m.tables ==> incoming in r.tables && r.tables[incoming].size == m.tables[incoming].size)
  {
    ClockMChoice(Marks(m), m.hand);
    var scan := ClockM(Marks(m), m.hand);
    hide ClockM;
    SetUseSound(m, scan.marks);
    var m1 := SetUse(m, scan.marks);
    assert m1.bits[scan.victim];
    EvictSound(m1, scan.victim, incoming);
    EvictShape(m1, scan.victim, incoming);
    var m2 := Evict(m1, scan.victim, incoming);
    var hand := At(|m.marcos|, scan.victim, 1);
    MoveHand(m2, hand);
    assert Replace(m, incoming).0 == m2.(hand := hand);
    hide Evict, SetUse, Marks, At, CountsAhead, DirtyResident, Linked, Replace;
    SlackChain(m, m1, m2);
    SlackChain(m, m2, m2.(hand := hand));
  }

  lemma ReplaceShape(m: Mem, incoming: FileTag)
    requires Linked(m) && AllBusy(m)
    ensures var (r, f) := Replace(m, incoming);
      && f < |m.bits| && r.bits == m.bits[f := false] && r.marcos == m.marcos
      && r.policy == m.policy && r.tam == m.tam && r.clock == m.clock && r.hand < |m.marcos|
  {
    if m.policy == LRU {
      EvictShape(m, Oldest(Times(m), 1, 0), incoming);
    } else {
      ClockMChoice(Marks(m), m.hand);
      var scan := ClockM(Marks(m), m.hand);
      hide ClockM;
      var m1 := SetUse(m, scan.marks);
      assert m1.bits[scan.victim];
      EvictShape(m1, scan.victim, incoming);
      hide Evict, SetUse;
    }
  }

  lemma MoveHand(m: Mem, hand: nat)
    requires Sound(m) && hand < |m.marcos|
    ensures Sound(m.(hand := hand)) && KeepsSlack(m, m.(hand := hand))
    ensures forall g :: Resident(m.(hand := hand), g) == Resident(m, g)
  {
    var r := m.(hand := hand);
    SamePlacementLinked(m, r);
    assert forall g :: Resident(r, g) == Resident(m, g);
  }
}
