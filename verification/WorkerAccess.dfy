/** Page faults and accesses to one page, on values. */
module WorkerAccess {
  import opened StorageModel
  import opened StorageSpec
  import opened PageReplacement
  import opened WorkerModel
  import opened WorkerFrames
  import opened FlatFile

  // ---------------------------------------------------------------- page faults

  /** marco_libre */
  function FirstFree(bits: seq<bool>, i: nat): (r: Option<nat>)
    ensures r.Some? ==> i <= r.value < |bits| && !bits[r.value]
    ensures r.None? ==> forall j :: i <= j < |bits| ==> bits[j]
    decreases |bits| - i
  {
    if i >= |bits| then None
    else if !bits[i] then Some(i)
    else FirstFree(bits, i + 1)
  }

  /** Storage answers a page request with BLOCK_SIZE bytes. */
  function OnePage(tam: nat, data: Block): (r: Block)
    ensures |r| == tam
  {
    if |data| == tam then data else ZeroBlock(tam)
  }

  /** The page takes frame `f`, with the content Storage sent. */
  function Fill(m: Mem, id: PageId, f: nat, data: Block): Mem
    requires f < |m.bits| && f < |m.marcos| && id in m.pages && id.ft in m.tables
  {
    var t := m.tables[id.ft];
    m.(bits := m.bits[f := true],
       pages := m.pages[id := m.pages[id].(marco := f, presencia := true)],
       marcos := m.marcos[f := m.marcos[f].(data := OnePage(m.tam, data), page := id)],
       tables := m.tables[id.ft := Tabla(t.cantidad + 1, t.size)])
  }

  lemma FillSound(m: Mem, id: PageId, f: nat, data: Block)
    requires Sound(m) && HasPage(m, id) && id in m.pages && !m.pages[id].presencia
    requires f < |m.bits| && !m.bits[f]
    ensures f < |m.marcos| && Sound(Fill(m, id, f, data)) && KeepsSlack(m, Fill(m, id, f, data))
    ensures forall g :: g != id.ft ==> Resident(Fill(m, id, f, data), g) == Resident(m, g)
  {
    assert f < |m.marcos| && id.ft in m.tables;
    FillLinked(m, id, f, data);
    FillResident(m, id, f, data);
    hide Linked, Resident, DirtyResident, CountsAhead, KeepsSlack;
    assert FramesWhole(Fill(m, id, f, data));
    hide Fill;
    FillCounts(m, Fill(m, id, f, data), id);
  }

  lemma FillResident(m: Mem, id: PageId, f: nat, data: Block)
    requires DirtyResident(m) && id in m.pages && !m.pages[id].presencia
    requires f < |m.bits| && f < |m.marcos| && id.ft in m.tables
    ensures var r := Fill(m, id, f, data);
      && DirtyResident(r)
      && r.tables == m.tables[id.ft := Tabla(m.tables[id.ft].cantidad + 1, m.tables[id.ft].size)]
      && Resident(r, id.ft) == Resident(m, id.ft) + {id} && id !in Resident(m, id.ft)
      && forall g :: g != id.ft ==> Resident(r, g) == Resident(m, g)
  {
    ResidentElsewhere(m, Fill(m, id, f, data), id.ft);
  }

  lemma FillCounts(m: Mem, r: Mem, id: PageId)
    requires CountsAhead(m) && id.ft in m.tables && id !in Resident(m, id.ft)
    requires r.tables == m.tables[id.ft := Tabla(m.tables[id.ft].cantidad + 1, m.tables[id.ft].size)]
    requires Resident(r, id.ft) == Resident(m, id.ft) + {id}
    requires forall g :: g != id.ft ==> Resident(r, g) == Resident(m, g)
    ensures CountsAhead(r) && KeepsSlack(m, r)
  {
    hide Resident;
    forall g | g in r.tables
      ensures Slack(r, g) == Slack(m, g)
    {
    }
  }

  lemma FillLinked(m: Mem, id: PageId, f: nat, data: Block)
    requires Linked(m) && HasPage(m, id) && id in m.pages && !m.pages[id].presencia
    requires f < |m.bits| && !m.bits[f]
    ensures Linked(Fill(m, id, f, data))
  {
    var r := Fill(m, id, f, data);
    assert forall x :: HasPage(r, x) <==> HasPage(m, x);
    forall x | x in r.pages && r.pages[x].presencia
      ensures InFrame(r, x)
    {
      if x != id { assert InFrame(m, x); }
    }
    forall g: nat | g < |r.bits| && r.bits[g]
      ensures HoldsPage(r, g)
    {
      if g != f { assert HoldsPage(m, g); }
    }
  }

  /** The free frame a fault uses: the first, or the one replacement frees. */
  function FreeFrame(m: Mem, incoming: FileTag): (r: (Mem, nat))
    requires Sound(m) && incoming in m.tables
    ensures Sound(r.0) && KeepsSlack(m, r.0) && r.1 < |r.0.bits| && !r.0.bits[r.1]
    ensures incoming in r.0.tables && r.0.tables[incoming].size == m.tables[incoming].size
    ensures r.0.tam == m.tam && r.0.policy == m.policy
  {
    match FirstFree(m.bits, 0)
    case Some(f) => (m, f)
    case None =>
      ReplaceSound(m, incoming);
      ReplaceShape(m, incoming);
      Replace(m, incoming)
  }

  /** Replacement cannot make a page of the incoming file resident. */
  lemma StillAbsent(m: Mem, id: PageId)
    requires Sound(m) && HasPage(m, id) && id in m.pages && !m.pages[id].presencia
    ensures var r := FreeFrame(m, id.ft).0; HasPage(r, id) && id in r.pages && !r.pages[id].presencia
  {
    var r := FreeFrame(m, id.ft).0;
    assert HasPage(r, id);
    if FirstFree(m.bits, 0).None? { ReplaceAbsent(m, id); }
  }

  lemma ReplaceAbsent(m: Mem, id: PageId)
    requires Sound(m) && AllBusy(m) && id in m.pages && !m.pages[id].presencia
    ensures var r := Replace(m, id.ft).0; id in r.pages ==> !r.pages[id].presencia
  {
    if m.policy == LRU {
      SoundLinked(m);
      hide Sound, Linked, Evict;
      EvictAbsent(m, Oldest(Times(m), 1, 0), id);
    } else {
      hide Sound, Linked, Replace;
      ClockAbsent(m, id);
    }
  }

  lemma ClockAbsent(m: Mem, id: PageId)
    requires Sound(m) && AllBusy(m) && m.policy == ClockMod && id in m.pages && !m.pages[id].presencia
    ensures var r := Replace(m, id.ft).0; id in r.pages ==> !r.pages[id].presencia
  {
    SoundLinked(m);
    hide Sound, ClockM, SetUse, Evict, Marks, KeepsSlack, Resident;
    ClockMChoice(Marks(m), m.hand);
    var scan := ClockM(Marks(m), m.hand);
    SetUseSound(m, scan.marks);
    var m1 := SetUse(m, scan.marks);
    assert m1.bits[scan.victim];
    assert id in m1.pages && !m1.pages[id].presencia;
    EvictAbsent(m1, scan.victim, id);
  }

  lemma EvictAbsent(m: Mem, f: nat, id: PageId)
    requires Sound(m) && f < |m.bits| && m.bits[f] && id in m.pages && !m.pages[id].presencia
    ensures var r := Evict(m, f, id.ft); id in r.pages ==> !r.pages[id].presencia
  {
    assert HoldsPage(m, f);
  }

  /** solicitar_pagina */
  function Solicitar(m: Mem, id: PageId): (r: Outcome)
    requires Sound(m) && HasPage(m, id) && id in m.pages && !m.pages[id].presencia
    ensures !r.Null?
    ensures r.Ready? ==> Sound(r.m) && KeepsSlack(m, r.m) && r.m.tam == m.tam
    ensures r.Ready? ==> id in r.m.pages && r.m.pages[id].presencia
  {
    var reply := MapStep(m.tam, m.srv, Read(id.ft, id.nro)).1;
    if !reply.Contenido? then Exit
    else Ready(BringIn(m, id, reply.data))
  }

  /** A frame is found and the page put into it. */
  function BringIn(m: Mem, id: PageId, data: Block): (r: Mem)
    requires Sound(m) && HasPage(m, id) && id in m.pages && !m.pages[id].presencia
    ensures Sound(r) && KeepsSlack(m, r) && r.tam == m.tam
    ensures id in r.pages && r.pages[id].presencia
  {
    StillAbsent(m, id);
    var (m1, f) := FreeFrame(m, id.ft);
    FillSound(m1, id, f, data);
    var r := Fill(m1, id, f, data);
    FaultSlack(m, m1, r, id.ft);
    hide Linked, FreeFrame, CountsAhead, DirtyResident, KeepsSlack, HasPage;
    r
  }

  lemma FaultSlack(a: Mem, b: Mem, c: Mem, ft: FileTag)
    requires KeepsSlack(a, b) && KeepsSlack(b, c) && ft in a.tables && ft in b.tables
    requires c.tables.Keys == b.tables.Keys
    requires forall g :: g != ft ==> Resident(c, g) == Resident(b, g)
    ensures KeepsSlack(a, c)
  {
    hide Resident;
  }

  /** pagina_en_Tabla: the table is refreshed only when the number exceeds its length, and a
      number equal to the length gets past both tests. */
  function PaginaEnTabla(m: Mem, id: PageId): (r: Outcome)
    requires Sound(m)
    ensures !r.Exit? ==> Sound(r.m) && r.m.tam == m.tam
    ensures r.Ready? ==> id in r.m.pages && r.m.pages[id].presencia
  {
    var r := LoadTable(m, id.ft);
    if r.Exit? then Exit
    else
      LoadTableSound(m, id.ft);
      if id.nro <= r.m.tables[id.ft].size then PageAt(r.m, id)
      else
        var r2 := RefreshTable(r.m, id.ft);
        if r2.Exit? then Exit
        else
          RefreshTableSound(r.m, id.ft);
          if id.nro > r2.m.tables[id.ft].size then Null(r2.m) else PageAt(r2.m, id)
  }

  function PageAt(m: Mem, id: PageId): (r: Outcome)
    requires Sound(m) && id.ft in m.tables
    ensures !r.Null?
    ensures r.Ready? ==> Sound(r.m) && r.m.tam == m.tam && id in r.m.pages && r.m.pages[id].presencia
  {
    if id.nro >= m.tables[id.ft].size then Exit
    else
      assert HasPage(m, id);
      if m.pages[id].presencia then Ready(m) else Solicitar(m, id)
  }

  // ---------------------------------------------------------------- copies

  /** interaccion_con_memoria notes the time under LRU; the clock advances at each access. */
  function Touch(m: Mem, f: nat): Mem
    requires f < |m.marcos|
  {
    if m.policy == LRU then
      m.(clock := m.clock + 1, marcos := m.marcos[f := m.marcos[f].(time := m.clock + 1)])
    else m
  }

  function FrameOf(m: Mem, id: PageId): (f: nat)
    requires Linked(m) && Present(m, id)
    ensures f < |m.marcos| && f < |m.bits| && m.bits[f] && m.marcos[f].page == id && m.pages[id].marco == f
  {
    assert InFrame(m, id);
    m.pages[id].marco
  }

  lemma FrameWhole(m: Mem, id: PageId)
    requires Sound(m) && Present(m, id)
    ensures |m.marcos[FrameOf(m, id)].data| == m.tam
  {
  }

  /** One memcpy into a resident page. */
  function WriteChunk(m: Mem, id: PageId, off: nat, text: string): (r: Mem)
    requires Sound(m) && Present(m, id)
    requires off + |text| <= m.tam
    ensures Sound(r) && KeepsSlack(m, r) && r.tam == m.tam && r.srv == m.srv
  {
    FrameWhole(m, id);
    WriteChunkSound(m, id, off, text);
    hide Sound, KeepsSlack, Splice, Touch, FrameOf;
    var f := FrameOf(m, id);
    var frame := m.marcos[f];
    Touch(m.(marcos := m.marcos[f := frame.(data := Splice(frame.data, off, text))],
             pages := m.pages[id := m.pages[id].(modificado := true, uso := true)]), f)
  }

  lemma WriteChunkSound(m: Mem, id: PageId, off: nat, text: string)
    requires Sound(m) && Present(m, id) && off + |text| <= m.tam
    ensures |m.marcos[FrameOf(m, id)].data| == m.tam
    ensures var f := FrameOf(m, id);
      var r := Touch(m.(marcos := m.marcos[f := m.marcos[f].(data := Splice(m.marcos[f].data, off, text))],
                        pages := m.pages[id := m.pages[id].(modificado := true, uso := true)]), f);
      Sound(r) && KeepsSlack(m, r) && r.tam == m.tam && r.srv == m.srv
  {
    hide Sound, KeepsSlack, Splice, FrameOf;
    SoundLinked(m);
    FrameWhole(m, id);
    var f := FrameOf(m, id);
    var m1 := m.(marcos := m.marcos[f := m.marcos[f].(data := Splice(m.marcos[f].data, off, text))],
                 pages := m.pages[id := m.pages[id].(modificado := true, uso := true)]);
    PageEditSound(m, Touch(m1, f), id, f);
  }

  function ReadChunk(m: Mem, id: PageId): (r: Mem)
    requires Sound(m) && Present(m, id)
    ensures Sound(r) && KeepsSlack(m, r) && r.tam == m.tam && r.srv == m.srv
  {
    ReadChunkSound(m, id);
    hide Sound, KeepsSlack, Touch, FrameOf;
    Touch(m.(pages := m.pages[id := m.pages[id].(uso := true)]), FrameOf(m, id))
  }

  lemma ReadChunkSound(m: Mem, id: PageId)
    requires Sound(m) && Present(m, id)
    ensures var r := Touch(m.(pages := m.pages[id := m.pages[id].(uso := true)]), FrameOf(m, id));
      Sound(r) && KeepsSlack(m, r) && r.tam == m.tam && r.srv == m.srv
  {
    hide Sound, KeepsSlack, FrameOf;
    SoundLinked(m);
    FrameWhole(m, id);
    PageEditSound(m, Touch(m.(pages := m.pages[id := m.pages[id].(uso := true)]), FrameOf(m, id)), id, FrameOf(m, id));
  }

  lemma SameSlack(m: Mem, r: Mem)
    requires CountsAhead(m) && r.tables == m.tables && forall g :: Resident(r, g) == Resident(m, g)
    ensures CountsAhead(r) && KeepsSlack(m, r)
  {
    hide Resident;
  }

  /** A change of one resident page's marks and bytes. */
  lemma PageEditSound(m: Mem, r: Mem, id: PageId, f: nat)
    requires Sound(m) && Present(m, id) && f < |m.marcos| && r.tables == m.tables
    requires id in r.pages && r.pages == m.pages[id := r.pages[id]]
    requires r.pages[id].presencia && r.pages[id].marco == m.pages[id].marco
    requires f < |r.marcos| && r.marcos == m.marcos[f := r.marcos[f]] && r.marcos[f].page == m.marcos[f].page
    requires r.bits == m.bits && r.hand == m.hand && r.tam == m.tam && |r.marcos[f].data| == m.tam
    ensures Sound(r) && KeepsSlack(m, r)
  {
    hide CountsAhead;
    assert SamePlacement(m, r);
    SamePlacementLinked(m, r);
    hide Linked;
    assert DirtyResident(r);
    assert forall g :: Resident(r, g) == Resident(m, g);
    hide SamePlacement, Resident, DirtyResident;
    SameSlack(m, r);
  }
}
