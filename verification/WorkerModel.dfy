/** The Worker's paged memory as a value.  Page nodes are keyed by File:Tag and page number,
    which is how a frame names the page it holds; Storage is the map of files it is proved to
    behave as (`StorageRefinement`), called directly.

    Functions return `Exit` where the C code calls exit or follows a NULL page. */
module WorkerModel {
  import opened StorageModel
  import opened StorageSpec
  import opened PageReplacement

  datatype PageId = PageId(ft: FileTag, nro: nat)

  /** nodo_pagina */
  datatype Pagina = Pagina(marco: int, modificado: bool, uso: bool, presencia: bool)

  /** file_tag: its counter and the length of its page table. */
  datatype Tabla = Tabla(cantidad: int, size: nat)

  /** nodo_marco, with the bytes it points at. */
  datatype Marco = Marco(data: Block, page: PageId, time: int)

  datatype Policy = LRU | ClockMod

  datatype Mem = Mem(
    policy: Policy,
    tam: nat,                     // page size, which is Storage's block size
    marcos: seq<Marco>,
    bits: seq<bool>,
    tables: map<FileTag, Tabla>,
    pages: map<PageId, Pagina>,
    hand: nat,                    // victima_clock
    clock: int,                   // temporal_gettime
    srv: FileMap,
    reported: bool)               // ERROR_AT_EXEC was sent and the Master not yet consulted

  datatype Outcome = Ready(m: Mem) | Null(m: Mem) | Exit

  // ---------------------------------------------------------------- well-formed memories

  ghost predicate HasPage(m: Mem, id: PageId) {
    id.ft in m.tables && id.nro < m.tables[id.ft].size
  }

  /** A set bit and a present page name each other. */
  ghost predicate Linked(m: Mem) {
    && 0 < |m.marcos| == |m.bits| && m.hand < |m.marcos| && 0 < m.tam
    && (forall id :: id in m.pages <==> HasPage(m, id))
    && (forall id :: id in m.pages && m.pages[id].presencia ==> InFrame(m, id))
    && (forall f: nat :: f < |m.bits| && m.bits[f] ==> HoldsPage(m, f))
  }

  ghost predicate InFrame(m: Mem, id: PageId)
    requires id in m.pages
  {
    var f := m.pages[id].marco;
    0 <= f < |m.bits| && f < |m.marcos| && m.bits[f] && m.marcos[f].page == id
  }

  ghost predicate HoldsPage(m: Mem, f: nat) {
    f < |m.marcos| && var id := m.marcos[f].page;
      id in m.pages && m.pages[id].presencia && m.pages[id].marco == f
  }

  /** The pairing depends on where pages are, not on their marks or bytes. */
  ghost predicate SamePlacement(m: Mem, r: Mem) {
    && |r.marcos| == |m.marcos| && r.bits == m.bits && r.hand < |r.marcos| && r.tam == m.tam
    && (forall f: nat :: f < |m.marcos| ==> r.marcos[f].page == m.marcos[f].page)
    && r.tables.Keys == m.tables.Keys
    && (forall ft :: ft in m.tables ==> r.tables[ft].size == m.tables[ft].size)
    && r.pages.Keys == m.pages.Keys
    && (forall id :: id in m.pages ==>
          r.pages[id].presencia == m.pages[id].presencia && r.pages[id].marco == m.pages[id].marco)
  }

  lemma SamePlacementLinked(m: Mem, r: Mem)
    requires Linked(m) && SamePlacement(m, r)
    ensures Linked(r)
  {
    forall id
      ensures id in r.pages <==> HasPage(r, id)
    {
      assert id in m.pages <==> HasPage(m, id);
    }
    forall id | id in r.pages && r.pages[id].presencia
      ensures InFrame(r, id)
    {
      assert InFrame(m, id);
    }
    forall f: nat | f < |r.bits| && r.bits[f]
      ensures HoldsPage(r, f)
    {
      assert HoldsPage(m, f);
    }
  }

  // ---------------------------------------------------------------- tables

  /** ceil(size/tam) with both operands int is the quotient, rounded down. */
  function PagesOf(m: Mem, ft: FileTag): nat
    requires ft in m.srv && 0 < m.tam
  {
    NeededBlocks(m.tam, m.srv[ft].tamanio)
  }

  function NewPages(ft: FileTag, from: nat, to: nat): (r: map<PageId, Pagina>)
    ensures forall id :: id in r <==> id.ft == ft && from <= id.nro < to
    ensures forall id :: id in r ==> r[id] == Pagina(-1, false, false, false)
  {
    map k: nat | from <= k < to :: PageId(ft, k) := Pagina(-1, false, false, false)
  }

  /** file_tag_en_memoria */
  function LoadTable(m: Mem, ft: FileTag): (r: Outcome)
    requires Linked(m)
    ensures r.Ready? ==> Linked(r.m) && ft in r.m.tables && r.m.tam == m.tam
    ensures !r.Null?
  {
    if ft in m.tables then Ready(m)
    else if ft !in m.srv then Exit
    else
      var n := PagesOf(m, ft);
      Ready(m.(tables := m.tables[ft := Tabla(n, n)], pages := m.pages + NewPages(ft, 0, n)))
  }

  /** The last page of a table goes; a resident dirty one ends the process. */
  function DropLast(m: Mem, ft: FileTag): (r: Outcome)
    requires Linked(m) && ft in m.tables && 0 < m.tables[ft].size
    ensures r.Ready? ==> Linked(r.m) && ft in r.m.tables && r.m.tables[ft].size == m.tables[ft].size - 1
    ensures r.Ready? ==> r.m.tam == m.tam && r.m.srv == m.srv
    ensures !r.Null?
  {
    var t := m.tables[ft];
    var id := PageId(ft, t.size - 1);
    assert HasPage(m, id);
    var p := m.pages[id];
    if p.presencia && p.modificado then Exit
    else if p.presencia then
      assert InFrame(m, id);
      Ready(m.(bits := m.bits[p.marco := false], tables := m.tables[ft := Tabla(t.cantidad - 1, t.size - 1)],
               pages := m.pages - {id}))
    else
      Ready(m.(tables := m.tables[ft := Tabla(t.cantidad, t.size - 1)], pages := m.pages - {id}))
  }

  function DropTo(m: Mem, ft: FileTag, size: nat): (r: Outcome)
    requires Linked(m) && ft in m.tables
    ensures r.Ready? ==> Linked(r.m) && ft in r.m.tables && r.m.tam == m.tam && r.m.srv == m.srv
    ensures !r.Null?
    decreases m.tables[ft].size
  {
    if m.tables[ft].size <= size then Ready(m)
    else
      var r := DropLast(m, ft);
      if r.Exit? then Exit else DropTo(r.m, ft, size)
  }

  /** actualizar_tabla */
  function RefreshTable(m: Mem, ft: FileTag): (r: Outcome)
    requires Linked(m) && ft in m.tables
    ensures r.Ready? ==> Linked(r.m) && ft in r.m.tables && r.m.tam == m.tam
    ensures !r.Null?
  {
    if ft !in m.srv then Exit
    else
      var n := PagesOf(m, ft);
      var t := m.tables[ft];
      if n > t.size then
        Ready(m.(tables := m.tables[ft := Tabla(t.cantidad, n)], pages := m.pages + NewPages(ft, t.size, n)))
      else DropTo(m, ft, n)
  }

  // ---------------------------------------------------------------- replacement

  /** notificar_cambios: a MODIFICACIONES_STORAGE request.  The instruction goes on after a refused
      write, which is reported to the Master. */
  function WriteBack(m: Mem, f: nat): Mem
    requires f < |m.marcos| && 0 < m.tam
  {
    var frame := m.marcos[f];
    var (srv, reply) := MapStep(m.tam, m.srv, Write(frame.page.ft, frame.page.nro, frame.data));
    m.(srv := srv, reported := m.reported || reply != OpExitosa)
  }

  /** check_file_tag: the victim's file loses a page, and its table when the counter reaches 0. */
  function CheckFileTag(m: Mem, ft: FileTag, incoming: FileTag): Mem
    requires ft in m.tables
  {
    var t := m.tables[ft];
    if t.cantidad - 1 == 0 && ft != incoming then
      m.(tables := m.tables - {ft}, pages := map id | id in m.pages && id.ft != ft :: m.pages[id])
    else m.(tables := m.tables[ft := Tabla(t.cantidad - 1, t.size)])
  }

  /** actualizar_pagina: the victim leaves its frame (CLOCK-M also clears its use bit). */
  function Unload(m: Mem, f: nat): Mem
    requires f < |m.bits| && HoldsPage(m, f)
  {
    var id := m.marcos[f].page;
    var p := m.pages[id].(presencia := false, modificado := false);
    m.(bits := m.bits[f := false],
       pages := m.pages[id := if m.policy == ClockMod then p.(uso := false) else p])
  }

  function Evict(m: Mem, f: nat, incoming: FileTag): Mem
    requires Linked(m) && f < |m.bits| && m.bits[f]
  {
    assert HoldsPage(m, f);
    var id := m.marcos[f].page;
    assert HasPage(m, id);
    var m1 := if m.pages[id].modificado then WriteBack(m, f) else m;
    CheckFileTag(Unload(m1, f), id.ft, incoming)
  }

  ghost predicate AllBusy(m: Mem) {
    forall f: nat :: f < |m.bits| ==> m.bits[f]
  }

  function Times(m: Mem): (r: seq<int>)
    ensures |r| == |m.marcos| && forall f :: 0 <= f < |r| ==> r[f] == m.marcos[f].time
  {
    seq(|m.marcos|, f requires 0 <= f < |m.marcos| => m.marcos[f].time)
  }

  /** The marks of the page a frame points at. */
  function MarkAt(m: Mem, f: nat): Mark
    requires f < |m.marcos|
  {
    var id := m.marcos[f].page;
    if id in m.pages then Mark(m.pages[id].uso, m.pages[id].modificado) else Mark(false, false)
  }

  function Marks(m: Mem): (r: seq<Mark>)
    ensures |r| == |m.marcos| && forall f :: 0 <= f < |r| ==> r[f] == MarkAt(m, f)
  {
    seq(|m.marcos|, f requires 0 <= f < |m.marcos| => MarkAt(m, f))
  }

  /** The use bits of the resident pages, written back from the scan. */
  function SetUse(m: Mem, marks: seq<Mark>): (r: Mem)
    requires Linked(m) && |marks| == |m.marcos|
    ensures Linked(r)
  {
    var r := m.(pages := map id | id in m.pages ::
      var p := m.pages[id];
      if p.presencia && 0 <= p.marco < |marks| then p.(uso := marks[p.marco].uso) else p);
    SamePlacementLinked(m, r);
    r
  }

  /** algoritmo_reemplazo: the frame it frees, with every frame taken. */
  function Replace(m: Mem, incoming: FileTag): (r: (Mem, nat))
    requires Linked(m) && AllBusy(m)
    ensures r.1 < |m.bits|
  {
    match m.policy
    case LRU =>
      var f := Oldest(Times(m), 1, 0);
      (Evict(m, f, incoming), f)
    case ClockMod =>
      ClockMChoice(Marks(m), m.hand);
      var scan := ClockM(Marks(m), m.hand);
      var m1 := SetUse(m, scan.marks);
      assert m1.bits[scan.victim];
      (Evict(m1, scan.victim, incoming).(hand := At(|m.marcos|, scan.victim, 1)), scan.victim)
  }
}
