/** The Worker in the form of its C code: frames and bitmap updated in place, victim searches,
    copy loops and the instruction loop.  Every method is proved to do to the memory what its
    function in the Worker modules says, where transparency and the rest are proved. */
module WorkerService {
  import opened StorageModel
  import opened StorageSpec
  import opened FlatFile
  import opened PageReplacement
  import opened WorkerModel
  import opened WorkerFrames
  import opened WorkerAccess
  import opened WorkerCopies
  import opened WorkerReference
  import opened WorkerInstructions
  import opened WorkerFlush
  import opened WorkerQueries
  import opened WorkerSearch

  /** What pagina_en_Tabla comes back with; `Lost` when the process exits or a NULL page is followed. */
  datatype Found = Here | Missing | Lost

  /** The page a found page's method result stands for. */
  ghost predicate Matches(found: Found, after: Mem, r: Outcome) {
    match found
    case Here => r == Ready(after)
    case Missing => r == Null(after)
    case Lost => r == Exit
  }

  class Worker {
    const policy: Policy
    const tam: nat
    const marcos: array<Marco>
    const bits: array<bool>
    var tables: map<FileTag, Tabla>
    var pages: map<PageId, Pagina>
    var hand: nat
    var clock: int
    var srv: FileMap
    var reported: bool

    ghost function Snapshot(): Mem
      reads this, marcos, bits
    {
      Mem(policy, tam, marcos[..], bits[..], tables, pages, hand, clock, srv, reported)
    }

    ghost predicate Valid()
      reads this, marcos, bits
    {
      0 < tam && marcos.Length == bits.Length && Sound(Snapshot())
    }

    /** init_memoria */
    constructor InitMemoria(policy: Policy, tam: nat, memoria: nat, srv: FileMap)
      requires 0 < tam <= memoria
      ensures this.policy == policy && this.tam == tam && this.srv == srv && !reported && Valid()
      ensures marcos.Length == memoria / tam && (forall f :: 0 <= f < bits.Length ==> !bits[f])
      ensures tables == map[] && pages == map[] && fresh(marcos) && fresh(bits)
    {
      var n := memoria / tam;
      var frames := new Marco[n](_ => Marco(ZeroBlock(tam), PageId(FileTag("", ""), 0), 0));
      var free := new bool[n](_ => true);
      for i := 0 to n
        invariant forall f :: 0 <= f < i ==> !free[f]
        invariant forall f :: 0 <= f < n ==> frames[f].data == ZeroBlock(tam)
      {
        free[i] := false;
      }
      this.policy, this.tam, marcos, bits := policy, tam, frames, free;
      tables, pages, hand, clock, this.srv, reported := map[], map[], 0, 0, srv, false;
      new;
      FramesFit(memoria, tam);
      ghost var m := Snapshot();
      assert |m.bits| == |m.marcos| == n && forall f: nat :: f < |m.bits| ==> !m.bits[f];
      EmptyLinked(m);
    }

    // -------------------------------------------------------------- frames

    /** First free frame, or -1. */
    method MarcoLibre() returns (f: int)
      requires marcos.Length == bits.Length
      ensures match FirstFree(bits[..], 0)
        case None => f == -1
        case Some(g) => f == g
    {
      f := -1;
      var i := 0;
      while i < marcos.Length
        invariant 0 <= i <= marcos.Length
        invariant FirstFree(bits[..], i) == FirstFree(bits[..], 0)
      {
        if !bits[i] { return i; }
        i := i + 1;
      }
    }

    /** A modified page goes to Storage; the Master hears of it if Storage refuses. */
    method NotificarCambios(f: nat)
      requires f < marcos.Length && 0 < tam
      modifies this`srv, this`reported
      ensures Snapshot() == WriteBack(old(Snapshot()), f)
    {
      var frame := marcos[f];
      var (after, reply) := MapStep(tam, srv, Write(frame.page.ft, frame.page.nro, frame.data));
      srv := after;
      if reply != OpExitosa { reported := true; }
    }

    method CheckFileTag(actual: FileTag, nuevo: FileTag)
      requires actual in tables
      modifies this`tables, this`pages
      ensures Snapshot() == WorkerModel.CheckFileTag(old(Snapshot()), actual, nuevo)
    {
      var t := tables[actual];
      tables := tables[actual := Tabla(t.cantidad - 1, t.size)];
      if tables[actual].cantidad == 0 && actual != nuevo {
        tables := tables - {actual};
        pages := map id | id in pages && id.ft != actual :: pages[id];
      }
    }

    method ActualizarPagina(f: nat)
      requires f < bits.Length && HoldsPage(Snapshot(), f)
      modifies this`pages, bits
      ensures Snapshot() == Unload(old(Snapshot()), f)
    {
      var id := marcos[f].page;
      var p := pages[id];
      bits[p.marco] := false;
      pages := pages[id := p.(presencia := false, modificado := false)];
      if policy == ClockMod {
        pages := pages[id := pages[id].(uso := false)];
      }
      assert bits[..] == old(bits[..])[f := false];
    }

    /** The victim's page is written back if modified, unloaded, and its table checked. */
    method Desalojar(f: nat, nuevo: FileTag)
      requires Linked(Snapshot()) && f < bits.Length && bits[f]
      modifies this`srv, this`reported, this`tables, this`pages, bits
      ensures Snapshot() == Evict(old(Snapshot()), f, nuevo)
    {
      assert HoldsPage(Snapshot(), f);
      var id := marcos[f].page;
      assert HasPage(Snapshot(), id);
      if pages[id].modificado { NotificarCambios(f); }
      hide Linked;
      assert HoldsPage(Snapshot(), f);
      ActualizarPagina(f);
      CheckFileTag(id.ft, nuevo);
    }

    /** The frame unused for longest. */
    method AlgoritmoLRU(nuevo: FileTag) returns (f: nat)
      requires Linked(Snapshot()) && AllBusy(Snapshot()) && policy == LRU
      modifies this`srv, this`reported, this`tables, this`pages, bits
      ensures (Snapshot(), f) == Replace(old(Snapshot()), nuevo)
    {
      f := 0;
      var i := 1;
      while i < marcos.Length
        invariant f < i <= marcos.Length
        invariant forall j :: 0 <= j < i ==> marcos[f].time <= marcos[j].time
        invariant forall j :: 0 <= j < f ==> marcos[f].time < marcos[j].time
        invariant Oldest(Times(Snapshot()), i, f) == Oldest(Times(Snapshot()), 1, 0)
      {
        if marcos[i].time < marcos[f].time { f := i; }
        i := i + 1;
      }
      Desalojar(f, nuevo);
    }

    /** mover_puntero_clock */
    method MoverPunteroClock(f: nat)
      requires f <= marcos.Length
      modifies this`hand
      ensures hand == if f == marcos.Length then 0 else f
    {
      if f == marcos.Length { hand := 0; } else { hand := f; }
    }

    /** First loop of the search: an unused, unmodified page, from the hand on. */
    method BuscarLimpia() returns (find: bool, ghost seen: nat)
      requires Linked(Snapshot()) && AllBusy(Snapshot())
      modifies this`hand
      ensures var (marks, k) := (Marks(old(Snapshot())), CleanPass(Marks(old(Snapshot())), old(hand), 0));
        find == (k < |marks|) && hand == At(|marks|, old(hand), k) && seen == if find then k + 1 else k
    {
      ghost var marks := Marks(Snapshot());
      find := false;
      var i := 0;
      seen := 0;
      while i < marcos.Length
        invariant 0 <= i <= marcos.Length && seen == i && hand == At(|marks|, old(hand), i)
        invariant CleanPass(marks, old(hand), i) == CleanPass(marks, old(hand), 0)
      {
        assert HoldsPage(old(Snapshot()), hand);
        var page := pages[marcos[hand].page];
        if !page.uso && !page.modificado {
          find, seen := true, i + 1;
          break;
        }
        MoverPunteroClock(page.marco + 1);
        i, seen := i + 1, i + 1;
      }
    }

    /** Second loop: an unused, modified page; the use bits passed are cleared. */
    method BuscarSucia() returns (find: bool, ghost seen: nat)
      requires Linked(Snapshot()) && AllBusy(Snapshot())
      modifies this`hand, this`pages
      ensures var (marks, k) := (Marks(old(Snapshot())), DirtyPass(Marks(old(Snapshot())), old(hand), 0));
        && find == (k < |marks|) && hand == At(|marks|, old(hand), k) && seen == (if find then k + 1 else k)
        && pages == SetUse(old(Snapshot()), Cleared(marks, old(hand), k)).pages
    {
      hide SetUse, Linked, AllBusy, Cleared, Marks;
      ghost var m := Snapshot();
      ghost var marks := Marks(m);
      find := false;
      var i := 0;
      SetUseNothing(m);
      seen := 0;
      while i < marcos.Length
        invariant 0 <= i <= marcos.Length && seen == i && hand == At(|marks|, m.hand, i)
        invariant DirtyPass(marks, m.hand, i) == DirtyPass(marks, m.hand, 0)
        invariant pages == SetUse(m, Cleared(marks, m.hand, i)).pages
      {
        SetUseAt(m, i);
        var page := pages[marcos[hand].page];
        if !page.uso && page.modificado {
          find, seen := true, i + 1;
          break;
        }
        pages := pages[marcos[hand].page := page.(uso := false)];
        MoverPunteroClock(page.marco + 1);
        i, seen := i + 1, i + 1;
      }
    }

    /** One turn of both searches. */
    method Vuelta() returns (find: bool, ghost seen: nat)
      requires Linked(Snapshot()) && AllBusy(Snapshot())
      modifies this`pages, this`hand
      ensures Turn(old(Snapshot()), Snapshot(), find, seen)
    {
      hide Linked, AllBusy, SetUse, CleanPass, DirtyPass, Cleared, Marks;
      ghost var m := Snapshot();
      find, seen := BuscarLimpia();
      if !find {
        ghost var more;
        find, more := BuscarSucia();
        seen := seen + more;
      }
    }

    /** Both searches in turn until one finds a victim, which the second round does. */
    method BuscarVictima() returns (ghost inspections: nat)
      requires Linked(Snapshot()) && AllBusy(Snapshot())
      modifies this`pages, this`hand
      ensures var (m, scan) := (old(Snapshot()), ClockM(Marks(old(Snapshot())), old(hand)));
        && |scan.marks| == |m.marcos| && Snapshot() == SetUse(m, scan.marks).(hand := scan.victim)
        && inspections == scan.inspections <= 3 * marcos.Length + 1
    {
      hide Linked, AllBusy, SetUse, CleanPass, DirtyPass, Cleared, Marks, ClockM, Turn;
      ghost var m := Snapshot();
      FirstTurn(m);
      ghost var scan := ClockM(Marks(m), m.hand);
      ghost var round := 0;
      inspections := 0;
      var find := false;
      while !find
        invariant Snapshot() == m.(pages := pages, hand := hand)
        invariant find ==>
          hand == scan.victim && pages == SetUse(m, scan.marks).pages && inspections == scan.inspections
        invariant !find ==> round <= 1
        invariant !find && round == 0 ==> inspections == 0 && Snapshot() == m
        invariant !find && round == 1 ==>
          inspections == 2 * |m.marcos| && SecondRoundNeeded(m) && Snapshot() == Round1(m)
        decreases 2 - round
      {
        ghost var before := Snapshot();
        if round == 1 { SecondSearch(m); }
        ghost var seen;
        find, seen := Vuelta();
        inspections := inspections + seen;
        if round == 0 {
          AfterFirstTurn(m, Snapshot(), find, seen);
        } else {
          AfterSecondTurn(m, Snapshot(), find, seen);
        }
        round := round + 1;
      }
      SetUsePages(m, scan.marks);
    }

    /** CLOCK-M */
    method AlgoritmoClockM(nuevo: FileTag) returns (f: nat, ghost inspections: nat)
      requires Linked(Snapshot()) && AllBusy(Snapshot()) && policy == ClockMod
      modifies this`srv, this`reported, this`tables, this`pages, this`hand, bits
      ensures (Snapshot(), f) == Replace(old(Snapshot()), nuevo)
      ensures inspections == ClockM(Marks(old(Snapshot())), old(hand)).inspections <= 3 * marcos.Length + 1
    {
      hide Linked, AllBusy, SetUse, Marks, ClockM, Evict;
      ghost var m := Snapshot();
      VictimBusy(m);
      ghost var scan := ClockM(Marks(m), m.hand);
      EvictUnderHand(SetUse(m, scan.marks), scan.victim, scan.victim, nuevo);
      inspections := BuscarVictima();
      f := hand;
      Desalojar(f, nuevo);
      MoverPunteroClock(f + 1);
    }

    // -------------------------------------------------------------- page tables

    /** How many whole pages `size` bytes take. */
    method PaginasDe(size: int) returns (n: nat)
      requires 0 < tam
      ensures n == NeededBlocks(tam, size)
    {
      if size < tam { return 0; }
      CountsAreQuotients(size, tam);
      n := size / tam;
    }

    /** Absent pages `from..n` are appended to a table. */
    method AgregarPaginas(ft: FileTag, from: nat, n: nat)
      requires from <= n
      modifies this`pages
      ensures Snapshot() == old(Snapshot()).(pages := old(pages) + NewPages(ft, from, n))
    {
      hide NewPages;
      NewPagesNone(pages, ft, from);
      var i := from;
      while i < n
        invariant from <= i <= n && pages == old(pages) + NewPages(ft, from, i)
      {
        NewPagesNext(old(pages), ft, from, i);
        pages := pages[PageId(ft, i) := Pagina(-1, false, false, false)];
        i := i + 1;
      }
    }

    /** file_tag_en_memoria: the table is asked of Storage the first time. */
    method FileTagEnMemoria(ft: FileTag) returns (ok: bool)
      requires Valid()
      modifies this`tables, this`pages
      ensures var r := LoadTable(old(Snapshot()), ft);
        ok == r.Ready? && (ok ==> Snapshot() == r.m && Valid())
    {
      hide NeededBlocks, Linked, CountsAhead, DirtyResident, FramesWhole, NewPages;
      if ft in tables { return true; }
      if ft !in srv { return false; }
      LoadTableSound(Snapshot(), ft);
      var n := PaginasDe(srv[ft].tamanio);
      AgregarPaginas(ft, 0, n);
      tables := tables[ft := Tabla(n, n)];
      ok := true;
    }

    /** actualizar_tabla */
    method ActualizarTabla(ft: FileTag) returns (ok: bool)
      requires Valid() && ft in tables
      modifies this`tables, this`pages, bits
      ensures var r := RefreshTable(old(Snapshot()), ft);
        ok == r.Ready? && (ok ==> Snapshot() == r.m && Valid())
    {
      hide NeededBlocks, Sound, NewPages, DropTo;
      SoundLinked(Snapshot());
      if ft !in srv { return false; }
      ghost var m := Snapshot();
      var n := PaginasDe(srv[ft].tamanio);
      var t := tables[ft];
      if n > t.size {
        RefreshTableSound(m, ft);
        AgregarPaginas(ft, t.size, n);
        tables := tables[ft := Tabla(t.cantidad, n)];
        ok := true;
      } else {
        ok := RecortarTabla(ft, n);
      }
    }

    /** The loop that shortens a table. */
    method RecortarTabla(ft: FileTag, n: nat) returns (ok: bool)
      requires Valid() && ft in tables
      modifies this`tables, this`pages, bits
      ensures Linked(old(Snapshot()))
      ensures var r := DropTo(old(Snapshot()), ft, n);
        ok == r.Ready? && (ok ==> Snapshot() == r.m && Valid())
    {
      hide Linked, CountsAhead, DirtyResident, FramesWhole, DropTo;
      ghost var m := Snapshot();
      while tables[ft].size > n
        invariant Linked(Snapshot()) && ft in tables
        invariant DropTo(Snapshot(), ft, n) == DropTo(m, ft, n)
        decreases tables[ft].size
      {
        DropToNext(Snapshot(), ft, n);
        ok := QuitarUltima(ft);
        if !ok { return false; }
      }
      DropToDone(Snapshot(), ft, n);
      DropToSound(m, ft, n);
      ok := true;
    }

    /** The last page leaves the table; the process exits if it is resident and modified. */
    method QuitarUltima(ft: FileTag) returns (ok: bool)
      requires Linked(Snapshot()) && ft in tables && 0 < tables[ft].size
      modifies this`tables, this`pages, bits
      ensures var r := DropLast(old(Snapshot()), ft);
        ok == r.Ready? && (ok ==> Snapshot() == r.m)
    {
      var t := tables[ft];
      var id := PageId(ft, t.size - 1);
      assert HasPage(Snapshot(), id);
      var page := pages[id];
      if page.presencia && page.modificado { return false; }
      tables := tables[ft := Tabla(t.cantidad, t.size - 1)];
      pages := pages - {id};
      if page.presencia {
        assert InFrame(old(Snapshot()), id);
        bits[page.marco] := false;
        tables := tables[ft := Tabla(t.cantidad - 1, t.size - 1)];
        assert bits[..] == old(bits[..])[page.marco := false];
      }
      ok := true;
    }

    // -------------------------------------------------------------- page faults

    /** solicitar_pagina */
    method SolicitarPagina(id: PageId) returns (ok: bool)
      requires Valid() && HasPage(Snapshot(), id) && id in pages && !pages[id].presencia
      modifies this, marcos, bits
      ensures var r := Solicitar(old(Snapshot()), id);
        ok == r.Ready? && (ok ==> Snapshot() == r.m && Valid())
    {
      hide Linked, CountsAhead, DirtyResident, FramesWhole, FreeFrame, KeepsSlack, MapStep;
      var reply := MapStep(tam, srv, Read(id.ft, id.nro)).1;
      if !reply.Contenido? { return false; }
      ghost var m := Snapshot();
      StillAbsent(m, id);
      ghost var m1 := FreeFrame(m, id.ft).0;
      FillSound(m1, id, FreeFrame(m, id.ft).1, reply.data);
      var f := TomarMarco(id.ft);
      bits[f] := true;
      pages := pages[id := pages[id].(marco := f, presencia := true)];
      marcos[f] := marcos[f].(data := OnePage(tam, reply.data), page := id);
      tables := tables[id.ft := Tabla(tables[id.ft].cantidad + 1, tables[id.ft].size)];
      assert bits[..] == m1.bits[f := true];
      assert marcos[..] == m1.marcos[f := m1.marcos[f].(data := OnePage(tam, reply.data), page := id)];
      ok := true;
    }

    /** A free frame, or the one algoritmo_reemplazo frees. */
    method TomarMarco(nuevo: FileTag) returns (f: nat)
      requires Valid() && nuevo in tables
      modifies this`srv, this`reported, this`tables, this`pages, this`hand, bits
      ensures (Snapshot(), f) == FreeFrame(old(Snapshot()), nuevo)
    {
      hide CountsAhead, DirtyResident, FramesWhole, Replace;
      var libre := MarcoLibre();
      if libre != -1 { return libre; }
      assert AllBusy(Snapshot());
      if policy == LRU {
        f := AlgoritmoLRU(nuevo);
      } else {
        ghost var inspections;
        f, inspections := AlgoritmoClockM(nuevo);
      }
    }

    method PaginaEnTabla(id: PageId) returns (found: Found)
      requires Valid()
      modifies this, marcos, bits
      ensures Matches(found, Snapshot(), WorkerAccess.PaginaEnTabla(old(Snapshot()), id))
      ensures found != Lost ==> Valid()
    {
      hide Linked, CountsAhead, DirtyResident, FramesWhole, Solicitar;
      assert Linked(Snapshot());
      var ok := FileTagEnMemoria(id.ft);
      if !ok { return Lost; }
      assert Linked(Snapshot());
      if id.nro > tables[id.ft].size {
        ok := ActualizarTabla(id.ft);
        if !ok { return Lost; }
        if id.nro > tables[id.ft].size { return Missing; }
      }
      if id.nro == tables[id.ft].size { return Lost; }
      PagesInTables(Snapshot());
      assert HasPage(Snapshot(), id);
      if pages[id].presencia { return Here; }
      ok := SolicitarPagina(id);
      found := if ok then Here else Lost;
    }

    // -------------------------------------------------------------- copies

    /** interaccion_con_memoria: under LRU the frame notes the time. */
    method NotarAcceso(f: nat)
      requires f < marcos.Length
      modifies this`clock, marcos
      ensures Snapshot() == Touch(old(Snapshot()), f)
    {
      if policy == LRU {
        clock := clock + 1;
        marcos[f] := marcos[f].(time := clock);
        assert marcos[..] == old(marcos[..])[f := old(marcos[f]).(time := clock)];
      }
    }

    method EscribirTrozo(id: PageId, off: nat, datos: string)
      requires Valid() && Present(Snapshot(), id) && off + |datos| <= tam
      modifies this`pages, this`clock, marcos
      ensures Valid() && Snapshot() == WriteChunk(old(Snapshot()), id, off, datos)
    {
      hide Linked, CountsAhead, DirtyResident, FramesWhole, Splice, KeepsSlack, Touch;
      ghost var m := Snapshot();
      ghost var g := FrameOf(m, id);
      FrameWhole(m, id);
      var f := pages[id].marco;
      pages := pages[id := pages[id].(modificado := true, uso := true)];
      marcos[f] := marcos[f].(data := Splice(marcos[f].data, off, datos));
      assert marcos[..] == m.marcos[g := m.marcos[g].(data := Splice(m.marcos[g].data, off, datos))];
      assert Snapshot() == m.(marcos := marcos[..], pages := pages);
      NotarAcceso(f);
      assert Snapshot() == WriteChunk(m, id, off, datos);
    }

    method LeerTrozo(id: PageId, off: nat, n: nat) returns (s: string)
      requires Valid() && Present(Snapshot(), id) && off + n <= tam
      modifies this`pages, this`clock, marcos
      ensures Valid() && Snapshot() == ReadChunk(old(Snapshot()), id)
      ensures s == FrameData(old(Snapshot()), id)[off..off + n]
    {
      hide Linked, CountsAhead, DirtyResident, FramesWhole, KeepsSlack, Touch;
      ghost var m := Snapshot();
      ghost var g := FrameOf(m, id);
      FrameWhole(m, id);
      var f := pages[id].marco;
      pages := pages[id := pages[id].(uso := true)];
      s := marcos[f].data[off..off + n];
      assert Snapshot() == m.(pages := pages);
      NotarAcceso(f);
      assert Snapshot() == ReadChunk(m, id);
    }

    method EscribirPagina(id: PageId, base: nat, datos: string) returns (ok: bool)
      requires Valid() && Present(Snapshot(), id) && Base(id.nro, tam) <= base < Base(id.nro, tam) + tam
      modifies this, marcos, bits
      ensures var r := Escribir(old(Snapshot()), id, base - Base(id.nro, tam), datos);
        ok == r.Ready? && (ok ==> Snapshot() == r.m && Valid())
    {
      hide Sound, Present, WriteChunk, Base, WriteRest, First, After, Ceil;
      BaseIsProduct(id.nro, tam);
      var off := base - id.nro * tam;
      if |datos| <= tam - off {
        EscribirTrozo(id, off, datos);
        return true;
      }
      CountsAreQuotients(|datos|, tam);
      CeilBounds(|datos|, tam);
      var esp := tam - off;
      FirstIsTake(datos, esp);
      EscribirTrozo(id, off, datos[..esp]);
      ok := EscribirResto(id.ft, id.nro + 1, datos[esp..], (|datos| + tam - 1) / tam - 1);
    }

    /** The loop over the pages after the first, each written from its base. */
    method EscribirResto(ft: FileTag, siguiente: nat, datos: string, cantidad: nat) returns (ok: bool)
      requires Valid()
      modifies this, marcos, bits
      ensures var r := WriteRest(old(Snapshot()), ft, siguiente, datos, cantidad);
        ok == r.Ready? && (ok ==> Snapshot() == r.m && Valid())
    {
      hide Sound, WriteChunk, WorkerAccess.PaginaEnTabla, WriteRest, First, After;
      ghost var m := Snapshot();
      var restante := datos;
      var i := 0;
      while i < cantidad
        invariant 0 <= i <= cantidad && Valid()
        invariant WriteRest(Snapshot(), ft, siguiente + i, restante, cantidad - i) ==
          WriteRest(m, ft, siguiente, datos, cantidad)
      {
        var extra := PageId(ft, siguiente + i);
        WriteRestNext(Snapshot(), ft, siguiente + i, restante, cantidad - i);
        var found := PaginaEnTabla(extra);
        if found != Here { return false; }
        var bytes := if |restante| < tam then |restante| else tam;
        FirstIsTake(restante, bytes);
        FirstIsTake(restante, tam);
        EscribirTrozo(extra, 0, restante[..bytes]);
        restante := restante[bytes..];
        i := i + 1;
      }
      WriteRestDone(Snapshot(), ft, siguiente + i, restante);
      ok := true;
    }

    method LeerPagina(id: PageId, base: nat, len: nat) returns (ok: bool, lectura: string)
      requires Valid() && Present(Snapshot(), id) && Base(id.nro, tam) <= base < Base(id.nro, tam) + tam
      modifies this, marcos, bits
      ensures var r := Leer(old(Snapshot()), id, base - Base(id.nro, tam), len);
        ok == r.0.Ready? && (ok ==> Snapshot() == r.0.m && lectura == r.1 && Valid())
    {
      hide Sound, Present, ReadChunk, Base, ReadRest, Ceil, FrameData;
      BaseIsProduct(id.nro, tam);
      var off := base - id.nro * tam;
      if len <= tam - off {
        lectura := LeerTrozo(id, off, len);
        return true, lectura;
      }
      CountsAreQuotients(len, tam);
      CeilBounds(len, tam);
      var esp := tam - off;
      ghost var data := FrameData(Snapshot(), id);
      lectura := LeerTrozo(id, off, esp);
      assert lectura == data[off..];
      var resto;
      ok, resto := LeerResto(id.ft, id.nro + 1, len - esp, (len + tam - 1) / tam - 1);
      lectura := lectura + resto;
    }

    /** The loop over the pages after the first, each read from its base. */
    method LeerResto(ft: FileTag, siguiente: nat, len: nat, cantidad: nat) returns (ok: bool, lectura: string)
      requires Valid()
      modifies this, marcos, bits
      ensures var r := ReadRest(old(Snapshot()), ft, siguiente, len, cantidad);
        ok == r.0.Ready? && (ok ==> Snapshot() == r.0.m && lectura == r.1 && Valid())
    {
      hide Sound, ReadChunk, WorkerAccess.PaginaEnTabla, ReadRest, FrameData;
      ghost var full := ReadRest(Snapshot(), ft, siguiente, len, cantidad);
      lectura := "";
      var restante := len;
      var i := 0;
      while i < cantidad
        invariant 0 <= i <= cantidad && 0 <= restante && Valid()
        invariant var rest := ReadRest(Snapshot(), ft, siguiente + i, restante, cantidad - i);
          rest.0 == full.0 && (rest.0.Ready? ==> lectura + rest.1 == full.1)
      {
        var extra := PageId(ft, siguiente + i);
        ReadRestNext(Snapshot(), ft, siguiente + i, restante, cantidad - i);
        var found := PaginaEnTabla(extra);
        if found != Here { return false, lectura; }
        var bytes := if restante < tam then restante else tam;
        ghost var data := FrameData(Snapshot(), extra);
        var leido := LeerTrozo(extra, 0, bytes);
        assert leido == data[..bytes];
        lectura := lectura + leido;
        restante := restante - bytes;
        i := i + 1;
      }
      ReadRestDone(Snapshot(), ft, siguiente + i, restante);
      ok := true;
    }

    // -------------------------------------------------------------- instructions

    method VolcarPagina(id: PageId)
      requires Valid() && id in pages
      modifies this`srv, this`reported, this`pages
      ensures Valid() && Snapshot() == FlushOne(old(Snapshot()), id)
    {
      hide Linked, CountsAhead, DirtyResident, FramesWhole, KeepsSlack;
      var page := pages[id];
      if page.modificado && page.presencia {
        ghost var f := FrameOf(Snapshot(), id);
        NotificarCambios(page.marco);
        pages := pages[id := page.(modificado := false)];
        assert Snapshot() == FlushOne(old(Snapshot()), id);
      }
    }

    method InterpretarFlush(ft: FileTag)
      requires Valid()
      modifies this`srv, this`reported, this`pages
      ensures Valid() && Snapshot() == Flush(old(Snapshot()), ft)
    {
      hide Sound, FlushOne, FlushFrom;
      if ft !in tables { return; }
      ghost var m := Snapshot();
      var j := 0;
      while j < tables[ft].size
        invariant 0 <= j && ft in tables && Valid() && FlushFrom(Snapshot(), ft, j) == FlushFrom(m, ft, 0)
        decreases tables[ft].size - j
      {
        FlushFromNext(Snapshot(), ft, j);
        VolcarPagina(PageId(ft, j));
        j := j + 1;
      }
      FlushFromDone(Snapshot(), ft, j);
    }

    method LiberarPagina(id: PageId)
      requires Linked(Snapshot()) && id in pages && id.ft in tables
      modifies this`tables, this`pages, bits
      ensures Snapshot() == FreeOne(old(Snapshot()), id)
    {
      var page := pages[id];
      if page.presencia {
        assert InFrame(Snapshot(), id);
        bits[page.marco] := false;
        pages := pages[id := page.(presencia := false)];
        tables := tables[id.ft := Tabla(tables[id.ft].cantidad - 1, tables[id.ft].size)];
        assert bits[..] == old(bits[..])[page.marco := false];
      }
    }

    /** The File:Tag's frames are freed and its table goes. */
    method OlvidarFileTag(ft: FileTag)
      requires Valid()
      modifies this`tables, this`pages, bits
      ensures Valid() && Snapshot() == DropPages(old(Snapshot()), ft)
    {
      hide Sound, FreeOne, FreeFrom, Freeing, KeepsSlack;
      if ft !in tables { return; }
      ghost var m := Snapshot();
      SoundLinked(m);
      LiberarFileTag(ft);
      DropPagesSound(m, ft);
      tables := tables - {ft};
      pages := map id | id in pages && id.ft != ft :: pages[id];
    }

    /** The loop over the page table. */
    method LiberarFileTag(ft: FileTag)
      requires Linked(Snapshot()) && ft in tables
      modifies this`tables, this`pages, bits
      ensures Snapshot() == FreeFrom(old(Snapshot()), ft, 0)
    {
      hide Linked, FreeOne, FreeFrom;
      ghost var m := Snapshot();
      var i := 0;
      while i < tables[ft].size
        invariant 0 <= i && Linked(Snapshot()) && ft in tables && FreeFrom(Snapshot(), ft, i) == FreeFrom(m, ft, 0)
        decreases tables[ft].size - i
      {
        FreeFromNext(Snapshot(), ft, i);
        if tables[ft].cantidad == 0 { break; }
        LiberarPagina(PageId(ft, i));
        i := i + 1;
      }
      FreeFromNext(Snapshot(), ft, i);
    }

    /** instruccion_simple_storage: a request and its answer. */
    method PedirStorage(op: Op) returns (answer: Answer)
      requires Valid()
      modifies this`srv
      ensures Valid() && Done(Snapshot(), answer) == Request(old(Snapshot()), op)
    {
      hide Sound;
      var (after, reply) := MapStep(tam, srv, op);
      SrvSound(Snapshot(), after);
      srv := after;
      answer := AnswerOf(reply);
    }

    method InterpretarTruncate(ft: FileTag, size: nat) returns (ok: bool, answer: Answer)
      requires Valid()
      modifies this, bits
      ensures var r := Exec(old(Snapshot()), TRUNCATE(ft, size));
        ok == r.Done? && (ok ==> Done(Snapshot(), answer) == r && Valid())
    {
      hide Sound, LoadTable, RefreshTable, NeededBlocks;
      RemainderIsMod(tam, size);
      var total := size;
      var resto := size % tam;
      if resto != 0 { total := total + resto; }
      answer := PedirStorage(Truncate(ft, total));
      SoundLinked(Snapshot());
      ok := FileTagEnMemoria(ft);
      if !ok { return; }
      var n := PaginasDe(total);
      if n != tables[ft].cantidad { ok := ActualizarTabla(ft); }
    }

    method InterpretarWrite(ft: FileTag, base: nat, datos: string) returns (ok: bool, answer: Answer)
      requires Valid()
      modifies this, marcos, bits
      ensures var r := WriteAt(old(Snapshot()), ft, base, datos);
        ok == r.Done? && (ok ==> Done(Snapshot(), answer) == r && Valid())
    {
      hide Sound, WorkerAccess.PaginaEnTabla, Escribir, Remainder, NeededBlocks;
      PageOf(tam, base);
      var id := PageId(ft, PageNumber(tam, base));
      var found := PaginaEnTabla(id);
      match found
      case Missing => return true, Refused(ErrFueraLimite);
      case Lost => return false, Ok;
      case Here =>
        ok := EscribirPagina(id, base, datos);
        answer := Ok;
    }

    method InterpretarRead(ft: FileTag, base: nat, len: nat) returns (ok: bool, answer: Answer)
      requires Valid()
      modifies this, marcos, bits
      ensures var r := ReadAt(old(Snapshot()), ft, base, len);
        ok == r.Done? && (ok ==> Done(Snapshot(), answer) == r && Valid())
    {
      hide Sound, WorkerAccess.PaginaEnTabla, Leer, Remainder, NeededBlocks;
      PageOf(tam, base);
      var id := PageId(ft, PageNumber(tam, base));
      var found := PaginaEnTabla(id);
      match found
      case Missing => return true, Refused(ErrFueraLimite);
      case Lost => return false, Ok;
      case Here =>
        var lectura;
        ok, lectura := LeerPagina(id, base, len);
        answer := Bytes(lectura);
    }

    method Interpretar(i: Instr) returns (ok: bool, answer: Answer)
      requires Valid()
      modifies this, marcos, bits
      ensures var r := Exec(old(Snapshot()), i);
        ok == r.Done? && (ok ==> Done(Snapshot(), answer) == r && Valid())
    {
      hide Sound, Request, Flush, DropPages, TruncateTable, WriteAt, ReadAt;
      ok, answer := true, Ok;
      match i
      case CREATE(ft) => answer := PedirStorage(Create(ft));
      case COMMIT(ft) =>
        InterpretarFlush(ft);
        answer := PedirStorage(Commit(ft));
      case DELETE(ft) =>
        OlvidarFileTag(ft);
        answer := PedirStorage(Delete(ft));
      case FLUSH(ft) => InterpretarFlush(ft);
      case TRUNCATE(ft, size) => ok, answer := InterpretarTruncate(ft, size);
      case TAG(src, ft) => answer := PedirStorage(Tag(src, ft));
      case WRITE(ft, base, datos) => ok, answer := InterpretarWrite(ft, base, datos);
      case READ(ft, base, len) => ok, answer := InterpretarRead(ft, base, len);
      case END =>
    }

    // -------------------------------------------------------------- queries

    /** Every file:tag is flushed before the query leaves. */
    method VolcarTodo() returns (ghost order: seq<FileTag>)
      requires Valid()
      modifies this`srv, this`reported, this`pages
      ensures Valid() && Covers(order, old(Snapshot())) && Snapshot() == FlushAll(old(Snapshot()), order)
    {
      hide Sound, Flush;
      ghost var m := Snapshot();
      order := [];
      var rest := tables.Keys;
      while rest != {}
        invariant Valid() && tables == m.tables && Snapshot() == FlushAll(m, order)
        invariant forall ft :: ft in m.tables ==> ft in order || ft in rest
        decreases |rest|
      {
        var ft :| ft in rest;
        FlushAllNext(m, order, ft);
        InterpretarFlush(ft);
        order := order + [ft];
        rest := rest - {ft};
      }
    }

    /** The instruction loop, from `start` to the end of the query, an error, or the
        interruption at `stop`; in the last two cases every table is flushed. */
    method EjecutarQuery(prog: seq<Instr>, start: nat, stop: nat)
      returns (trace: Trace, pc: nat, ending: Ending, ghost order: seq<FileTag>)
      requires Valid()
      modifies this, marcos, bits
      ensures var r := RunFrom(old(Snapshot()), prog, start, stop);
        && trace == r.trace && pc == r.pc && ending == r.ending
        && (ending == Ended || ending == Exhausted ==> Snapshot() == r.m && Valid())
        && (ending == Interrupted || ending == Failed ==>
              Covers(order, r.m) && Snapshot() == FlushAll(r.m, order) && Valid())
    {
      hide Sound, Exec, RunFrom;
      ghost var run := RunFrom(Snapshot(), prog, start, stop);
      trace, pc, ending, order := [], start, Exhausted, [];
      while pc < |prog|
        invariant start <= pc && Valid() && ending == Exhausted
        invariant var rest := RunFrom(Snapshot(), prog, pc, stop);
          run == rest.(trace := trace + rest.trace)
      {
        RunNext(Snapshot(), prog, pc, stop);
        var ok, answer := Interpretar(prog[pc]);
        if !ok { return trace, pc, Crashed, []; }
        trace := trace + [(pc, answer)];
        if prog[pc].END? { return trace, pc, Ended, []; }
        pc := pc + 1;
        if answer.Refused? || reported || pc == stop {
          ending := if answer.Refused? || reported then Failed else Interrupted;
          ConsultedSound(Snapshot());
          reported := false;
          order := VolcarTodo();
          return;
        }
      }
      RunDone(Snapshot(), prog, pc, stop);
    }
  }
}
