/** Queries for which the conditions of `Admits` can be told from the script and the files alone,
    whatever the Worker evicts: files are resized before they are accessed, written only while in
    progress, and flushed before they are tagged. */
module WorkerTidy {
  import opened StorageModel
  import opened StorageSpec
  import opened FlatFile
  import opened WorkerModel
  import opened WorkerFrames
  import opened WorkerAccess
  import opened WorkerCopies
  import opened WorkerView
  import opened WorkerFaults
  import opened WorkerTransparency
  import opened WorkerReference
  import opened WorkerInstructions
  import opened WorkerFlush
  import opened WorkerRequests
  import opened WorkerTruncate
  import opened WorkerSimulation
  import opened WorkerSlack
  import opened WorkerQueries

  // ---------------------------------------------------------------- the condition on scripts

  /** Files that may have a table in memory, and files that may have unwritten bytes there. */
  datatype Cached = Cached(touched: set<FileTag>, dirty: set<FileTag>)

  /** What the instruction may do to them, however pages are evicted. */
  function After(c: Cached, i: Instr): Cached {
    match i
    case READ(ft, _, _) => c.(touched := c.touched + {ft})
    case WRITE(ft, _, _) => Cached(c.touched + {ft}, c.dirty + {ft})
    case TRUNCATE(ft, _) => c.(touched := c.touched + {ft})
    case FLUSH(ft) => c.(dirty := c.dirty - {ft})
    case COMMIT(ft) => c.(dirty := c.dirty - {ft})
    case DELETE(ft) => Cached(c.touched - {ft}, c.dirty - {ft})
    case _ => c
  }

  ghost predicate Tidy(tam: nat, v: FileMap, c: Cached, i: Instr)
    requires 0 < tam
  {
    match i
    case READ(ft, _, _) => Measured(tam, v, ft)
    case WRITE(ft, _, _) => Measured(tam, v, ft) && (ft in v ==> v[ft].estado == WorkInProgress)
    case TRUNCATE(ft, _) => ft in v ==> if v[ft].estado == Commited then Measured(tam, v, ft) else ft !in c.touched
    case TAG(src, dst) => dst in v || src !in v || src !in c.dirty
    case DELETE(ft) => IsBaseFile(ft) && ft in v ==> ft !in c.dirty
    case _ => true
  }

  /** Each instruction the query reaches on flat files is tidy when its turn comes. */
  ghost predicate TidyFrom(tam: nat, v: FileMap, c: Cached, prog: seq<Instr>, pc: nat)
    requires 0 < tam && AllWhole(tam, v)
    decreases |prog| - pc
  {
    hide FlatExec, AllWhole, Tidy;
    pc < |prog| ==>
      && Tidy(tam, v, c, prog[pc])
      && var e := FlatExec(tam, v, prog[pc]);
         e.FlatDone? && !prog[pc].END? && !e.answer.Refused? ==>
           (FlatExecWhole(tam, v, prog[pc]); TidyFrom(tam, e.v, After(c, prog[pc]), prog, pc + 1))
  }

  // ---------------------------------------------------------------- what memory has is known

  ghost predicate Tracks(m: Mem, c: Cached) {
    && (forall ft :: ft in m.tables ==> ft in c.touched)
    && (forall id :: id in m.pages && m.pages[id].modificado ==> id.ft in c.dirty)
  }

  lemma TidyAdmits(m: Mem, c: Cached, i: Instr)
    requires Coherent(m) && Sound(m) && 0 < m.tam && Tracks(m, c) && Tidy(m.tam, View(m), c, i)
    ensures Admits(m, i)
  {
    hide Coherent, Sound, PageView, BlocksView, NeededBlocks, AdjustedSize;
  }

  /** Only files of `wet` get dirty pages. */
  ghost predicate Dries(m: Mem, r: Mem, wet: set<FileTag>) {
    forall id :: id in r.pages && r.pages[id].modificado ==> id.ft in wet || (id in m.pages && m.pages[id].modificado)
  }

  lemma DriesChain(a: Mem, b: Mem, c: Mem, wet: set<FileTag>)
    requires Dries(a, b, wet) && Dries(b, c, wet)
    ensures Dries(a, c, wet)
  {
  }

  lemma DriesSelf(m: Mem, wet: set<FileTag>)
    ensures Dries(m, m, wet)
  {
  }

  lemma LoadDries(m: Mem, ft: FileTag, wet: set<FileTag>)
    requires Sound(m) && LoadTable(m, ft).Ready?
    ensures Dries(m, LoadTable(m, ft).m, wet)
  {
    SoundLinked(m);
    hide Sound;
    if ft !in m.tables { LoadTablePages(m, ft); }
    hide LoadTable, NewPages, NeededBlocks;
  }

  lemma RefreshDries(m: Mem, ft: FileTag, wet: set<FileTag>)
    requires Sound(m) && ft in m.tables && RefreshTable(m, ft).Ready?
    ensures Dries(m, RefreshTable(m, ft).m, wet)
  {
    SoundLinked(m);
    hide Sound, Linked, NeededBlocks, DropTo, NewPages;
    assert ft in m.srv;
    RefreshShape(m, ft);
    hide RefreshTable, Present;
  }

  lemma EvictDries(m: Mem, f: nat, incoming: FileTag, wet: set<FileTag>)
    requires Sound(m) && f < |m.bits| && m.bits[f]
    ensures Dries(m, Evict(m, f, incoming), wet)
  {
    EvictPages(m, f, incoming);
    hide Sound, Evict, Present, VictimWritten;
  }

  lemma FrameDries(m: Mem, incoming: FileTag, wet: set<FileTag>)
    requires Sound(m) && incoming in m.tables
    ensures Dries(m, FreeFrame(m, incoming).0, wet)
  {
    hide Sound, Replace, Dries;
    DriesSelf(m, wet);
    if FirstFree(m.bits, 0).None? { ReplaceDries(m, incoming, wet); }
  }

  lemma ReplaceDries(m: Mem, incoming: FileTag, wet: set<FileTag>)
    requires Sound(m) && AllBusy(m)
    ensures Dries(m, Replace(m, incoming).0, wet)
  {
    if m.policy == LRU {
      hide Evict, Dries;
      EvictDries(m, PageReplacement.Oldest(Times(m), 1, 0), incoming, wet);
    } else {
      PageReplacement.ClockMChoice(Marks(m), m.hand);
      var scan := PageReplacement.ClockM(Marks(m), m.hand);
      SetUseSound(m, scan.marks);
      var m1 := SetUse(m, scan.marks);
      assert m1.bits[scan.victim];
      hide PageReplacement.ClockM, SetUse, Evict;
      EvictDries(m1, scan.victim, incoming, wet);
    }
  }

  lemma BringInDries(m: Mem, id: PageId, data: Block, wet: set<FileTag>)
    requires Sound(m) && HasPage(m, id) && id in m.pages && !m.pages[id].presencia
    ensures Dries(m, BringIn(m, id, data), wet)
  {
    hide Sound, KeepsSlack, FreeFrame;
    StillAbsent(m, id);
    FrameDries(m, id.ft, wet);
    FilledDries(m, id, data);
  }

  lemma FilledDries(m: Mem, id: PageId, data: Block)
    requires Sound(m) && HasPage(m, id) && id in m.pages && !m.pages[id].presencia
    ensures Dries(FreeFrame(m, id.ft).0, BringIn(m, id, data), {})
  {
    hide Sound, FreeFrame, KeepsSlack;
    StillAbsent(m, id);
  }

  lemma PageAtDries(m: Mem, id: PageId, wet: set<FileTag>)
    requires Sound(m) && id.ft in m.tables && PageAt(m, id).Ready?
    ensures Dries(m, PageAt(m, id).m, wet)
  {
    hide Sound, BringIn, KeepsSlack, Dries;
    DriesSelf(m, wet);
    PagesInTables(m);
    SoundTam(m);
    assert HasPage(m, id);
    if !m.pages[id].presencia { BringInDries(m, id, MapStep(m.tam, m.srv, Read(id.ft, id.nro)).1.data, wet); }
  }

  lemma PaginaDries(m: Mem, id: PageId, wet: set<FileTag>)
    requires Sound(m) && !PaginaEnTabla(m, id).Exit?
    ensures Dries(m, PaginaEnTabla(m, id).m, wet)
  {
    hide Sound, PageAt, RefreshTable, LoadTable, Dries;
    SoundLinked(m);
    LoadDries(m, id.ft, wet);
    var r := LoadTable(m, id.ft).m;
    LoadTableSound(m, id.ft);
    if id.nro <= r.tables[id.ft].size {
      PageAtDries(r, id, wet);
      DriesChain(m, r, PageAt(r, id).m, wet);
    } else {
      SoundLinked(r);
      RefreshDries(r, id.ft, wet);
      RefreshTableSound(r, id.ft);
      var r2 := RefreshTable(r, id.ft).m;
      DriesChain(m, r, r2, wet);
      if id.nro <= r2.tables[id.ft].size {
        PageAtDries(r2, id, wet);
        DriesChain(m, r2, PageAt(r2, id).m, wet);
      }
    }
  }

  // ---------------------------------------------------------------- copies

  lemma WriteDries(m: Mem, id: PageId, off: nat, text: string)
    requires Sound(m) && Present(m, id) && off + |text| <= m.tam
    ensures Dries(m, WriteChunk(m, id, off, text), {id.ft})
  {
    hide Sound, KeepsSlack, Splice, FrameOf;
  }

  lemma ReadDries(m: Mem, id: PageId, wet: set<FileTag>)
    requires Sound(m) && Present(m, id)
    ensures Dries(m, ReadChunk(m, id), wet)
  {
    hide Sound, KeepsSlack, FrameOf;
  }

  lemma {:induction false} WriteRestDries(m: Mem, ft: FileTag, nro: nat, text: string, pages: nat)
    requires Sound(m) && WriteRest(m, ft, nro, text, pages).Ready?
    ensures Dries(m, WriteRest(m, ft, nro, text, pages).m, {ft})
    decreases pages
  {
    hide Sound, PaginaEnTabla, WriteChunk, First, FlatFile.After, Dries;
    if pages == 0 {
      DriesSelf(m, {ft});
    } else {
      var id := PageId(ft, nro);
      PaginaDries(m, id, {ft});
      var m1 := PaginaEnTabla(m, id).m;
      var m2 := WriteChunk(m1, id, 0, First(text, m.tam));
      WriteDries(m1, id, 0, First(text, m.tam));
      DriesChain(m, m1, m2, {ft});
      WriteRestDries(m2, ft, nro + 1, FlatFile.After(text, m.tam), pages - 1);
      DriesChain(m, m2, WriteRest(m, ft, nro, text, pages).m, {ft});
    }
  }

  lemma {:induction false} ReadRestDries(m: Mem, ft: FileTag, nro: nat, len: nat, pages: nat)
    requires Sound(m) && ReadRest(m, ft, nro, len, pages).0.Ready?
    ensures Dries(m, ReadRest(m, ft, nro, len, pages).0.m, {})
    decreases pages
  {
    hide Sound, PaginaEnTabla, ReadChunk, Dries, FrameData;
    if pages == 0 {
      DriesSelf(m, {});
    } else {
      var id := PageId(ft, nro);
      PaginaDries(m, id, {});
      var m1 := PaginaEnTabla(m, id).m;
      ReadDries(m1, id, {});
      DriesChain(m, m1, ReadChunk(m1, id), {});
      var n := Least(len, m.tam);
      ReadRestDries(ReadChunk(m1, id), ft, nro + 1, len - n, pages - 1);
      DriesChain(m, ReadChunk(m1, id), ReadRest(m, ft, nro, len, pages).0.m, {});
    }
  }

  lemma EscribirDries(m: Mem, id: PageId, off: nat, text: string)
    requires Sound(m) && Present(m, id) && off < m.tam && Escribir(m, id, off, text).Ready?
    ensures Dries(m, Escribir(m, id, off, text).m, {id.ft})
  {
    hide Sound, WriteChunk, WriteRest, PagesAfterFirst, First, FlatFile.After, Dries;
    if |text| <= m.tam - off {
      WriteDries(m, id, off, text);
    } else {
      var esp := m.tam - off;
      WriteDries(m, id, off, First(text, esp));
      var m1 := WriteChunk(m, id, off, First(text, esp));
      WriteRestDries(m1, id.ft, id.nro + 1, FlatFile.After(text, esp), PagesAfterFirst(|text|, m.tam));
      DriesChain(m, m1, Escribir(m, id, off, text).m, {id.ft});
    }
  }

  lemma LeerDries(m: Mem, id: PageId, off: nat, len: nat)
    requires Sound(m) && Present(m, id) && off < m.tam && Leer(m, id, off, len).0.Ready?
    ensures Dries(m, Leer(m, id, off, len).0.m, {})
  {
    hide Sound, ReadChunk, ReadRest, PagesAfterFirst, Dries, FrameData;
    ReadDries(m, id, {});
    if len > m.tam - off {
      var esp := m.tam - off;
      var m1 := ReadChunk(m, id);
      ReadRestDries(m1, id.ft, id.nro + 1, len - esp, PagesAfterFirst(len, m.tam));
      DriesChain(m, m1, Leer(m, id, off, len).0.m, {});
    }
  }

  lemma CopiesDry(m: Mem, i: Instr)
    requires Sound(m) && (i.WRITE? || i.READ?) && Exec(m, i).Done?
    ensures Dries(m, Exec(m, i).m, if i.WRITE? then {i.ft} else {})
  {
    hide Sound, PaginaEnTabla, Escribir, Leer, NeededBlocks, Remainder, Dries;
    SoundTam(m);
    var wet := if i.WRITE? then {i.ft} else {};
    var id := PageId(i.ft, NeededBlocks(m.tam, i.base));
    PaginaDries(m, id, wet);
    var r := PaginaEnTabla(m, id);
    if r.Ready? {
      var off := Remainder(m.tam, i.base);
      if i.WRITE? {
        EscribirDries(r.m, id, off, i.text);
      } else {
        LeerDries(r.m, id, off, i.len);
      }
      DriesChain(m, r.m, Exec(m, i).m, wet);
    }
  }

  // ---------------------------------------------------------------- every instruction

  lemma TruncateDries(m: Mem, ft: FileTag, size: nat, answer: Answer)
    requires Sound(m) && TruncateTable(m, ft, size, answer).Done?
    ensures Dries(m, TruncateTable(m, ft, size, answer).m, {})
  {
    hide Sound, LoadTable, RefreshTable, NeededBlocks, Dries;
    SoundLinked(m);
    LoadDries(m, ft, {});
    LoadTableSound(m, ft);
    var m1 := LoadTable(m, ft).m;
    if NeededBlocks(m.tam, size) != m1.tables[ft].cantidad {
      SoundLinked(m1);
      RefreshDries(m1, ft, {});
      DriesChain(m, m1, RefreshTable(m1, ft).m, {});
    }
  }

  lemma TracksFrom(m: Mem, r: Mem, c: Cached, ft: FileTag, wet: set<FileTag>)
    requires Tracks(m, c) && Evolves(m, r, ft) && Dries(m, r, wet)
    ensures Tracks(r, Cached(c.touched + {ft}, c.dirty + wet))
  {
    hide KeepsSlack;
  }

  lemma TruncateTracks(m: Mem, c: Cached, ft: FileTag, size: nat)
    requires Sound(m) && 0 < m.tam && Tracks(m, c) && Exec(m, TRUNCATE(ft, size)).Done?
    ensures Tracks(Exec(m, TRUNCATE(ft, size)).m, After(c, TRUNCATE(ft, size)))
  {
    hide Sound, TruncateTable, MapStep, AdjustedSize, Evolves, Dries;
    var s := AdjustedSize(m.tam, size);
    var r := Request(m, Truncate(ft, s));
    TruncateKeeps(r.m, ft, s, r.answer);
    TruncateDries(r.m, ft, s, r.answer);
    TracksFrom(r.m, TruncateTable(r.m, ft, s, r.answer).m, c, ft, {});
    assert c.dirty + {} == c.dirty;
  }

  lemma FlushTracks(m: Mem, c: Cached, ft: FileTag)
    requires Coherent(m) && Sound(m) && Tracks(m, c)
    ensures Tracks(Flush(m, ft), c.(dirty := c.dirty - {ft}))
  {
    FlushTransparent(m, ft);
    hide Coherent, Sound, Flush, Transparent;
  }

  lemma DropTracks(m: Mem, c: Cached, ft: FileTag)
    requires Sound(m) && Tracks(m, c)
    ensures Tracks(DropPages(m, ft), Cached(c.touched - {ft}, c.dirty - {ft}))
  {
    DropPagesShape(m, ft);
    hide Sound, DropPages;
  }

  /** The sets still cover what memory has, whatever was evicted. */
  lemma TracksAfter(m: Mem, c: Cached, i: Instr)
    requires Coherent(m) && Sound(m) && 0 < m.tam && Tracks(m, c) && Exec(m, i).Done?
    ensures Tracks(Exec(m, i).m, After(c, i))
  {
    hide Coherent, Sound, Flush, DropPages, TruncateTable, WriteAt, ReadAt, MapStep, AdjustedSize, Evolves, Dries;
    match i
    case COMMIT(ft) => FlushTracks(m, c, ft);
    case FLUSH(ft) => FlushTracks(m, c, ft);
    case DELETE(ft) => DropTracks(m, c, ft);
    case TRUNCATE(ft, size) => TruncateTracks(m, c, ft, size);
    case WRITE(ft, _, _) =>
      CopiesEvolve(m, i);
      CopiesDry(m, i);
      TracksFrom(m, Exec(m, i).m, c, ft, {ft});
    case READ(ft, _, _) =>
      CopiesEvolve(m, i);
      CopiesDry(m, i);
      TracksFrom(m, Exec(m, i).m, c, ft, {});
      assert c.dirty + {} == c.dirty;
    case _ =>
  }

  // ---------------------------------------------------------------- whole queries

  /** A tidy query is guarded on any Worker that sees its files, wherever it is interrupted. */
  lemma {:induction false} TidyGuarded(m: Mem, c: Cached, prog: seq<Instr>, pc: nat, stop: nat)
    requires Coherent(m) && Sound(m) && 0 < m.tam && AllWhole(m.tam, View(m)) && Tracks(m, c)
    requires TidyFrom(m.tam, View(m), c, prog, pc)
    ensures Guarded(m, prog, pc, stop)
    decreases |prog| - pc
  {
    hide Coherent, Sound, AllWhole, View, Exec, FlatExec, Admits, Tidy, Tracks;
    if pc < |prog| {
      TidyAdmits(m, c, prog[pc]);
      ExecSimulates(m, prog[pc]);
      var e := Exec(m, prog[pc]);
      if e.Done? {
        ViewAllWhole(e.m);
        TracksAfter(m, c, prog[pc]);
        CoherentQuiet(e.m);
        if !prog[pc].END? && !e.answer.Refused? && pc + 1 != stop {
          TidyGuarded(e.m, After(c, prog[pc]), prog, pc + 1, stop);
        }
      }
    }
  }

  /** What is left of a tidy query after an interruption is tidy. */
  lemma {:induction false} TidySuffix(tam: nat, v: FileMap, c: Cached, prog: seq<Instr>, pc: nat,
                                      stop: nat) returns (d: Cached)
    requires 0 < tam && AllWhole(tam, v) && TidyFrom(tam, v, c, prog, pc)
    requires FlatRunFrom(tam, v, prog, pc, stop).ending == Interrupted
    ensures var r := FlatRunFrom(tam, v, prog, pc, stop);
      AllWhole(tam, r.v) && TidyFrom(tam, r.v, d, prog, r.pc)
    decreases |prog| - pc
  {
    hide FlatExec, AllWhole, Tidy;
    var e := FlatExec(tam, v, prog[pc]);
    FlatExecWhole(tam, v, prog[pc]);
    if pc + 1 == stop {
      d := After(c, prog[pc]);
    } else {
      d := TidySuffix(tam, e.v, After(c, prog[pc]), prog, pc + 1, stop);
    }
  }

  /** A Worker with nothing in memory. */
  ghost predicate Idle(m: Mem) {
    && 0 < |m.marcos| == |m.bits| && m.hand < |m.marcos| && 0 < m.tam && FramesWhole(m)
    && (forall f: nat :: f < |m.bits| ==> !m.bits[f]) && m.tables == map[] && m.pages == map[]
  }

  lemma IdleTracks(m: Mem, c: Cached)
    requires Idle(m)
    ensures Tracks(m, c)
  {
  }

  /** The query goes over Workers with nothing in memory, flushed in any order that leaves no table
      out; nothing is asked of what their caches do. */
  ghost predicate IdleRelay(tam: nat, v: FileMap, prog: seq<Instr>, pc: nat, legs: seq<Leg>)
    decreases |legs|
  {
    hide Sound, Coherent, View, FlushAll, RunFrom;
    |legs| > 0 && Idle(legs[0].m) && Fit(legs[0].m, tam, v) &&
    var r := RunFrom(legs[0].m, prog, pc, legs[0].stop);
    if r.ending == Interrupted then
      Covers(legs[0].order, r.m) && IdleRelay(tam, FlushAll(r.m, legs[0].order).srv, prog, r.pc, legs[1..])
    else |legs| == 1
  }

  lemma {:induction false} TidyRelay(tam: nat, v: FileMap, c: Cached, prog: seq<Instr>, pc: nat, legs: seq<Leg>)
    requires 0 < tam && AllWhole(tam, v) && TidyFrom(tam, v, c, prog, pc) && IdleRelay(tam, v, prog, pc, legs)
    ensures Relay(tam, v, prog, pc, legs)
    decreases |legs|
  {
    hide Coherent, Sound, View, AllWhole, RunFrom, FlatRunFrom, Guarded, FlushAll, Covers, TidyFrom, Idle;
    var leg := legs[0];
    IdleTracks(leg.m, c);
    TidyGuarded(leg.m, c, prog, pc, leg.stop);
    RunSimulates(leg.m, prog, pc, leg.stop);
    var r := RunFrom(leg.m, prog, pc, leg.stop);
    if r.ending == Interrupted {
      Covered(r.m, leg.order);
      var d := TidySuffix(tam, v, c, prog, pc, leg.stop);
      TidyRelay(tam, FlushAll(r.m, leg.order).srv, d, prog, r.pc, legs[1..]);
    }
  }

  /** A tidy query, interrupted any number of times on Workers of any size and replacement policy,
      gives the answers and leaves the files of one run on flat files. */
  lemma TidyIsOneRun(tam: nat, v: FileMap, prog: seq<Instr>, legs: seq<Leg>)
    requires 0 < tam && AllWhole(tam, v) && TidyFrom(tam, v, Cached({}, {}), prog, 0)
    requires IdleRelay(tam, v, prog, 0, legs)
    ensures Relay(tam, v, prog, 0, legs)
    ensures var r := RelayRun(tam, v, prog, 0, legs);
      var flat := FlatRunFrom(tam, v, prog, 0, Never(prog));
      r.trace == flat.trace && View(r.m) == flat.v && r.pc == flat.pc && r.ending == flat.ending
  {
    hide AllWhole, View, RunFrom, FlatRunFrom, Relay, TidyFrom, IdleRelay, RelayRun;
    TidyRelay(tam, v, Cached({}, {}), prog, 0, legs);
    RelayIsOneRun(tam, v, prog, 0, legs);
  }
}
