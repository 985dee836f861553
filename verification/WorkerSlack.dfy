/** What `cantidad_paginas` counts beyond the resident pages of a table: fixed when the table is
    loaded, and the same after every instruction for as long as the table lives. */
module WorkerSlack {
  import opened StorageModel
  import opened StorageSpec
  import opened FlatFile
  import opened WorkerModel
  import opened WorkerFrames
  import opened WorkerAccess
  import opened WorkerCopies
  import opened WorkerView
  import opened WorkerReference
  import opened WorkerInstructions
  import opened WorkerFlush
  import opened WorkerQueries

  /** Slack is kept, `ft` keeps its table, and no other file gets one. */
  ghost predicate Evolves(m: Mem, r: Mem, ft: FileTag) {
    && KeepsSlack(m, r) && (ft in m.tables ==> ft in r.tables)
    && forall g :: g in r.tables && g != ft ==> g in m.tables
  }

  lemma EvolvesChain(a: Mem, b: Mem, c: Mem, ft: FileTag)
    requires Evolves(a, b, ft) && Evolves(b, c, ft) && Sound(c)
    ensures Evolves(a, c, ft)
  {
    forall g | g !in c.tables
      ensures Resident(c, g) == {}
    {
      NoTableNoPages(c, g);
    }
    hide Resident, Sound;
  }

  lemma NoTableNoPages(m: Mem, ft: FileTag)
    requires Sound(m) && ft !in m.tables
    ensures Resident(m, ft) == {}
  {
    forall id ensures id !in Resident(m, ft) { assert id in m.pages ==> HasPage(m, id); }
  }

  lemma EvolvesSelf(m: Mem, ft: FileTag)
    ensures Evolves(m, m, ft)
  {
  }

  // ---------------------------------------------------------------- page faults

  /** When a table is loaded the slack is its length. */
  lemma SlackAtLoad(m: Mem, ft: FileTag)
    requires Sound(m) && ft in m.srv && ft !in m.tables && 0 < m.tam
    ensures var r := LoadTable(m, ft); r.Ready? && ft in r.m.tables && Slack(r.m, ft) == PagesOf(m, ft)
  {
    hide NeededBlocks;
    NoTableNoPages(m, ft);
    var r := LoadTable(m, ft).m;
    forall id ensures id !in Resident(r, ft) { assert id !in Resident(m, ft); }
    assert Resident(r, ft) == {};
  }

  lemma LoadEvolves(m: Mem, ft: FileTag)
    requires Sound(m) && LoadTable(m, ft).Ready?
    ensures Sound(LoadTable(m, ft).m) && Evolves(m, LoadTable(m, ft).m, ft)
  {
    LoadTableSound(m, ft);
    hide Sound, KeepsSlack, NeededBlocks, NewPages;
  }

  lemma {:induction false} DropToTables(m: Mem, ft: FileTag, size: nat)
    requires Linked(m) && ft in m.tables && DropTo(m, ft, size).Ready?
    ensures DropTo(m, ft, size).m.tables.Keys == m.tables.Keys
    decreases m.tables[ft].size
  {
    hide Linked;
    if m.tables[ft].size > size {
      LastTables(m, ft);
      hide DropLast;
      DropToTables(DropLast(m, ft).m, ft, size);
    }
  }

  lemma LastTables(m: Mem, ft: FileTag)
    requires Linked(m) && ft in m.tables && 0 < m.tables[ft].size && DropLast(m, ft).Ready?
    ensures DropLast(m, ft).m.tables.Keys == m.tables.Keys
  {
    assert HasPage(m, PageId(ft, m.tables[ft].size - 1));
    hide Linked;
  }

  lemma RefreshEvolves(m: Mem, ft: FileTag)
    requires Sound(m) && ft in m.tables && RefreshTable(m, ft).Ready?
    ensures Sound(RefreshTable(m, ft).m) && Evolves(m, RefreshTable(m, ft).m, ft)
  {
    hide Sound, KeepsSlack, NeededBlocks, NewPages, DropTo;
    RefreshTableSound(m, ft);
    SoundLinked(m);
    if PagesOf(m, ft) <= m.tables[ft].size { DropToTables(m, ft, PagesOf(m, ft)); }
  }

  lemma FrameEvolves(m: Mem, incoming: FileTag)
    requires Sound(m) && incoming in m.tables
    ensures Evolves(m, FreeFrame(m, incoming).0, incoming)
  {
    EvolvesSelf(m, incoming);
    if FirstFree(m.bits, 0).None? { ReplaceSound(m, incoming); }
    hide Replace, KeepsSlack, Sound;
  }

  lemma BringInEvolves(m: Mem, id: PageId, data: Block)
    requires Sound(m) && HasPage(m, id) && id in m.pages && !m.pages[id].presencia
    ensures Evolves(m, BringIn(m, id, data), id.ft)
  {
    hide Sound, KeepsSlack, FreeFrame;
    StillAbsent(m, id);
    FrameEvolves(m, id.ft);
    assert id.ft in m.tables;
    var (m1, f) := FreeFrame(m, id.ft);
    assert BringIn(m, id, data).tables.Keys == m1.tables.Keys by { FillsTable(m, id, data); }
  }

  lemma FillsTable(m: Mem, id: PageId, data: Block)
    requires Sound(m) && HasPage(m, id) && id in m.pages && !m.pages[id].presencia
    ensures BringIn(m, id, data).tables.Keys == FreeFrame(m, id.ft).0.tables.Keys
  {
    hide Sound, FreeFrame, KeepsSlack;
    StillAbsent(m, id);
  }

  lemma PageAtEvolves(m: Mem, id: PageId)
    requires Sound(m) && id.ft in m.tables && PageAt(m, id).Ready?
    ensures Evolves(m, PageAt(m, id).m, id.ft)
  {
    hide Sound, BringIn, KeepsSlack;
    EvolvesSelf(m, id.ft);
    PagesInTables(m);
    SoundTam(m);
    assert HasPage(m, id);
    if !m.pages[id].presencia { BringInEvolves(m, id, MapStep(m.tam, m.srv, Read(id.ft, id.nro)).1.data); }
  }

  lemma PaginaEvolves(m: Mem, id: PageId)
    requires Sound(m) && !PaginaEnTabla(m, id).Exit?
    ensures Evolves(m, PaginaEnTabla(m, id).m, id.ft)
  {
    hide Sound, PageAt, RefreshTable, LoadTable, Evolves;
    SoundLinked(m);
    LoadEvolves(m, id.ft);
    var r := LoadTable(m, id.ft).m;
    if id.nro <= r.tables[id.ft].size {
      PageAtEvolves(r, id);
      EvolvesChain(m, r, PageAt(r, id).m, id.ft);
    } else {
      RefreshEvolves(r, id.ft);
      var r2 := RefreshTable(r, id.ft).m;
      EvolvesChain(m, r, r2, id.ft);
      if id.nro <= r2.tables[id.ft].size {
        PageAtEvolves(r2, id);
        EvolvesChain(m, r2, PageAt(r2, id).m, id.ft);
      }
    }
  }

  // ---------------------------------------------------------------- READ and WRITE

  lemma WriteEvolves(m: Mem, id: PageId, off: nat, text: string)
    requires Sound(m) && Present(m, id) && off + |text| <= m.tam
    ensures Evolves(m, WriteChunk(m, id, off, text), id.ft)
  {
    hide Sound, KeepsSlack, Splice, FrameOf;
  }

  lemma ReadEvolves(m: Mem, id: PageId)
    requires Sound(m) && Present(m, id)
    ensures Evolves(m, ReadChunk(m, id), id.ft)
  {
    hide Sound, KeepsSlack, FrameOf;
  }

  lemma {:induction false} WriteRestEvolves(m: Mem, ft: FileTag, nro: nat, text: string, pages: nat)
    requires Sound(m) && WriteRest(m, ft, nro, text, pages).Ready?
    ensures Evolves(m, WriteRest(m, ft, nro, text, pages).m, ft)
    decreases pages
  {
    hide Sound, PaginaEnTabla, WriteChunk, First, After, Evolves;
    if pages == 0 {
      EvolvesSelf(m, ft);
    } else {
      var id := PageId(ft, nro);
      PaginaEvolves(m, id);
      var m1 := PaginaEnTabla(m, id).m;
      var m2 := WriteChunk(m1, id, 0, First(text, m.tam));
      WriteEvolves(m1, id, 0, First(text, m.tam));
      EvolvesChain(m, m1, m2, ft);
      WriteRestEvolves(m2, ft, nro + 1, After(text, m.tam), pages - 1);
      EvolvesChain(m, m2, WriteRest(m, ft, nro, text, pages).m, ft);
    }
  }

  lemma {:induction false} ReadRestEvolves(m: Mem, ft: FileTag, nro: nat, len: nat, pages: nat)
    requires Sound(m) && ReadRest(m, ft, nro, len, pages).0.Ready?
    ensures Evolves(m, ReadRest(m, ft, nro, len, pages).0.m, ft)
    decreases pages
  {
    hide Sound, PaginaEnTabla, ReadChunk, Evolves, FrameData;
    if pages == 0 {
      EvolvesSelf(m, ft);
    } else {
      var id := PageId(ft, nro);
      PaginaEvolves(m, id);
      var m1 := PaginaEnTabla(m, id).m;
      ReadEvolves(m1, id);
      EvolvesChain(m, m1, ReadChunk(m1, id), ft);
      var n := Least(len, m.tam);
      ReadRestEvolves(ReadChunk(m1, id), ft, nro + 1, len - n, pages - 1);
      EvolvesChain(m, ReadChunk(m1, id), ReadRest(m, ft, nro, len, pages).0.m, ft);
    }
  }

  lemma EscribirEvolves(m: Mem, id: PageId, off: nat, text: string)
    requires Sound(m) && Present(m, id) && off < m.tam && Escribir(m, id, off, text).Ready?
    ensures Evolves(m, Escribir(m, id, off, text).m, id.ft)
  {
    hide Sound, WriteChunk, WriteRest, PagesAfterFirst, First, After, Evolves;
    if |text| <= m.tam - off {
      WriteEvolves(m, id, off, text);
    } else {
      var esp := m.tam - off;
      WriteEvolves(m, id, off, First(text, esp));
      var m1 := WriteChunk(m, id, off, First(text, esp));
      WriteRestEvolves(m1, id.ft, id.nro + 1, After(text, esp), PagesAfterFirst(|text|, m.tam));
      EvolvesChain(m, m1, Escribir(m, id, off, text).m, id.ft);
    }
  }

  lemma LeerEvolves(m: Mem, id: PageId, off: nat, len: nat)
    requires Sound(m) && Present(m, id) && off < m.tam && Leer(m, id, off, len).0.Ready?
    ensures Evolves(m, Leer(m, id, off, len).0.m, id.ft)
  {
    hide Sound, ReadChunk, ReadRest, PagesAfterFirst, Evolves, FrameData;
    ReadEvolves(m, id);
    if len > m.tam - off {
      var esp := m.tam - off;
      var m1 := ReadChunk(m, id);
      ReadRestEvolves(m1, id.ft, id.nro + 1, len - esp, PagesAfterFirst(len, m.tam));
      EvolvesChain(m, m1, Leer(m, id, off, len).0.m, id.ft);
    }
  }

  lemma CopiesEvolve(m: Mem, i: Instr)
    requires Sound(m) && (i.WRITE? || i.READ?) && Exec(m, i).Done?
    ensures Evolves(m, Exec(m, i).m, i.ft)
  {
    hide Sound, PaginaEnTabla, Escribir, Leer, NeededBlocks, Remainder, KeepsSlack;
    SoundTam(m);
    var id := PageId(i.ft, NeededBlocks(m.tam, i.base));
    PaginaEvolves(m, id);
    var r := PaginaEnTabla(m, id);
    if r.Ready? {
      var off := Remainder(m.tam, i.base);
      if i.WRITE? {
        EscribirEvolves(r.m, id, off, i.text);
      } else {
        LeerEvolves(r.m, id, off, i.len);
      }
      hide Evolves;
      EvolvesChain(m, r.m, Exec(m, i).m, id.ft);
    }
  }

  lemma EvolvesSlack(m: Mem, r: Mem, ft: FileTag)
    requires Evolves(m, r, ft)
    ensures KeepsSlack(m, r)
  {
  }

  // ---------------------------------------------------------------- FLUSH, TRUNCATE, DELETE

  lemma {:induction false} FlushFromSlack(m: Mem, ft: FileTag, j: nat)
    requires Sound(m) && ft in m.tables
    ensures KeepsSlack(m, FlushFrom(m, ft, j))
    decreases m.tables[ft].size - j
  {
    hide Sound, FlushOne, KeepsSlack;
    if j < m.tables[ft].size {
      PagesInTables(m);
      assert HasPage(m, PageId(ft, j));
      var m1 := FlushOne(m, PageId(ft, j));
      FlushFromSlack(m1, ft, j + 1);
      FlushSlack(m, m1, FlushFrom(m1, ft, j + 1));
    } else {
      SlackSelf(m);
    }
  }

  lemma SlackSelf(m: Mem)
    ensures KeepsSlack(m, m)
  {
  }

  lemma FlushKeeps(m: Mem, ft: FileTag)
    requires Sound(m)
    ensures KeepsSlack(m, Flush(m, ft))
  {
    hide Sound, KeepsSlack, FlushFrom;
    SlackSelf(m);
    if ft in m.tables { FlushFromSlack(m, ft, 0); }
  }

  /** A request changes Storage only. */
  lemma RequestKeeps(m: Mem, m1: Mem, op: Op)
    requires Sound(m) && Sound(m1) && KeepsSlack(m, m1) && 0 < m.tam
    ensures KeepsSlack(m, Request(m1, op).m)
  {
    SrvSound(m1, MapStep(m1.tam, m1.srv, op).0);
    hide Sound, MapStep, Resident;
  }

  lemma TruncateKeeps(m: Mem, ft: FileTag, size: nat, answer: Answer)
    requires Sound(m) && TruncateTable(m, ft, size, answer).Done?
    ensures Evolves(m, TruncateTable(m, ft, size, answer).m, ft)
  {
    hide Sound, LoadTable, RefreshTable, NeededBlocks, Evolves;
    SoundLinked(m);
    LoadEvolves(m, ft);
    var m1 := LoadTable(m, ft).m;
    if NeededBlocks(m.tam, size) != m1.tables[ft].cantidad {
      SoundLinked(m1);
      RefreshEvolves(m1, ft);
      EvolvesChain(m, m1, RefreshTable(m1, ft).m, ft);
    }
  }

  lemma DropKeeps(m: Mem, ft: FileTag)
    requires Sound(m)
    ensures KeepsSlack(m, DropPages(m, ft))
  {
    SlackSelf(m);
    if ft in m.tables { DropPagesSound(m, ft); }
    hide Sound, KeepsSlack, FreeFrom;
  }

  // ---------------------------------------------------------------- every instruction, every run

  /** Whatever the instruction and whatever Storage answers, a table that survives counts what it
      counted beyond its resident pages, and one that goes had none. */
  lemma ExecKeepsSlack(m: Mem, i: Instr)
    requires Sound(m) && Exec(m, i).Done?
    ensures KeepsSlack(m, Exec(m, i).m)
  {
    hide Sound, KeepsSlack, Flush, DropPages, TruncateTable, WriteAt, ReadAt, MapStep, AdjustedSize;
    SoundTam(m);
    SlackSelf(m);
    match i
    case CREATE(ft) => RequestKeeps(m, m, Create(ft));
    case TAG(src, ft) => RequestKeeps(m, m, Tag(src, ft));
    case COMMIT(ft) => FlushKeeps(m, ft); RequestKeeps(m, Flush(m, ft), Commit(ft));
    case FLUSH(ft) => FlushKeeps(m, ft);
    case DELETE(ft) => DropKeeps(m, ft); RequestKeeps(m, DropPages(m, ft), Delete(ft));
    case TRUNCATE(ft, size) => TruncateSlack(m, ft, size);
    case WRITE(ft, _, _) => CopiesEvolve(m, i); EvolvesSlack(m, Exec(m, i).m, ft);
    case READ(ft, _, _) => CopiesEvolve(m, i); EvolvesSlack(m, Exec(m, i).m, ft);
    case END =>
  }

  lemma TruncateSlack(m: Mem, ft: FileTag, size: nat)
    requires Sound(m) && 0 < m.tam && Exec(m, TRUNCATE(ft, size)).Done?
    ensures KeepsSlack(m, Exec(m, TRUNCATE(ft, size)).m)
  {
    hide Sound, TruncateTable, MapStep, AdjustedSize, Resident;
    var s := AdjustedSize(m.tam, size);
    var r := Request(m, Truncate(ft, s));
    SrvSound(m, r.m.srv);
    TruncateKeeps(r.m, ft, s, r.answer);
    EvolvesSlack(r.m, Exec(m, TRUNCATE(ft, size)).m, ft);
    hide Evolves;
    SameSlackAfter(m, r.m, Exec(m, TRUNCATE(ft, size)).m);
  }

  /** `ft` has a table in every state of the run. */
  ghost predicate Lives(m: Mem, prog: seq<Instr>, pc: nat, stop: nat, ft: FileTag)
    requires Sound(m)
    decreases |prog| - pc
  {
    hide Sound, Exec;
    && ft in m.tables
    && (pc < |prog| && Exec(m, prog[pc]).Done? ==>
          && ft in Exec(m, prog[pc]).m.tables
          && (!prog[pc].END? && !Exec(m, prog[pc]).answer.Refused? && !Exec(m, prog[pc]).m.reported
              && pc + 1 != stop ==>
                Lives(Exec(m, prog[pc]).m, prog, pc + 1, stop, ft)))
  }

  /** Over a whole run, a table that lives through it keeps its slack. */
  lemma {:induction false} RunKeepsSlack(m: Mem, prog: seq<Instr>, pc: nat, stop: nat, ft: FileTag)
    requires Sound(m) && Lives(m, prog, pc, stop, ft)
    ensures var r := RunFrom(m, prog, pc, stop).m; ft in r.tables && Slack(r, ft) == Slack(m, ft)
    decreases |prog| - pc
  {
    hide Sound, Exec, Slack;
    if pc < |prog| {
      var e := Exec(m, prog[pc]);
      if e.Done? {
        ExecKeepsSlack(m, prog[pc]);
        SlackOf(m, e.m, ft);
        ConsultedSound(e.m);
        SlackOf(e.m, e.m.(reported := false), ft);
        if !prog[pc].END? && !e.answer.Refused? && !e.m.reported && pc + 1 != stop {
          RunKeepsSlack(e.m, prog, pc + 1, stop, ft);
        }
      }
    }
  }

  lemma SlackOf(m: Mem, r: Mem, ft: FileTag)
    requires KeepsSlack(m, r) && ft in m.tables && ft in r.tables
    ensures Slack(r, ft) == Slack(m, ft)
  {
  }
}
