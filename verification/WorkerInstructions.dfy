/** The interpreter: what each instruction does to the Worker's memory and to Storage. */
module WorkerInstructions {
  import opened StorageModel
  import opened StorageSpec
  import opened FlatFile
  import opened WorkerModel
  import opened WorkerFrames
  import opened WorkerAccess
  import opened WorkerCopies
  import opened WorkerReference

  datatype Effect = Done(m: Mem, answer: Answer) | Stop

  function Request(m: Mem, op: Op): (r: Effect)
    requires Sound(m)
    ensures r.Done? && Sound(r.m) && r.m.tam == m.tam
  {
    SrvSound(m, MapStep(m.tam, m.srv, op).0);
    Done(m.(srv := MapStep(m.tam, m.srv, op).0), AnswerOf(MapStep(m.tam, m.srv, op).1))
  }

  // ---------------------------------------------------------------- FLUSH

  /** One page, if it is resident and dirty, goes to Storage and becomes clean. */
  function FlushOne(m: Mem, id: PageId): (r: Mem)
    requires Sound(m) && id in m.pages
    ensures Sound(r) && KeepsSlack(m, r) && r.tables == m.tables && r.pages.Keys == m.pages.Keys && r.tam == m.tam
  {
    var p := m.pages[id];
    if p.modificado && p.presencia then
      var m1 := WriteBack(m, FrameOf(m, id));
      WriteBackSound(m, FrameOf(m, id));
      var r := m1.(pages := m1.pages[id := p.(modificado := false)]);
      PageEditSound(m1, r, id, FrameOf(m, id));
      FlushSlack(m, m1, r);
      r
    else m
  }

  lemma FlushSlack(a: Mem, b: Mem, c: Mem)
    requires KeepsSlack(a, b) && KeepsSlack(b, c) && a.tables == b.tables && c.tables == a.tables
    ensures KeepsSlack(a, c)
  {
    hide Resident;
  }

  /** The loop over the page table. */
  function FlushFrom(m: Mem, ft: FileTag, j: nat): (r: Mem)
    requires Sound(m) && ft in m.tables
    ensures Sound(r) && r.tables == m.tables && r.pages.Keys == m.pages.Keys && r.tam == m.tam
    decreases m.tables[ft].size - j
  {
    if j >= m.tables[ft].size then m
    else
      assert HasPage(m, PageId(ft, j));
      FlushFrom(FlushOne(m, PageId(ft, j)), ft, j + 1)
  }

  function Flush(m: Mem, ft: FileTag): (r: Mem)
    requires Sound(m)
    ensures Sound(r) && r.tables == m.tables && r.pages.Keys == m.pages.Keys && r.tam == m.tam
  {
    if ft in m.tables then FlushFrom(m, ft, 0) else m
  }

  // ---------------------------------------------------------------- DELETE

  /** A present page's frame is freed; its modified bit is left as it was. */
  function FreeOne(m: Mem, id: PageId): (r: Mem)
    requires Linked(m) && id in m.pages && id.ft in m.tables
    ensures Linked(r) && r.pages.Keys == m.pages.Keys && r.tables.Keys == m.tables.Keys
    ensures r.tables[id.ft].size == m.tables[id.ft].size
  {
    var p := m.pages[id];
    var t := m.tables[id.ft];
    if p.presencia then
      assert InFrame(m, id);
      var r := m.(bits := m.bits[p.marco := false], pages := m.pages[id := p.(presencia := false)],
                  tables := m.tables[id.ft := Tabla(t.cantidad - 1, t.size)]);
      FreeLinked(m, r, id);
      r
    else m
  }

  lemma FreeLinked(m: Mem, r: Mem, id: PageId)
    requires Linked(m) && id in m.pages && m.pages[id].presencia && id.ft in m.tables && InFrame(m, id)
    requires var (p, t) := (m.pages[id], m.tables[id.ft]);
      r == m.(bits := m.bits[p.marco := false], pages := m.pages[id := p.(presencia := false)],
              tables := m.tables[id.ft := Tabla(t.cantidad - 1, t.size)])
    ensures Linked(r)
  {
    assert forall x :: HasPage(r, x) <==> HasPage(m, x);
    forall x | x in r.pages && r.pages[x].presencia
      ensures InFrame(r, x)
    {
      assert InFrame(m, x);
    }
    forall f: nat | f < |r.bits| && r.bits[f]
      ensures HoldsPage(r, f)
    {
      assert HoldsPage(m, f);
    }
  }

  /** The loop over the page table, left as soon as the counter is 0. */
  function FreeFrom(m: Mem, ft: FileTag, i: nat): (r: Mem)
    requires Linked(m) && ft in m.tables
    ensures Linked(r) && r.pages.Keys == m.pages.Keys && r.tables.Keys == m.tables.Keys
    decreases m.tables[ft].size - i
  {
    if i >= m.tables[ft].size || m.tables[ft].cantidad == 0 then m
    else
      assert HasPage(m, PageId(ft, i));
      FreeFrom(FreeOne(m, PageId(ft, i)), ft, i + 1)
  }

  /** free_file_tag */
  function DropTable(m: Mem, ft: FileTag): Mem {
    m.(tables := m.tables - {ft}, pages := map id | id in m.pages && id.ft != ft :: m.pages[id])
  }

  /** `r` is `m` without the pages of `ft`, one frame at a time. */
  ghost predicate Freeing(m: Mem, r: Mem, ft: FileTag) {
    && r.marcos == m.marcos && r.srv == m.srv && r.tam == m.tam && r.policy == m.policy && r.hand == m.hand
    && r.clock == m.clock && r.reported == m.reported && r.tables.Keys == m.tables.Keys && r.pages.Keys == m.pages.Keys
    && (forall g :: g in m.tables && g != ft ==> r.tables[g] == m.tables[g])
    && (forall id :: id in m.pages && id.ft != ft ==> r.pages[id] == m.pages[id])
    && ft in r.tables && r.tables[ft].cantidad >= |Resident(r, ft)| && r.tables[ft].size == m.tables[ft].size
  }

  lemma FreeOneStep(m: Mem, r: Mem, id: PageId)
    requires Linked(r) && Freeing(m, r, id.ft) && id in r.pages && id.ft in m.tables
    ensures Freeing(m, FreeOne(r, id), id.ft) && !FreeOne(r, id).pages[id].presencia
    ensures forall x :: x in r.pages && x != id ==> FreeOne(r, id).pages[x] == r.pages[x]
  {
    hide Linked, Resident;
    if r.pages[id].presencia {
      FreedPage(r, id);
      SubsetCard({id}, Resident(r, id.ft));
    }
  }

  lemma FreedPage(r: Mem, id: PageId)
    requires Linked(r) && id in r.pages && id.ft in r.tables && r.pages[id].presencia
    ensures id in Resident(r, id.ft) && Resident(FreeOne(r, id), id.ft) == Resident(r, id.ft) - {id}
  {
  }

  /** Leaving the loop early leaves no resident page behind. */
  lemma {:induction false} FreeFromAll(m: Mem, r: Mem, ft: FileTag, i: nat)
    requires Linked(r) && ft in m.tables && Freeing(m, r, ft)
    requires forall id :: id in r.pages && id.ft == ft && id.nro < i ==> !r.pages[id].presencia
    ensures Freeing(m, FreeFrom(r, ft, i), ft)
    ensures forall id :: id in r.pages && id.ft == ft ==> !FreeFrom(r, ft, i).pages[id].presencia
    decreases r.tables[ft].size - i
  {
    if r.tables[ft].cantidad == 0 {
      assert Resident(r, ft) == {};
      forall id | id in r.pages && id.ft == ft
        ensures !r.pages[id].presencia
      {
        assert id !in Resident(r, ft);
      }
    } else if i >= r.tables[ft].size {
      assert forall id :: id in r.pages ==> HasPage(r, id);
    } else {
      assert HasPage(r, PageId(ft, i));
      FreeOneStep(m, r, PageId(ft, i));
      hide Freeing;
      FreeFromAll(m, FreeOne(r, PageId(ft, i)), ft, i + 1);
    }
  }

  /** The file's pages leave memory with nothing written back. */
  function DropPages(m: Mem, ft: FileTag): (r: Mem)
    requires Sound(m)
    ensures Sound(r) && r.tam == m.tam
  {
    if ft !in m.tables then m
    else
      DropPagesSound(m, ft);
      DropTable(FreeFrom(m, ft, 0), ft)
  }

  lemma DropPagesSound(m: Mem, ft: FileTag)
    requires Sound(m) && ft in m.tables
    ensures Freeing(m, FreeFrom(m, ft, 0), ft)
    ensures var r := DropTable(FreeFrom(m, ft, 0), ft);
      Sound(r) && KeepsSlack(m, r)
  {
    assert Slack(m, ft) >= 0;
    FreeFromAll(m, m, ft, 0);
    hide FreeFrom;
    var z := FreeFrom(m, ft, 0);
    DropTableLinked(z, ft);
    hide Linked, Freeing, DropTable, KeepsSlack;
    DropTableCounts(m, z, ft);
  }

  lemma DropTableCounts(m: Mem, z: Mem, ft: FileTag)
    requires DirtyResident(m) && FramesWhole(m) && CountsAhead(m) && Freeing(m, z, ft)
    requires forall id :: id in z.pages && id.ft == ft ==> !z.pages[id].presencia
    ensures var r := DropTable(z, ft);
      DirtyResident(r) && FramesWhole(r) && CountsAhead(r) && KeepsSlack(m, r)
  {
    var r := DropTable(z, ft);
    ResidentElsewhere(m, r, ft);
    assert Resident(r, ft) == {};
    hide Resident;
    assert forall g :: g in r.tables ==> Slack(r, g) == Slack(m, g);
  }

  lemma DropTableLinked(m: Mem, ft: FileTag)
    requires Linked(m) && ft in m.tables
    requires forall id :: id in m.pages && id.ft == ft ==> !m.pages[id].presencia
    ensures Linked(DropTable(m, ft))
  {
    var r := DropTable(m, ft);
    assert forall x :: HasPage(r, x) <==> HasPage(m, x) && x.ft != ft;
    forall x | x in r.pages && r.pages[x].presencia
      ensures InFrame(r, x)
    {
      assert InFrame(m, x);
    }
    forall f: nat | f < |r.bits| && r.bits[f]
      ensures HoldsPage(r, f)
    {
      assert HoldsPage(m, f);
    }
  }

  // ---------------------------------------------------------------- TRUNCATE

  /** The table is refreshed unless the page count asked for equals the table's counter, which
      is not its length. */
  function TruncateTable(m: Mem, ft: FileTag, size: nat, answer: Answer): (r: Effect)
    requires Sound(m)
    ensures r.Done? ==> Sound(r.m) && r.m.tam == m.tam
  {
    var r := LoadTable(m, ft);
    if r.Exit? then Stop
    else
      LoadTableSound(m, ft);
      if NeededBlocks(m.tam, size) == r.m.tables[ft].cantidad then Done(r.m, answer)
      else
        var r2 := RefreshTable(r.m, ft);
        if r2.Exit? then Stop
        else
          RefreshTableSound(r.m, ft);
          Done(r2.m, answer)
  }

  // ---------------------------------------------------------------- READ and WRITE

  function WriteAt(m: Mem, ft: FileTag, base: nat, text: string): (r: Effect)
    requires Sound(m)
    ensures r.Done? ==> Sound(r.m) && r.m.tam == m.tam
  {
    var id := PageId(ft, NeededBlocks(m.tam, base));
    match PaginaEnTabla(m, id)
    case Exit => Stop
    case Null(m1) => Done(m1, Refused(ErrFueraLimite))
    case Ready(m1) =>
      var r := Escribir(m1, id, Remainder(m.tam, base), text);
      if r.Exit? then Stop else Done(r.m, Ok)
  }

  function ReadAt(m: Mem, ft: FileTag, base: nat, len: nat): (r: Effect)
    requires Sound(m)
    ensures r.Done? ==> Sound(r.m) && r.m.tam == m.tam
  {
    var id := PageId(ft, NeededBlocks(m.tam, base));
    match PaginaEnTabla(m, id)
    case Exit => Stop
    case Null(m1) => Done(m1, Refused(ErrFueraLimite))
    case Ready(m1) =>
      var r := Leer(m1, id, Remainder(m.tam, base), len);
      if r.0.Exit? then Stop else Done(r.0.m, Bytes(r.1))
  }

  // ---------------------------------------------------------------- the interpreter

  /** Frames and pages stay paired whatever the instruction and whatever Storage answers. */
  function Exec(m: Mem, i: Instr): (r: Effect)
    requires Sound(m)
    ensures r.Done? ==> Sound(r.m) && r.m.tam == m.tam
  {
    match i
    case CREATE(ft) => Request(m, Create(ft))
    case COMMIT(ft) => Request(Flush(m, ft), Commit(ft))
    case DELETE(ft) => Request(DropPages(m, ft), Delete(ft))
    case TAG(src, ft) => Request(m, Tag(src, ft))
    case FLUSH(ft) => Done(Flush(m, ft), Ok)
    case TRUNCATE(ft, size) =>
      var r := Request(m, Truncate(ft, AdjustedSize(m.tam, size)));
      TruncateTable(r.m, ft, AdjustedSize(m.tam, size), r.answer)
    case WRITE(ft, base, text) => WriteAt(m, ft, base, text)
    case READ(ft, base, len) => ReadAt(m, ft, base, len)
    case END => Done(m, Ok)
  }
}
