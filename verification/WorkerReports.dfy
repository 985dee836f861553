/** A write-back that Storage refuses, on any memory: the page is clean all the same, the Master is
    told, and the query ends at its next consult. */
module WorkerReports {
  import opened StorageModel
  import opened StorageSpec
  import opened WorkerModel
  import opened WorkerFrames
  import opened WorkerAccess
  import opened WorkerView
  import opened WorkerReference
  import opened WorkerInstructions
  import opened WorkerFlush
  import opened WorkerQueries
  import opened WorkerSearch

  // ---------------------------------------------------------------- an eviction

  /** The Master is told of an eviction exactly when the victim is modified and Storage does not take
      its page. */
  lemma EvictReports(m: Mem, f: nat, incoming: FileTag)
    requires Sound(m) && f < |m.bits| && m.bits[f]
    ensures HoldsPage(m, f)
    ensures var (r, id) := (Evict(m, f, incoming), m.marcos[f].page);
      && (r.reported <==> m.reported || (m.pages[id].modificado && !Accepts(m, id)))
      && (id in r.pages ==> !r.pages[id].modificado && !r.pages[id].presencia)
  {
    hide Evict, Accepts, CountsAhead, DirtyResident, FramesWhole;
    SoundLinked(m);
    EvictPages(m, f, incoming);
    WriteBackEffect(m, f);
    assert HoldsPage(m, f);
    hide Linked, WriteBack;
    var id := m.marcos[f].page;
    var r := Evict(m, f, incoming);
    assert !Present(r, id);
  }

  // ---------------------------------------------------------------- a FLUSH

  /** A dirty page goes to its block if Storage takes it, and nowhere otherwise. */
  lemma FlushOneExact(m: Mem, id: PageId)
    requires Sound(m) && id in m.pages
    ensures var r := FlushOne(m, id);
      && !r.pages[id].modificado && r.marcos == m.marcos && r.bits == m.bits
      && r.pages == m.pages[id := m.pages[id].(modificado := false)]
      && SameHeaders(m.srv, r.srv)
      && (r.reported <==> m.reported || (m.pages[id].modificado && !Accepts(m, id)))
      && (m.pages[id].modificado && Accepts(m, id) ==> Stored(r, id) == PageView(m, id))
      && (forall x :: x != id ==> Stored(r, x) == Stored(m, x))
      && (!(m.pages[id].modificado && Accepts(m, id)) ==> r.srv == m.srv)
  {
    hide Linked, CountsAhead, FramesWhole, KeepsSlack, WriteBack;
    SoundLinked(m);
    if m.pages[id].modificado {
      assert Present(m, id);
      var f := FrameOf(m, id);
      WriteBackEffect(m, f);
      assert m.tam > 0 by { assert Linked(m); SizePositive(m); }
      StoreWrite(m.tam, m.srv, id, m.marcos[f].data);
      hide MapStep;
    } else {
      assert m.pages[id := m.pages[id].(modificado := false)] == m.pages;
    }
  }

  lemma SizePositive(m: Mem)
    requires Linked(m)
    ensures 0 < m.tam
  {
  }

  lemma SameAccepts(m: Mem, r: Mem)
    requires SameHeaders(m.srv, r.srv)
    ensures forall id :: Accepts(r, id) <==> Accepts(m, id)
  {
  }

  /** A page of the file, from number `j` on, that Storage will not take. */
  ghost predicate SomeRefused(m: Mem, ft: FileTag, j: nat) {
    exists id: PageId :: id in m.pages && id.ft == ft && id.nro >= j && m.pages[id].modificado && !Accepts(m, id)
  }

  lemma RefusedFrom(m: Mem, r: Mem, ft: FileTag, j: nat)
    requires PageId(ft, j) in m.pages && PageId(ft, j) in r.pages && SameHeaders(m.srv, r.srv)
    requires r.pages == m.pages[PageId(ft, j) := r.pages[PageId(ft, j)]]
    ensures SomeRefused(m, ft, j) <==>
      SomeRefused(r, ft, j + 1) || (m.pages[PageId(ft, j)].modificado && !Accepts(m, PageId(ft, j)))
  {
    SameAccepts(m, r);
    hide Accepts, SameHeaders;
    var first := PageId(ft, j);
    if SomeRefused(m, ft, j) {
      var id: PageId :| id in m.pages && id.ft == ft && id.nro >= j && m.pages[id].modificado && !Accepts(m, id);
      if id.nro == j { assert id == first; } else { assert r.pages[id] == m.pages[id]; }
    }
    if SomeRefused(r, ft, j + 1) {
      var id: PageId :| id in r.pages && id.ft == ft && id.nro >= j + 1 && r.pages[id].modificado && !Accepts(r, id);
      assert r.pages[id] == m.pages[id];
    }
  }

  lemma {:induction false} FlushFromExact(m: Mem, ft: FileTag, j: nat)
    requires Sound(m) && ft in m.tables
    ensures var r := FlushFrom(m, ft, j);
      && (r.reported <==> m.reported || SomeRefused(m, ft, j)) && SameHeaders(m.srv, r.srv)
      && (forall id :: id in m.pages && !(id.ft == ft && id.nro >= j) ==> r.pages[id] == m.pages[id])
      && (forall id :: id in m.pages && id.ft == ft && id.nro >= j ==>
            r.pages[id] == m.pages[id].(modificado := false))
    decreases m.tables[ft].size - j
  {
    hide Sound, FlushOne, Accepts, SameHeaders, KeepsSlack, SomeRefused;
    PagesInTables(m);
    if j >= m.tables[ft].size {
      NoneBeyond(m, ft, j);
    } else {
      var id := PageId(ft, j);
      assert HasPage(m, id);
      var m1 := FlushOne(m, id);
      FlushOneExact(m, id);
      FlushFromExact(m1, ft, j + 1);
      RefusedFrom(m, m1, ft, j);
      HeadersChain(m.srv, m1.srv, FlushFrom(m, ft, j).srv);
    }
  }

  lemma NoneBeyond(m: Mem, ft: FileTag, j: nat)
    requires forall id :: id in m.pages ==> HasPage(m, id)
    requires ft in m.tables && j >= m.tables[ft].size
    ensures !SomeRefused(m, ft, j) && SameHeaders(m.srv, m.srv)
    ensures forall id: PageId :: id in m.pages && id.ft == ft ==> id.nro < j
  {
    hide Accepts;
  }

  lemma HeadersChain(a: FileMap, b: FileMap, c: FileMap)
    requires SameHeaders(a, b) && SameHeaders(b, c)
    ensures SameHeaders(a, c)
  {
  }

  /** FLUSH leaves every page of the file clean, whatever Storage answers, and changes no other page;
      the Master is told exactly when Storage refused one of them. */
  lemma FlushExact(m: Mem, ft: FileTag)
    requires Sound(m)
    ensures var r := Flush(m, ft);
      && (forall id :: id in m.pages ==>
            r.pages[id] == if id.ft == ft then m.pages[id].(modificado := false) else m.pages[id])
      && (r.reported <==> m.reported || SomeRefused(m, ft, 0))
  {
    hide Sound, FlushFrom, Accepts, SameHeaders;
    PagesInTables(m);
    if ft in m.tables {
      FlushFromExact(m, ft, 0);
    } else {
      assert forall id :: id in m.pages ==> id.ft != ft;
    }
  }

  // ---------------------------------------------------------------- the query

  /** An instruction after which the Master has been told of a refusal is the last of its query, which
      ends in error, and the Master is told of nothing twice. */
  lemma ReportEndsQuery(m: Mem, prog: seq<Instr>, pc: nat, stop: nat)
    requires Sound(m) && pc < |prog| && !prog[pc].END? && Exec(m, prog[pc]).Done? && Exec(m, prog[pc]).m.reported
    ensures var (r, e) := (RunFrom(m, prog, pc, stop), Exec(m, prog[pc]));
      && r.trace == [(pc, e.answer)] && r.ending == Failed && r.pc == pc + 1
      && !r.m.reported && r.m == e.m.(reported := false)
  {
    hide Sound, Exec, RunFrom;
    RunNext(m, prog, pc, stop);
  }
}
