/** Steps of the in-place victim search, related to the search on values. */
module WorkerSearch {
  import opened StorageModel
  import opened FlatFile
  import opened PageReplacement
  import opened WorkerModel
  import opened WorkerFrames
  import opened WorkerAccess
  import opened WorkerCopies
  import opened WorkerReference
  import opened WorkerInstructions
  import opened WorkerFlush
  import opened WorkerQueries

  /** A memory with no tables. */
  lemma EmptyLinked(m: Mem)
    requires 0 < |m.marcos| == |m.bits| && m.hand < |m.marcos| && 0 < m.tam && m.pages == map[] && m.tables == map[]
    requires forall f: nat :: f < |m.bits| ==> !m.bits[f]
    ensures Linked(m)
  {
    assert forall id :: !HasPage(m, id);
  }

  lemma MarksAfter(m: Mem, marks: seq<Mark>)
    requires Linked(m) && AllBusy(m) && |marks| == |m.marcos|
    requires forall f :: 0 <= f < |marks| ==> marks[f].modificado == Marks(m)[f].modificado
    ensures var r := SetUse(m, marks);
      Marks(r) == marks && AllBusy(r) && SetUse(r, marks) == r && r == m.(pages := r.pages)
  {
    var r := SetUse(m, marks);
    forall f | 0 <= f < |marks|
      ensures Marks(r)[f] == marks[f]
    {
      assert HoldsPage(m, f);
    }
    SetUseNothing(r);
  }

  lemma SetUsePages(m: Mem, marks: seq<Mark>)
    requires Linked(m) && |marks| == |m.marcos|
    ensures SetUse(m, marks) == m.(pages := SetUse(m, marks).pages)
  {
  }

  /** Neither search finds a victim the first time round. */
  ghost predicate SecondRoundNeeded(m: Mem)
    requires 0 < |m.marcos| && m.hand < |m.marcos|
  {
    CleanPass(Marks(m), m.hand, 0) == |m.marcos| && DirtyPass(Marks(m), m.hand, 0) == |m.marcos|
  }

  /** The memory the second round starts from: every use bit is clear. */
  ghost function Round1(m: Mem): Mem
    requires Linked(m)
  {
    SetUse(m, Cleared(Marks(m), m.hand, |m.marcos|))
  }

  /** One turn of both searches from `m` to `r`. */
  ghost predicate Turn(m: Mem, r: Mem, find: bool, seen: nat)
    requires Linked(m)
  {
    var (marks, n) := (Marks(m), |m.marcos|);
    var (clean, dirty) := (CleanPass(marks, m.hand, 0), DirtyPass(marks, m.hand, 0));
    && r == m.(pages := r.pages, hand := r.hand) && find == (clean < n || dirty < n)
    && if clean < n then r.pages == m.pages && r.hand == At(n, m.hand, clean) && seen == clean + 1
       else
         && r.pages == SetUse(m, Cleared(marks, m.hand, dirty)).pages && r.hand == At(n, m.hand, dirty)
         && seen == n + if find then dirty + 1 else dirty
  }

  lemma FirstTurn(m: Mem)
    requires Linked(m) && AllBusy(m)
    ensures m.hand < |m.marcos| == |m.bits|
    ensures |ClockM(Marks(m), m.hand).marks| == |m.marcos| && ClockM(Marks(m), m.hand).inspections <= 3 * |m.marcos| + 1
  {
    ClockMChoice(Marks(m), m.hand);
  }

  /** Where the search ends in the first turn. */
  lemma ScanCases(m: Mem)
    requires Linked(m) && AllBusy(m)
    ensures m.hand < |m.marcos| == |m.bits|
    ensures var (n, marks, scan) := (|m.marcos|, Marks(m), ClockM(Marks(m), m.hand));
      var (clean, dirty) := (CleanPass(marks, m.hand, 0), DirtyPass(marks, m.hand, 0));
      && |scan.marks| == n && SetUse(m, marks) == m && SetUse(m, scan.marks) == m.(pages := SetUse(m, scan.marks).pages)
      && (clean < n ==> scan == Scan(At(n, m.hand, clean), marks, clean + 1))
      && (clean == n && dirty < n ==>
            scan == Scan(At(n, m.hand, dirty), Cleared(marks, m.hand, dirty), n + dirty + 1))
      && (clean == n && dirty == n ==> SecondRoundNeeded(m) && At(n, m.hand, n) == m.hand)
  {
    ClockMChoice(Marks(m), m.hand);
    SetUseNothing(m);
    SetUsePages(m, ClockM(Marks(m), m.hand).marks);
    hide SetUse, Linked, AllBusy, Marks;
  }

  lemma AfterFirstTurn(m: Mem, r: Mem, find: bool, seen: nat)
    requires Linked(m) && AllBusy(m) && Turn(m, r, find, seen) && m.hand < |m.marcos| == |m.bits|
    ensures var scan := ClockM(Marks(m), m.hand);
      && |scan.marks| == |m.marcos|
      && if find then r.hand == scan.victim && r.pages == SetUse(m, scan.marks).pages && seen == scan.inspections
         else SecondRoundNeeded(m) && r == Round1(m) && seen == 2 * |m.marcos|
  {
    hide SetUse, Marks, Linked, AllBusy, CleanPass, DirtyPass, Cleared, ClockM, SecondRoundNeeded, At;
    ScanCases(m);
    SetUsePages(m, Cleared(Marks(m), m.hand, |m.marcos|));
  }

  /** The second turn: a clean page, or else the page under the hand. */
  lemma SecondSearch(m: Mem)
    requires Linked(m) && AllBusy(m) && SecondRoundNeeded(m)
    ensures var (n, m1, scan) := (|m.marcos|, Round1(m), ClockM(Marks(m), m.hand));
      var clean := CleanPass(Marks(m1), m.hand, 0);
      && Linked(m1) && AllBusy(m1) && m1 == m.(pages := m1.pages)
      && |scan.marks| == n && m1 == SetUse(m, scan.marks)
      && (clean < n ==> scan.victim == At(n, m.hand, clean) && scan.inspections == 2 * n + clean + 1)
      && (clean == n ==>
            && scan.victim == m.hand && scan.inspections == 3 * n + 1 && DirtyPass(Marks(m1), m.hand, 0) == 0
            && SetUse(m1, Cleared(Marks(m1), m.hand, 0)) == m1)
  {
    var (marks, n) := (Marks(m), |m.marcos|);
    ClearedKeepsModified(marks, m.hand, n);
    var marks1 := Cleared(marks, m.hand, n);
    MarksAfter(m, marks1);
    hide SetUse, Marks, Linked;
    if CleanPass(marks1, m.hand, 0) == n {
      assert !CleanUnused(marks1[At(n, m.hand, 0)]);
    }
  }

  lemma AfterSecondTurn(m: Mem, r: Mem, find: bool, seen: nat)
    requires Linked(m) && AllBusy(m) && SecondRoundNeeded(m) && Turn(Round1(m), r, find, seen)
    ensures var scan := ClockM(Marks(m), m.hand);
      && find && |scan.marks| == |m.marcos| && r.hand == scan.victim && r.pages == SetUse(m, scan.marks).pages
      && 2 * |m.marcos| + seen == scan.inspections
  {
    SecondSearch(m);
    hide SetUse, Marks, Linked, AllBusy, Cleared, SecondRoundNeeded, ClockM, Round1;
  }

  lemma EvictUnderHand(m: Mem, hand: nat, f: nat, nuevo: FileTag)
    requires Linked(m) && hand < |m.marcos| && f < |m.bits| && m.bits[f]
    ensures Linked(m.(hand := hand))
    ensures Evict(m.(hand := hand), f, nuevo) == Evict(m, f, nuevo).(hand := hand)
  {
    var n := m.(hand := hand);
    SamePlacementLinked(m, n);
    EvictIs(m, f, nuevo);
    EvictIs(n, f, nuevo);
    hide Linked, HoldsPage, Evict;
    var m1 := if m.pages[m.marcos[f].page].modificado then WriteBack(m, f) else m;
    WriteUnderHand(m, hand, f);
    UnloadUnderHand(m1, hand, f);
    CheckUnderHand(Unload(m1, f), hand, m.marcos[f].page.ft, nuevo);
  }

  lemma WriteUnderHand(m: Mem, hand: nat, f: nat)
    requires f < |m.marcos| && 0 < m.tam
    ensures WriteBack(m.(hand := hand), f) == WriteBack(m, f).(hand := hand)
  {
  }

  lemma UnloadUnderHand(m: Mem, hand: nat, f: nat)
    requires f < |m.bits| && HoldsPage(m, f)
    ensures HoldsPage(m.(hand := hand), f) && Unload(m.(hand := hand), f) == Unload(m, f).(hand := hand)
  {
  }

  lemma CheckUnderHand(m: Mem, hand: nat, ft: FileTag, nuevo: FileTag)
    requires ft in m.tables
    ensures CheckFileTag(m.(hand := hand), ft, nuevo) == CheckFileTag(m, ft, nuevo).(hand := hand)
  {
  }

  lemma VictimBusy(m: Mem)
    requires Linked(m) && AllBusy(m)
    ensures m.hand < |m.marcos| == |m.bits|
    ensures var scan := ClockM(Marks(m), m.hand);
      && |scan.marks| == |m.marcos| && scan.victim < |m.bits| && m.bits[scan.victim]
      && SetUse(m, scan.marks).bits == m.bits && SetUse(m, scan.marks).marcos == m.marcos
  {
    ClockMChoice(Marks(m), m.hand);
  }

  lemma NewPagesNext(pages: map<PageId, Pagina>, ft: FileTag, from: nat, i: nat)
    requires from <= i
    ensures pages + NewPages(ft, from, i + 1) ==
      (pages + NewPages(ft, from, i))[PageId(ft, i) := Pagina(-1, false, false, false)]
  {
  }

  lemma NewPagesNone(pages: map<PageId, Pagina>, ft: FileTag, from: nat)
    ensures pages + NewPages(ft, from, from) == pages
  {
  }

  lemma DropToNext(m: Mem, ft: FileTag, size: nat)
    requires Linked(m) && ft in m.tables && m.tables[ft].size > size
    ensures var r := DropLast(m, ft); DropTo(m, ft, size) == if r.Exit? then Exit else DropTo(r.m, ft, size)
  {
  }

  lemma DropToDone(m: Mem, ft: FileTag, size: nat)
    requires Linked(m) && ft in m.tables && m.tables[ft].size <= size
    ensures DropTo(m, ft, size) == Ready(m)
  {
  }

  // ---------------------------------------------------------------- one step of a copy loop

  lemma FirstIsTake(text: string, n: nat)
    ensures n <= |text| ==> First(text, n) == text[..n] && After(text, n) == text[n..]
    ensures |text| <= n ==> First(text, n) == text[..|text|] && After(text, n) == text[|text|..]
  {
  }

  lemma WriteRestNext(m: Mem, ft: FileTag, nro: nat, text: string, pages: nat)
    requires Sound(m) && 0 < pages
    ensures var r := PaginaEnTabla(m, PageId(ft, nro));
      WriteRest(m, ft, nro, text, pages) ==
        if !r.Ready? then Exit
        else WriteRest(WriteChunk(r.m, PageId(ft, nro), 0, First(text, m.tam)), ft, nro + 1, After(text, m.tam),
          pages - 1)
  {
    hide Sound, PaginaEnTabla, WriteChunk, First, After;
  }

  lemma WriteRestDone(m: Mem, ft: FileTag, nro: nat, text: string)
    requires Sound(m)
    ensures WriteRest(m, ft, nro, text, 0) == Ready(m)
  {
  }

  lemma ReadRestNext(m: Mem, ft: FileTag, nro: nat, len: nat, pages: nat)
    requires Sound(m) && 0 < pages
    ensures var r := PaginaEnTabla(m, PageId(ft, nro));
      var n := Least(len, m.tam);
      if !r.Ready? then ReadRest(m, ft, nro, len, pages) == (Exit, "")
      else
        var rest := ReadRest(ReadChunk(r.m, PageId(ft, nro)), ft, nro + 1, len - n, pages - 1);
        ReadRest(m, ft, nro, len, pages) == (rest.0, FrameData(r.m, PageId(ft, nro))[..n] + rest.1)
  {
    hide Sound, PaginaEnTabla, ReadChunk, FrameData;
  }

  lemma ReadRestDone(m: Mem, ft: FileTag, nro: nat, len: nat)
    requires Sound(m)
    ensures ReadRest(m, ft, nro, len, 0) == (Ready(m), "")
  {
  }

  // ---------------------------------------------------------------- one step of a table loop

  lemma FlushFromNext(m: Mem, ft: FileTag, j: nat)
    requires Sound(m) && ft in m.tables && j < m.tables[ft].size
    ensures PageId(ft, j) in m.pages && FlushFrom(m, ft, j) == FlushFrom(FlushOne(m, PageId(ft, j)), ft, j + 1)
  {
    PagesInTables(m);
    assert HasPage(m, PageId(ft, j));
    hide Sound, FlushOne;
  }

  lemma FlushFromDone(m: Mem, ft: FileTag, j: nat)
    requires Sound(m) && ft in m.tables && j >= m.tables[ft].size
    ensures FlushFrom(m, ft, j) == m
  {
    hide Sound, FlushOne;
  }

  lemma FreeFromNext(m: Mem, ft: FileTag, i: nat)
    requires Linked(m) && ft in m.tables
    ensures if i >= m.tables[ft].size || m.tables[ft].cantidad == 0 then FreeFrom(m, ft, i) == m
      else PageId(ft, i) in m.pages && FreeFrom(m, ft, i) == FreeFrom(FreeOne(m, PageId(ft, i)), ft, i + 1)
  {
    if i < m.tables[ft].size { assert HasPage(m, PageId(ft, i)); }
  }

  lemma {:induction false} FlushAllNext(m: Mem, order: seq<FileTag>, ft: FileTag)
    requires Sound(m)
    ensures FlushAll(m, order + [ft]) == Flush(FlushAll(m, order), ft)
    decreases |order|
  {
    hide Sound, Flush;
    if order == [] {
      assert [ft][1..] == [];
    } else {
      assert (order + [ft])[1..] == order[1..] + [ft];
      FlushAllNext(Flush(m, order[0]), order[1..], ft);
    }
  }

  /** One turn of the instruction loop. */
  lemma RunNext(m: Mem, prog: seq<Instr>, pc: nat, stop: nat)
    requires Sound(m) && pc < |prog|
    ensures var e := Exec(m, prog[pc]);
      RunFrom(m, prog, pc, stop) ==
        if e.Stop? then Run([], m, pc, Crashed)
        else if prog[pc].END? then Run([(pc, e.answer)], e.m, pc, Ended)
        else if e.answer.Refused? || e.m.reported then Run([(pc, e.answer)], e.m.(reported := false), pc + 1, Failed)
        else if pc + 1 == stop then Run([(pc, e.answer)], e.m, pc + 1, Interrupted)
        else
          var rest := RunFrom(e.m, prog, pc + 1, stop);
          rest.(trace := [(pc, e.answer)] + rest.trace)
  {
    hide Sound, Exec;
  }

  lemma RunDone(m: Mem, prog: seq<Instr>, pc: nat, stop: nat)
    requires Sound(m) && pc >= |prog|
    ensures RunFrom(m, prog, pc, stop) == Run([], m, pc, Exhausted)
  {
    hide Sound;
  }

  /** The page an address falls in, with the C code's division. */
  function PageNumber(tam: nat, base: nat): (n: nat)
    requires 0 < tam
    ensures n == NeededBlocks(tam, base)
  {
    CountsAreQuotients(base, tam);
    base / tam
  }

  lemma FramesFit(memoria: nat, tam: nat)
    requires 0 < tam <= memoria
    ensures 0 < memoria / tam
  {
    DivModOf(memoria, tam);
    if memoria / tam <= 0 { MulMono(memoria / tam, 0, tam); }
  }

  lemma SetUseNothing(m: Mem)
    requires Linked(m) && AllBusy(m)
    ensures m.hand < |m.marcos| == |m.bits|
    ensures SetUse(m, Marks(m)) == m && Cleared(Marks(m), m.hand, 0) == Marks(m)
  {
    var r := SetUse(m, Marks(m));
    forall id | id in m.pages
      ensures r.pages[id] == m.pages[id]
    {
      if m.pages[id].presencia { assert InFrame(m, id); }
    }
    assert r.pages == m.pages;
  }

  /** The page under the hand after `i` steps, and clearing its use bit. */
  lemma SetUseAt(m: Mem, i: nat)
    requires Linked(m) && AllBusy(m) && i < |m.marcos|
    ensures var marks := Marks(m);
      var f := At(|marks|, m.hand, i);
      var id := m.marcos[f].page;
      var before := SetUse(m, Cleared(marks, m.hand, i)).pages;
      && HoldsPage(m, f) && id in before && before[id] == m.pages[id]
      && marks[f] == Mark(m.pages[id].uso, m.pages[id].modificado)
      && SetUse(m, Cleared(marks, m.hand, i + 1)).pages == before[id := before[id].(uso := false)]
  {
    var marks := Marks(m);
    var f := At(|marks|, m.hand, i);
    var c := Cleared(marks, m.hand, i);
    SetUseOne(m, c, f);
    SetUsePage(m, c, f);
    hide SetUse, Linked, Marks;
  }

  /** The scan has not cleared the frame's own bit yet. */
  lemma SetUsePage(m: Mem, c: seq<Mark>, f: nat)
    requires Linked(m) && |c| == |m.marcos| && f < |m.bits| && m.bits[f] && c[f] == Marks(m)[f]
    ensures HoldsPage(m, f) && SetUse(m, c).pages[m.marcos[f].page] == m.pages[m.marcos[f].page]
  {
    assert HoldsPage(m, f);
  }

  lemma SetUseOne(m: Mem, c: seq<Mark>, f: nat)
    requires Linked(m) && |c| == |m.marcos| && f < |m.bits| && m.bits[f]
    ensures HoldsPage(m, f)
    ensures var (id, before) := (m.marcos[f].page, SetUse(m, c).pages);
      && id in before
      && SetUse(m, c[f := c[f].(uso := false)]).pages == before[id := before[id].(uso := false)]
  {
    assert HoldsPage(m, f);
    var id := m.marcos[f].page;
    var before := SetUse(m, c).pages;
    var after := SetUse(m, c[f := c[f].(uso := false)]).pages;
    forall x | x in m.pages
      ensures after[x] == if x == id then before[id].(uso := false) else before[x]
    {
      if m.pages[x].presencia { assert InFrame(m, x); }
    }
    assert after == before[id := before[id].(uso := false)];
  }
}
