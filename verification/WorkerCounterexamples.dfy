/** Short queries, on a Worker with nothing in memory and pages of one byte, that read other bytes
    than the files hold, lose bytes, or end the process: one for each condition of `Admits`. */
module WorkerCounterexamples {
  import opened StorageModel
  import opened StorageSpec
  import opened FlatFile
  import opened WorkerModel
  import opened WorkerFrames
  import opened WorkerAccess
  import opened WorkerCopies
  import opened WorkerView
  import opened WorkerBytes
  import opened WorkerReference
  import opened WorkerInstructions
  import opened WorkerFlush
  import opened WorkerRequests
  import opened WorkerSimulation
  import opened WorkerQueries
  import opened WorkerSearch

  const Base0 := FileTag("initial_file", "BASE")
  const A := FileTag("a", "t")
  const B := FileTag("b", "t")

  lemma Names()
    ensures A != B && A != Base0 && B != Base0
  {
    assert A.file[0] != B.file[0] && A.file[0] != Base0.file[0] && B.file[0] != Base0.file[0];
  }

  /** What Storage holds after a fresh start. */
  function FreshFiles(): FileMap {
    map[Base0 := File(0, ["0"], WorkInProgress)]
  }

  /** One frame, nothing in memory. */
  function Empty(): Mem {
    Mem(LRU, 1, [Marco("0", PageId(Base0, 0), 0)], [false], map[], map[], 0, 0, FreshFiles(), false)
  }

  lemma EmptyFits()
    ensures Fit(Empty(), 1, FreshFiles()) && AllWhole(1, FreshFiles())
  {
    EmptyMemoryFits(Empty());
  }

  // ---------------------------------------------------------------- one instruction after another

  /** The instructions lead from m to r with these answers, with no error for the Master. */
  ghost predicate Leads(m: Mem, prog: seq<Instr>, answers: seq<Answer>, r: Mem)
    decreases |prog|
  {
    Sound(m) && !m.reported &&
    if prog == [] then answers == [] && m == r
    else
      && |answers| > 0 && !prog[0].END? && !answers[0].Refused?
      && Exec(m, prog[0]).Done? && Exec(m, prog[0]).answer == answers[0]
      && Leads(Exec(m, prog[0]).m, prog[1..], answers[1..], r)
  }

  lemma LeadsNowhere(m: Mem)
    requires Sound(m) && !m.reported
    ensures Leads(m, [], [], m)
  {
  }

  lemma {:induction false} LeadsOn(m: Mem, prog: seq<Instr>, answers: seq<Answer>, q: Mem, i: Instr, answer: Answer,
                                   r: Mem)
    requires Leads(m, prog, answers, q) && Sound(q) && Sound(r) && Exec(q, i) == Done(r, answer)
    requires !i.END? && !answer.Refused? && !r.reported
    ensures Leads(m, prog + [i], answers + [answer], r)
    decreases |prog|
  {
    hide Sound, Exec;
    if prog == [] {
      assert ([] + [i])[1..] == [] && ([] + [answer])[1..] == [];
    } else {
      assert (prog + [i])[1..] == prog[1..] + [i] && (answers + [answer])[1..] == answers[1..] + [answer];
      LeadsOn(Exec(m, prog[0]).m, prog[1..], answers[1..], q, i, answer, r);
    }
  }

  // ---------------------------------------------------------------- whole queries

  function Answers(t: Trace): (r: seq<Answer>)
    ensures |r| == |t| && forall i :: 0 <= i < |r| ==> r[i] == t[i].1
  {
    seq(|t|, i requires 0 <= i < |t| => t[i].1)
  }

  /** The query, run without interruption. */
  function RunOf(m: Mem, prog: seq<Instr>): (r: Run)
    requires Sound(m)
    ensures Sound(r.m)
  {
    RunFrom(m, prog, 0, Never(prog))
  }

  predicate Gives(run: Run, answers: seq<Answer>, ending: Ending) {
    Answers(run.trace) == answers && run.ending == ending
  }

  /** The loop after `done` goes through the instructions of `prog` and on from there. */
  lemma {:induction false} LeadsThrough(m: Mem, done: seq<Instr>, prog: seq<Instr>, answers: seq<Answer>, q: Mem,
                                        rest: seq<Instr>, stop: nat)
    requires Leads(m, prog, answers, q) && stop > |done + prog|
    ensures Sound(m) && Sound(q) && !q.reported && |answers| == |prog|
    ensures var whole := done + prog + rest;
      var (run, last) := (RunFrom(m, whole, |done|, stop), RunFrom(q, whole, |done + prog|, stop));
      Answers(run.trace) == answers + Answers(last.trace) && run.ending == last.ending && run.m == last.m
    decreases |prog|
  {
    hide Sound, Exec, RunFrom, Leads;
    LeadsFirst(m, prog, answers, q);
    if prog == [] {
      assert done + [] == done;
    } else {
      var e := Exec(m, prog[0]);
      var whole := done + prog + rest;
      LeadsThrough(e.m, done + [prog[0]], prog[1..], answers[1..], q, rest, stop);
      assert done + [prog[0]] + prog[1..] == done + prog;
      assert whole[|done|] == prog[0] && answers == [answers[0]] + answers[1..];
      RunNext(m, whole, |done|, stop);
      AnswersOn(e.answer, |done|, RunFrom(e.m, whole, |done| + 1, stop).trace);
    }
  }

  lemma LeadsFirst(m: Mem, prog: seq<Instr>, answers: seq<Answer>, q: Mem)
    requires Leads(m, prog, answers, q)
    ensures Sound(m) && Sound(q) && !q.reported && |answers| == |prog|
    ensures if prog == [] then m == q else
      var e := Exec(m, prog[0]);
      && !prog[0].END? && e.Done? && e.answer == answers[0] && !e.answer.Refused? && !e.m.reported
      && Leads(e.m, prog[1..], answers[1..], q)
    decreases |prog|
  {
    hide Sound, Exec;
    if prog != [] { LeadsFirst(Exec(m, prog[0]).m, prog[1..], answers[1..], q); }
  }

  lemma EndsIs(m: Mem)
    requires Sound(m)
    ensures Exec(m, END) == Done(m, Ok)
  {
    hide Sound;
  }

  /** The instructions, then END. */
  lemma RunsToEnd(m: Mem, prog: seq<Instr>, answers: seq<Answer>, q: Mem)
    requires Leads(m, prog, answers, q)
    ensures Sound(m) && Gives(RunOf(m, prog + [END]), answers + [Ok], Ended) && RunOf(m, prog + [END]).m == q
  {
    hide Sound, Leads, Exec, RunFrom;
    RunsOnToEnd(m, [], prog, answers, q);
    assert [] + prog + [END] == prog + [END];
  }

  /** The same from the middle of a query. */
  lemma RunsOnToEnd(m: Mem, done: seq<Instr>, prog: seq<Instr>, answers: seq<Answer>, q: Mem)
    requires Leads(m, prog, answers, q)
    ensures Sound(m)
    ensures var whole := done + prog + [END];
      var run := RunFrom(m, whole, |done|, Never(whole));
      Gives(run, answers + [Ok], Ended) && run.m == q
  {
    hide Sound, Leads, Exec, RunFrom;
    var whole := done + prog + [END];
    LeadsThrough(m, done, prog, answers, q, [END], Never(whole));
    EndsIs(q);
    RunNext(q, whole, |done + prog|, Never(whole));
    assert Answers([(|done + prog|, Ok)]) == [Ok];
  }

  /** The instructions, the last of them followed by the interruption. */
  lemma RunsToStop(m: Mem, prog: seq<Instr>, answers: seq<Answer>, q: Mem, i: Instr, r: Mem, rest: seq<Instr>)
    requires Leads(m, prog, answers, q) && Sound(q) && Exec(q, i).Done? && Exec(q, i).m == r && !i.END?
    requires !Exec(q, i).answer.Refused? && !r.reported
    ensures Sound(m)
    ensures var run := RunFrom(m, prog + ([i] + rest), 0, |prog| + 1);
      Gives(run, answers + [Exec(q, i).answer], Interrupted) && run.m == r
  {
    hide Sound, Leads, Exec, RunFrom;
    var whole := prog + ([i] + rest);
    LeadsThrough(m, [], prog, answers, q, [i] + rest, |prog| + 1);
    assert [] + prog + ([i] + rest) == whole && [] + prog == prog;
    assert whole[|prog|] == i;
    RunNext(q, whole, |prog|, |prog| + 1);
    assert Answers([(|prog|, Exec(q, i).answer)]) == [Exec(q, i).answer];
  }

  /** The instructions, then one the Master hears an error of: what follows is not executed. */
  lemma RunsToError(m: Mem, prog: seq<Instr>, answers: seq<Answer>, q: Mem, i: Instr, rest: seq<Instr>)
    requires Leads(m, prog, answers, q) && Sound(q) && Exec(q, i).Done? && !i.END?
    requires Exec(q, i).answer.Refused? || Exec(q, i).m.reported
    ensures Sound(m)
    ensures var (e, run) := (Exec(q, i), RunOf(m, prog + ([i] + rest)));
      Gives(run, answers + [e.answer], Failed) && run.m == e.m.(reported := false)
  {
    hide Sound, Leads, Exec, RunFrom;
    var whole := prog + ([i] + rest);
    LeadsThrough(m, [], prog, answers, q, [i] + rest, Never(whole));
    assert [] + prog + ([i] + rest) == whole && [] + prog == prog;
    assert whole[|prog|] == i;
    RunNext(q, whole, |prog|, Never(whole));
    assert Answers([(|prog|, Exec(q, i).answer)]) == [Exec(q, i).answer];
  }

  /** The loop that flushes every table has nothing to do when no page is dirty. */
  lemma {:induction false} NothingToFlush(m: Mem, order: seq<FileTag>)
    requires Sound(m) && forall id :: id in m.pages ==> !m.pages[id].modificado
    ensures FlushAll(m, order) == m
    decreases |order|
  {
    hide Sound, FlushFrom;
    if order != [] {
      if order[0] in m.tables { CleanFlush(m, order[0], 0); }
      NothingToFlush(m, order[1..]);
    }
  }

  // ---------------------------------------------------------------- pages of one byte

  lemma {:induction false} BytesAreBlocks(n: nat)
    ensures NeededBlocks(1, n) == n && Remainder(1, n) == 0 && AdjustedSize(1, n) == n
  {
    if n > 0 { BytesAreBlocks(n - 1); }
  }

  lemma MeasuredBytes(v: FileMap, ft: FileTag)
    requires ft in v ==> v[ft].tamanio == |v[ft].blocks|
    ensures Measured(1, v, ft)
  {
    if ft in v { BytesAreBlocks(|v[ft].blocks|); }
  }

  lemma OneByte()
    ensures PagesTouched(1, 0, 1) == 1 && Transferred(1, 0, 1) == 1
  {
    assert FlatFile.Base(1, 1) == 1;
  }

  /** TRUNCATE of a file with no table. */
  lemma Truncates(m: Mem, ft: FileTag, n: nat)
    requires Sound(m) && m.tam == 1 && ft in m.srv && m.srv[ft].estado == WorkInProgress && ft !in m.tables
    ensures Exec(m, TRUNCATE(ft, n)) == Done(
      m.(srv := m.srv[ft := File(n, Resized(1, m.srv[ft].blocks, n), WorkInProgress)],
         tables := m.tables[ft := Tabla(n, n)], pages := m.pages + NewPages(ft, 0, n)), Ok)
  {
    BytesAreBlocks(n);
    hide Sound, NeededBlocks, AdjustedSize, Resized, NewPages;
  }

  /** A file with a table, whose first page is not in memory, and a free frame. */
  ghost predicate Untouched(m: Mem, ft: FileTag) {
    && Sound(m) && m.tam == 1 && m.policy == LRU && |m.marcos| == 1 && m.bits == [false]
    && ft in m.srv && m.srv[ft].blocks != [] && ft in m.tables && m.tables[ft].size > 0
    && PageId(ft, 0) in m.pages && m.pages[PageId(ft, 0)] == Pagina(-1, false, false, false)
  }

  /** The page is in the only frame, with the byte and the marks given. */
  function InMemory(m: Mem, ft: FileTag, data: Block, page: Pagina, time: int): Mem
    requires ft in m.tables
  {
    m.(bits := [true], marcos := [Marco(data, PageId(ft, 0), time)], clock := if page.uso then m.clock + 1 else m.clock,
       pages := m.pages[PageId(ft, 0) := page],
       tables := m.tables[ft := Tabla(m.tables[ft].cantidad + 1, m.tables[ft].size)])
  }

  function Loaded(m: Mem, ft: FileTag): Mem
    requires ft in m.tables && ft in m.srv && m.srv[ft].blocks != [] && |m.marcos| == 1
  {
    InMemory(m, ft, OnePage(m.tam, m.srv[ft].blocks[0]), Pagina(0, false, false, true), m.marcos[0].time)
  }

  lemma Loads(m: Mem, ft: FileTag)
    requires Untouched(m, ft)
    ensures PaginaEnTabla(m, PageId(ft, 0)) == Ready(Loaded(m, ft))
    ensures Sound(Loaded(m, ft)) && Present(Loaded(m, ft), PageId(ft, 0))
  {
    hide Sound, Linked, BringIn, Loaded, PaginaEnTabla;
    var id := PageId(ft, 0);
    SoundLinked(m);
    PagesInTables(m);
    assert HasPage(m, id);
    FillsFrame(m, ft);
    FaultsIn(m, id, m.srv[ft].blocks[0]);
  }

  lemma FillsFrame(m: Mem, ft: FileTag)
    requires Untouched(m, ft) && HasPage(m, PageId(ft, 0))
    ensures BringIn(m, PageId(ft, 0), m.srv[ft].blocks[0]) == Loaded(m, ft)
  {
    hide Sound, Linked, Replace, KeepsSlack;
    SoundLinked(m);
    assert FirstFree(m.bits, 0) == Some(0);
  }

  /** The first WRITE to it. */
  function Written(m: Mem, ft: FileTag, x: char): Mem
    requires ft in m.tables
  {
    InMemory(m, ft, [x], Pagina(0, true, true, true), m.clock + 1)
  }

  lemma FirstWrite(m: Mem, ft: FileTag, x: char)
    requires Untouched(m, ft)
    ensures Sound(m) && Sound(Written(m, ft, x)) && Exec(m, WRITE(ft, 0, [x])) == Done(Written(m, ft, x), Ok)
  {
    hide Sound, NeededBlocks, Remainder, PaginaEnTabla, Loaded, WriteChunk, Present, Escribir, InMemory;
    Loads(m, ft);
    LoadedFrame(m, ft);
    BytesAreBlocks(0);
    WritesByte(Loaded(m, ft), ft, x);
    WrittenIs(m, ft, x);
  }

  lemma LoadedFrame(m: Mem, ft: FileTag)
    requires Untouched(m, ft)
    ensures var r := Loaded(m, ft); r.tam == 1 && r.policy == LRU && |r.marcos| == 1 && ft in r.tables
  {
    hide Sound;
  }

  lemma WrittenIs(m: Mem, ft: FileTag, x: char)
    requires Untouched(m, ft) && ft in Loaded(m, ft).tables
    ensures Marked(Loaded(m, ft), ft, x) == Written(m, ft, x)
  {
    hide Sound;
  }

  function Marked(m: Mem, ft: FileTag, x: char): Mem {
    m.(marcos := [Marco([x], PageId(ft, 0), m.clock + 1)], clock := m.clock + 1,
       pages := m.pages[PageId(ft, 0) := Pagina(0, true, true, true)])
  }

  lemma WritesByte(m: Mem, ft: FileTag, x: char)
    requires Sound(m) && Present(m, PageId(ft, 0)) && m.tam == 1 && m.policy == LRU && |m.marcos| == 1
    ensures Escribir(m, PageId(ft, 0), 0, [x]) == Ready(Marked(m, ft, x))
  {
    hide Sound, Linked, KeepsSlack;
    SoundLinked(m);
    FrameWhole(m, PageId(ft, 0));
    OnlyFrame(m, PageId(ft, 0));
    assert Splice(m.marcos[0].data, 0, [x]) == [x];
    var r := WriteChunk(m, PageId(ft, 0), 0, [x]);
    assert r.marcos == [Marco([x], PageId(ft, 0), m.clock + 1)];
    assert r == Marked(m, ft, x);
  }

  lemma OnlyFrame(m: Mem, id: PageId)
    requires Linked(m) && Present(m, id) && |m.marcos| == 1
    ensures FrameOf(m, id) == 0 && m.pages[id].marco == 0 && m.marcos[0].page == id
  {
    assert InFrame(m, id);
  }

  /** A READ of one byte on a coherent memory. */
  lemma ReadsByte(m: Mem, ft: FileTag, x: char)
    requires Coherent(m) && m.tam == 1 && ft in m.srv && Measured(1, m.srv, ft) && |View(m)[ft].blocks| == 1
    requires View(m)[ft].blocks[0] == [x]
    ensures Sound(m) && Exec(m, READ(ft, 0, 1)).Done? && Exec(m, READ(ft, 0, 1)).answer == Bytes([x])
    ensures Sound(Exec(m, READ(ft, 0, 1)).m) && !Exec(m, READ(ft, 0, 1)).m.reported
  {
    hide Coherent, Sound, View, AllWhole, Measured, Exec, FlatExec;
    ViewAllWhole(m);
    ExecSimulates(m, READ(ft, 0, 1));
    assert View(m)[ft].blocks == [[x]];
    FlatReadsByte(View(m), ft, x);
    Sounds(m, READ(ft, 0, 1));
    CoherentQuiet(Exec(m, READ(ft, 0, 1)).m);
  }

  /** READ of one byte on flat files with pages of one byte. */
  lemma FlatReads(v: FileMap, ft: FileTag, a: nat)
    requires AllWhole(1, v) && ft in v
    ensures FlatExec(1, v, READ(ft, a, 1)) ==
      if a > |v[ft].blocks| then FlatDone(v, Refused(ErrFueraLimite))
      else if a == |v[ft].blocks| then FlatStop
      else FlatDone(v, Bytes(FlatRead(1, v[ft].blocks, a, 1)))
  {
    hide AllWhole, NeededBlocks, Remainder, PagesTouched, Transferred, FlatRead;
    BytesAreBlocks(a);
    OneByte();
  }

  lemma FlatReadsByte(v: FileMap, ft: FileTag, x: char)
    requires AllWhole(1, v) && ft in v && v[ft].blocks == [[x]]
    ensures FlatExec(1, v, READ(ft, 0, 1)) == FlatDone(v, Bytes([x]))
  {
    hide AllWhole, FlatExec;
    FlatReads(v, ft, 0);
    assert FlatRead(1, [[x]], 0, 1) == [x];
  }

  // ---------------------------------------------------------------- a file of n blocks

  function Zeros(n: nat): seq<Block> { seq(n, _ => "0") }

  function MadeFiles(n: nat): FileMap {
    FreshFiles()[A := File(n, Zeros(n), WorkInProgress)]
  }

  function Made(n: nat): Mem {
    Empty().(srv := MadeFiles(n), tables := map[A := Tabla(n, n)], pages := NewPages(A, 0, n))
  }

  function MakeProg(n: nat): seq<Instr> { [CREATE(A), TRUNCATE(A, n)] }

  /** CREATE alone. */
  function Created(): FileMap { FreshFiles()[A := File(0, [], WorkInProgress)] }

  lemma Makes(n: nat)
    ensures Leads(Empty(), MakeProg(n), [Ok, Ok], Made(n)) && Coherent(Made(n)) && View(Made(n)) == MadeFiles(n)
  {
    var m1 := Empty().(srv := Created());
    hide Coherent, Sound, Leads, View, AllWhole, Made, Exec, Empty;
    CreatesFirst();
    Sizes(m1, n);
    CoherentQuiet(Made(n));
    Sounds(m1, TRUNCATE(A, n));
    LeadsOn(Empty(), [CREATE(A)], [Ok], m1, TRUNCATE(A, n), Ok, Made(n));
    assert [CREATE(A)] + [TRUNCATE(A, n)] == MakeProg(n) && [Ok] + [Ok] == [Ok, Ok];
  }

  lemma CreatesFirst()
    ensures var m1 := Empty().(srv := Created());
      Leads(Empty(), [CREATE(A)], [Ok], m1) && Sound(m1) && Coherent(m1) && View(m1) == Created()
  {
    hide Coherent, Sound, Leads, View, AllWhole, Exec;
    EmptyFits();
    Creates();
    Sounds(Empty(), CREATE(A));
    LeadsNowhere(Empty());
    LeadsOn(Empty(), [], [], Empty(), CREATE(A), Ok, Empty().(srv := Created()));
    assert [] + [CREATE(A)] == [CREATE(A)] && [] + [Ok] == [Ok];
  }

  lemma Sounds(m: Mem, i: Instr)
    requires Sound(m)
    ensures Exec(m, i).Done? ==> Sound(Exec(m, i).m)
  {
  }

  lemma Creates()
    requires Fit(Empty(), 1, FreshFiles()) && AllWhole(1, FreshFiles())
    ensures var m1 := Empty().(srv := Created());
      Exec(Empty(), CREATE(A)) == Done(m1, Ok) && Coherent(m1) && View(m1) == Created()
  {
    hide Coherent, Sound, View, AllWhole;
    ExecSimulates(Empty(), CREATE(A));
  }

  lemma Sizes(m1: Mem, n: nat)
    requires m1 == Empty().(srv := Created()) && Coherent(m1) && View(m1) == Created() && Sound(m1)
    ensures Exec(m1, TRUNCATE(A, n)) == Done(Made(n), Ok) && Coherent(Made(n)) && View(Made(n)) == MadeFiles(n)
  {
    hide Coherent, Sound, View, AllWhole, Exec, FlatExec;
    Truncates(m1, A, n);
    MadeIs(m1, n);
    ViewAllWhole(m1);
    ExecSimulates(m1, TRUNCATE(A, n));
    FlatMakes(View(m1), n);
  }

  lemma MadeIs(m1: Mem, n: nat)
    requires m1 == Empty().(srv := Created())
    ensures Made(n) == m1.(srv := m1.srv[A := File(n, Resized(1, m1.srv[A].blocks, n), WorkInProgress)],
                           tables := m1.tables[A := Tabla(n, n)], pages := m1.pages + NewPages(A, 0, n))
  {
    ZerosAre(n);
    assert m1.srv[A := File(n, Zeros(n), WorkInProgress)] == MadeFiles(n);
    assert map[] + NewPages(A, 0, n) == NewPages(A, 0, n);
  }

  lemma FlatMakes(v: FileMap, n: nat)
    requires v == Created() && AllWhole(1, v)
    ensures FlatExec(1, v, TRUNCATE(A, n)) == FlatDone(MadeFiles(n), Ok)
  {
    hide NeededBlocks, AdjustedSize, AllWhole;
    BytesAreBlocks(n);
    ZerosAre(n);
    assert v[A := File(n, Zeros(n), WorkInProgress)] == MadeFiles(n);
  }

  lemma ZerosAre(n: nat)
    ensures Resized(1, [], n) == Zeros(n)
  {
    assert ZeroBlock(1) == "0";
  }

  // ---------------------------------------------------------------- flat files

  /** The same on flat files. */
  ghost predicate FlatLeads(v: FileMap, prog: seq<Instr>, answers: seq<Answer>, w: FileMap)
    decreases |prog|
  {
    AllWhole(1, v) &&
    if prog == [] then answers == [] && v == w
    else
      && |answers| > 0 && !prog[0].END? && !answers[0].Refused?
      && FlatExec(1, v, prog[0]).FlatDone? && FlatExec(1, v, prog[0]).answer == answers[0]
      && FlatLeads(FlatExec(1, v, prog[0]).v, prog[1..], answers[1..], w)
  }

  lemma {:induction false} FlatOn(v: FileMap, prog: seq<Instr>, answers: seq<Answer>, w: FileMap, i: Instr,
                                  answer: Answer, x: FileMap)
    requires FlatLeads(v, prog, answers, w) && AllWhole(1, w) && FlatExec(1, w, i) == FlatDone(x, answer)
    requires !i.END? && !answer.Refused?
    ensures FlatLeads(v, prog + [i], answers + [answer], x) && AllWhole(1, x)
    decreases |prog|
  {
    hide FlatExec, AllWhole;
    FlatExecWhole(1, w, i);
    if prog == [] {
      assert ([] + [i])[1..] == [] && ([] + [answer])[1..] == [];
    } else {
      assert (prog + [i])[1..] == prog[1..] + [i] && (answers + [answer])[1..] == answers[1..] + [answer];
      FlatOn(FlatExec(1, v, prog[0]).v, prog[1..], answers[1..], w, i, answer, x);
    }
  }

  lemma FlatNowhere(v: FileMap)
    requires AllWhole(1, v)
    ensures FlatLeads(v, [], [], v)
  {
  }

  function FlatRunOf(v: FileMap, prog: seq<Instr>): FlatRun
    requires AllWhole(1, v)
  {
    FlatRunFrom(1, v, prog, 0, Never(prog))
  }

  predicate FlatGives(run: FlatRun, answers: seq<Answer>, ending: Ending, w: FileMap) {
    Answers(run.trace) == answers && run.ending == ending && run.v == w
  }

  lemma FlatFirst(v: FileMap, prog: seq<Instr>, answers: seq<Answer>, w: FileMap)
    requires FlatLeads(v, prog, answers, w)
    ensures AllWhole(1, v) && |answers| == |prog|
    ensures if prog == [] then v == w else
      var e := FlatExec(1, v, prog[0]);
      && !prog[0].END? && e.FlatDone? && e.answer == answers[0] && !e.answer.Refused?
      && FlatLeads(e.v, prog[1..], answers[1..], w)
    decreases |prog|
  {
    hide FlatExec, AllWhole;
    if prog != [] { FlatFirst(FlatExec(1, v, prog[0]).v, prog[1..], answers[1..], w); }
  }

  lemma {:induction false} FlatThrough(v: FileMap, done: seq<Instr>, prog: seq<Instr>, answers: seq<Answer>,
                                       w: FileMap, rest: seq<Instr>)
    requires FlatLeads(v, prog, answers, w)
    ensures AllWhole(1, v) && AllWhole(1, w)
    ensures var whole := done + prog + rest;
      var last := FlatRunFrom(1, w, whole, |done + prog|, Never(whole));
      FlatGives(FlatRunFrom(1, v, whole, |done|, Never(whole)), answers + Answers(last.trace), last.ending, last.v)
    decreases |prog|
  {
    hide FlatExec, AllWhole, FlatRunFrom, FlatLeads;
    FlatFirst(v, prog, answers, w);
    if prog == [] {
      assert done + [] == done;
    } else {
      var e := FlatExec(1, v, prog[0]);
      var whole := done + prog + rest;
      FlatThrough(e.v, done + [prog[0]], prog[1..], answers[1..], w, rest);
      assert done + [prog[0]] + prog[1..] == done + prog;
      assert whole[|done|] == prog[0] && answers == [answers[0]] + answers[1..];
      FlatNext(v, whole, |done|);
      AnswersOn(e.answer, |done|, FlatRunFrom(1, e.v, whole, |done| + 1, Never(whole)).trace);
    }
  }

  /** One turn of the loop that does not leave it. */
  lemma FlatNext(v: FileMap, prog: seq<Instr>, pc: nat)
    requires AllWhole(1, v) && pc < |prog| && !prog[pc].END?
    requires FlatExec(1, v, prog[pc]).FlatDone? && !FlatExec(1, v, prog[pc]).answer.Refused?
    ensures var e := FlatExec(1, v, prog[pc]);
      && AllWhole(1, e.v)
      && var rest := FlatRunFrom(1, e.v, prog, pc + 1, Never(prog));
         FlatRunFrom(1, v, prog, pc, Never(prog)) == rest.(trace := [(pc, e.answer)] + rest.trace)
  {
    hide FlatExec, AllWhole;
    FlatExecWhole(1, v, prog[pc]);
  }

  lemma AnswersOn(a: Answer, pc: nat, t: Trace)
    ensures Answers([(pc, a)] + t) == [a] + Answers(t)
  {
  }

  lemma FlatToEnd(v: FileMap, prog: seq<Instr>, answers: seq<Answer>, w: FileMap)
    requires FlatLeads(v, prog, answers, w)
    ensures AllWhole(1, v) && AllWhole(1, w)
    ensures FlatGives(FlatRunOf(v, prog + [END]), answers + [Ok], Ended, w)
  {
    FlatThrough(v, [], prog, answers, w, [END]);
    assert [] + prog + [END] == prog + [END] && [] + prog == prog;
    hide AllWhole, FlatLeads;
    assert FlatExec(1, w, END) == FlatDone(w, Ok);
    hide FlatExec;
  }

  lemma FlatMade(n: nat)
    ensures FlatLeads(FreshFiles(), MakeProg(n), [Ok, Ok], MadeFiles(n)) && AllWhole(1, MadeFiles(n))
  {
    hide FlatExec, AllWhole, FlatLeads;
    EmptyFits();
    FlatStart();
    FlatCreates();
    FlatOn(FreshFiles(), [], [], FreshFiles(), CREATE(A), Ok, Created());
    assert [] + [CREATE(A)] == [CREATE(A)] && [] + [Ok] == [Ok];
    FlatMakes(Created(), n);
    FlatOn(FreshFiles(), [CREATE(A)], [Ok], Created(), TRUNCATE(A, n), Ok, MadeFiles(n));
    assert [CREATE(A)] + [TRUNCATE(A, n)] == MakeProg(n) && [Ok] + [Ok] == [Ok, Ok];
  }

  lemma FlatStart()
    requires AllWhole(1, FreshFiles())
    ensures FlatLeads(FreshFiles(), [], [], FreshFiles())
  {
  }

  lemma FlatCreates()
    requires AllWhole(1, FreshFiles())
    ensures FlatExec(1, FreshFiles(), CREATE(A)) == FlatDone(Created(), Ok)
  {
    hide AllWhole;
  }

  lemma FlatWrites(v: FileMap, ft: FileTag, n: nat, x: char)
    requires AllWhole(1, v) && ft in v && v[ft].blocks == Zeros(n) && 0 < n
    ensures FlatExec(1, v, WRITE(ft, 0, [x])) == FlatDone(v[ft := v[ft].(blocks := Zeros(n)[0 := [x]])], Ok)
  {
    BytesAreBlocks(0);
    OneByte();
    WrittenZeros(n, x);
    hide AllWhole, FlatWrite, NeededBlocks, Remainder;
    assert First([x], 1) == [x];
  }

  lemma WrittenZeros(n: nat, x: char)
    requires 0 < n
    ensures Whole(1, Zeros(n)) && FlatWrite(1, Zeros(n), 0, [x]) == Zeros(n)[0 := [x]]
  {
    var r := FlatWrite(1, Zeros(n), 0, [x]);
    forall k | 0 <= k < n
      ensures r[k] == Zeros(n)[0 := [x]][k]
    {
      BaseIsProduct(k, 1);
      assert |r[k]| == 1;
    }
  }

  // ---------------------------------------------------------------- a dirty page

  function WriteProg(n: nat): seq<Instr> { MakeProg(n) + [WRITE(A, 0, "x")] }

  /** File A has n bytes, "x" and zeros, and "x" is only in memory. */
  function Dirty(n: nat): Mem { Written(Made(n), A, 'x') }

  function DirtyFiles(n: nat): FileMap
    requires 0 < n
  {
    FreshFiles()[A := File(n, Zeros(n)[0 := "x"], WorkInProgress)]
  }

  lemma MadeUntouched(n: nat)
    requires 0 < n && Sound(Made(n))
    ensures Untouched(Made(n), A)
  {
    hide Sound;
  }

  lemma Dirties(n: nat)
    requires 0 < n
    ensures Leads(Empty(), WriteProg(n), [Ok, Ok, Ok], Dirty(n)) && Sound(Dirty(n))
    ensures FlatLeads(FreshFiles(), WriteProg(n), [Ok, Ok, Ok], DirtyFiles(n)) && AllWhole(1, DirtyFiles(n))
    ensures Coherent(Dirty(n)) && View(Dirty(n)) == DirtyFiles(n)
  {
    hide Coherent, Sound, View, AllWhole, Exec, FlatExec, Leads, FlatLeads, Made, Zeros, InMemory;
    Makes(n);
    CoherentBasics(Made(n));
    MadeUntouched(n);
    FirstWrite(Made(n), A, 'x');
    DirtyStore(n);
    LeadsOn(Empty(), MakeProg(n), [Ok, Ok], Made(n), WRITE(A, 0, "x"), Ok, Dirty(n));
    assert [Ok, Ok] + [Ok] == [Ok, Ok, Ok];
    FlatMade(n);
    FlatWrites(MadeFiles(n), A, n, 'x');
    assert MadeFiles(n)[A := MadeFiles(n)[A].(blocks := Zeros(n)[0 := "x"])] == DirtyFiles(n);
    FlatOn(FreshFiles(), MakeProg(n), [Ok, Ok], MadeFiles(n), WRITE(A, 0, "x"), Ok, DirtyFiles(n));
    MadeMeasured(n);
    ExecSimulates(Made(n), WRITE(A, 0, "x"));
  }

  lemma MadeMeasured(n: nat)
    ensures Made(n).tam == 1 && Admits(Made(n), WRITE(A, 0, "x"))
  {
    BytesAreBlocks(n);
  }

  // ---------------------------------------------------------------- TAG of a file that is not flushed

  function TagProg(): seq<Instr> { WriteProg(1) + [TAG(A, B)] + [READ(B, 0, 1)] }

  function Tagged(): Mem {
    Dirty(1).(srv := MadeFiles(1)[B := File(1, ["0"], WorkInProgress)])
  }

  lemma TagStore()
    ensures MapStep(1, MadeFiles(1), Tag(A, B)) == (Tagged().srv, OpExitosa)
  {
    Names();
    assert Zeros(1) == ["0"];
  }

  lemma Tags()
    requires Sound(Dirty(1)) && Coherent(Dirty(1))
    ensures Exec(Dirty(1), TAG(A, B)) == Done(Tagged(), Ok) && Coherent(Tagged()) && Sound(Tagged())
  {
    hide Coherent, Sound, View, Flushed, MapStep, Dirty;
    TagStore();
    DirtyStore(1);
    TagSimulatesIff(Dirty(1), A, B);
    CoherentBasics(Tagged());
  }

  lemma DirtyStore(n: nat)
    ensures Dirty(n).srv == MadeFiles(n) && Dirty(n).tam == 1 && Dirty(n).tables == map[A := Tabla(n + 1, n)]
    ensures !Dirty(n).reported
  {
  }

  lemma TaggedView()
    requires Sound(Tagged())
    ensures B in Tagged().srv && View(Tagged())[B].blocks == ["0"] && Measured(1, Tagged().srv, B) && Tagged().tam == 1
  {
    hide Sound, PageView;
    Names();
    DirtyStore(1);
    UncachedView(Tagged(), B);
    BytesAreBlocks(1);
  }

  lemma FlatTags()
    requires AllWhole(1, DirtyFiles(1))
    ensures FlatExec(1, DirtyFiles(1), TAG(A, B)) == FlatDone(TaggedFiles(), Ok)
  {
    hide AllWhole;
    Names();
    assert Zeros(1)[0 := "x"] == [['x']];
    assert DirtyFiles(1)[A] == File(1, [['x']], WorkInProgress);
  }

  function TaggedFiles(): FileMap { DirtyFiles(1)[B := File(1, [['x']], WorkInProgress)] }

  /** The copy made by TAG has the byte Storage had, not the one written. */
  lemma TagMissesBytes()
    ensures Sound(Tagged()) && Exec(Tagged(), READ(B, 0, 1)).Done?
    ensures Leads(Empty(), TagProg(), [Ok, Ok, Ok, Ok, Bytes("0")], Exec(Tagged(), READ(B, 0, 1)).m)
    ensures FlatLeads(FreshFiles(), TagProg(), [Ok, Ok, Ok, Ok, Bytes("x")], TaggedFiles())
  {
    hide Coherent, Sound, View, AllWhole, Exec, FlatExec, Leads, FlatLeads, Dirty, Measured, Tagged;
    Dirties(1);
    Tags();
    TaggedView();
    CoherentQuiet(Tagged());
    LeadsOn(Empty(), WriteProg(1), [Ok, Ok, Ok], Dirty(1), TAG(A, B), Ok, Tagged());
    ReadsByte(Tagged(), B, '0');
    LeadsOn(Empty(), WriteProg(1) + [TAG(A, B)], [Ok, Ok, Ok] + [Ok], Tagged(), READ(B, 0, 1), Bytes("0"),
            Exec(Tagged(), READ(B, 0, 1)).m);
    assert [Ok, Ok, Ok] + [Ok] + [Bytes("0")] == [Ok, Ok, Ok, Ok, Bytes("0")];
    FlatTagReads();
  }

  lemma FlatTagReads()
    ensures FlatLeads(FreshFiles(), TagProg(), [Ok, Ok, Ok, Ok, Bytes("x")], TaggedFiles())
  {
    hide Coherent, Sound, View, AllWhole, Exec, FlatExec, Leads, FlatLeads, Dirty;
    Dirties(1);
    FlatTags();
    FlatOn(FreshFiles(), WriteProg(1), [Ok, Ok, Ok], DirtyFiles(1), TAG(A, B), Ok, TaggedFiles());
    FlatReadsByte(TaggedFiles(), B, 'x');
    FlatOn(FreshFiles(), WriteProg(1) + [TAG(A, B)], [Ok, Ok, Ok] + [Ok], TaggedFiles(), READ(B, 0, 1), Bytes("x"),
           TaggedFiles());
    assert [Ok, Ok, Ok] + [Ok] + [Bytes("x")] == [Ok, Ok, Ok, Ok, Bytes("x")];
  }

  // ---------------------------------------------------------------- TRUNCATE hidden by the counter

  function TruncateProg(): seq<Instr> { WriteProg(1) + [TRUNCATE(A, 2)] }

  /** The table still has one page. */
  function Hidden(): Mem {
    Dirty(1).(srv := MadeFiles(2))
  }

  lemma Hides()
    requires Sound(Dirty(1))
    ensures Exec(Dirty(1), TRUNCATE(A, 2)) == Done(Hidden(), Ok) && Sound(Hidden())
  {
    hide Sound, Linked, NeededBlocks, AdjustedSize, NewPages, Dirty, MapStep;
    BytesAreBlocks(2);
    SrvSound(Dirty(1), MadeFiles(2));
    SoundLinked(Hidden());
    DirtyStore(1);
    GrowStore();
    assert LoadTable(Hidden(), A) == Ready(Hidden());
    hide LoadTable;
    assert TruncateTable(Hidden(), A, 2, Ok) == Done(Hidden(), Ok);
  }

  lemma GrowStore()
    ensures MapStep(1, MadeFiles(1), Truncate(A, 2)) == (MadeFiles(2), OpExitosa)
  {
    BytesAreBlocks(2);
    ZeroOne();
    hide NeededBlocks, Resized, Zeros;
    assert MadeFiles(1)[A := File(2, Zeros(2), WorkInProgress)] == MadeFiles(2);
  }

  lemma HiddenStops()
    requires Sound(Hidden())
    ensures Exec(Hidden(), READ(A, 1, 1)).Stop?
  {
    hide Sound, Dirty, Exec;
    DirtyStore(1);
    ReadBeyond(Hidden(), A, 1);
  }

  lemma ReadBeyond(m: Mem, ft: FileTag, a: nat)
    requires Sound(m) && m.tam == 1 && ft in m.tables && m.tables[ft].size == a
    ensures Exec(m, READ(ft, a, 1)).Stop?
  {
    hide Sound, PaginaEnTabla, NeededBlocks, Remainder;
    BytesAreBlocks(a);
    BeyondTable(m, ft, a);
  }

  /** A page number equal to the length of its table. */
  lemma BeyondTable(m: Mem, ft: FileTag, nro: nat)
    requires Sound(m) && ft in m.tables && m.tables[ft].size == nro
    ensures PaginaEnTabla(m, PageId(ft, nro)) == Exit
  {
    hide Sound, RefreshTable, NewPages;
  }

  lemma ZeroOne()
    ensures Resized(1, Zeros(1), 2) == Zeros(2)
  {
    assert ZeroBlock(1) == "0";
  }

  /** After one access the counter of the table is 2: TRUNCATE to 2 pages leaves the table at 1,
      and reading the second page ends the process. */
  lemma TruncateHidden()
    ensures Leads(Empty(), TruncateProg(), [Ok, Ok, Ok, Ok], Hidden()) && Sound(Hidden())
    ensures Exec(Hidden(), READ(A, 1, 1)).Stop?
    ensures FlatLeads(FreshFiles(), TruncateProg() + [READ(A, 1, 1)], [Ok, Ok, Ok, Ok, Bytes("0")], DirtyFiles(2))
  {
    hide Coherent, Sound, View, AllWhole, Exec, FlatExec, Leads, FlatLeads, Dirty;
    Dirties(1);
    Hides();
    HiddenStops();
    DirtyStore(1);
    LeadsOn(Empty(), WriteProg(1), [Ok, Ok, Ok], Dirty(1), TRUNCATE(A, 2), Ok, Hidden());
    assert [Ok, Ok, Ok] + [Ok] == [Ok, Ok, Ok, Ok];
    FlatGrows();
    FlatOn(FreshFiles(), WriteProg(1), [Ok, Ok, Ok], DirtyFiles(1), TRUNCATE(A, 2), Ok, DirtyFiles(2));
    FlatReadsSecond();
    FlatOn(FreshFiles(), TruncateProg(), [Ok, Ok, Ok, Ok], DirtyFiles(2), READ(A, 1, 1), Bytes("0"), DirtyFiles(2));
    assert [Ok, Ok, Ok, Ok] + [Bytes("0")] == [Ok, Ok, Ok, Ok, Bytes("0")];
  }

  lemma FlatGrows()
    requires AllWhole(1, DirtyFiles(1))
    ensures FlatExec(1, DirtyFiles(1), TRUNCATE(A, 2)) == FlatDone(DirtyFiles(2), Ok)
  {
    hide AllWhole, NeededBlocks, AdjustedSize;
    BytesAreBlocks(2);
    assert ZeroBlock(1) == "0";
    assert Resized(1, Zeros(1)[0 := "x"], 2) == Zeros(2)[0 := "x"];
    assert DirtyFiles(1)[A := File(2, Zeros(2)[0 := "x"], WorkInProgress)] == DirtyFiles(2);
  }

  lemma FlatReadsSecond()
    requires AllWhole(1, DirtyFiles(2))
    ensures FlatExec(1, DirtyFiles(2), READ(A, 1, 1)) == FlatDone(DirtyFiles(2), Bytes("0"))
  {
    hide AllWhole, FlatExec, FlatRead;
    FlatReads(DirtyFiles(2), A, 1);
    SecondByte();
  }

  lemma SecondByte()
    ensures FlatRead(1, Zeros(2)[0 := "x"], 1, 1) == "0"
  {
    ByteInBlock(1, Zeros(2)[0 := "x"], 1, 0);
  }

  // ---------------------------------------------------------------- reading at the end, and initial_file:BASE

  /** Reading right after the last page ends the process; further away it is an error. */
  lemma ReadAtLength()
    ensures Leads(Empty(), MakeProg(1), [Ok, Ok], Made(1)) && Sound(Made(1))
    ensures Exec(Made(1), READ(A, 1, 1)).Stop?
    ensures Exec(Made(1), READ(A, 2, 1)).Done? && Exec(Made(1), READ(A, 2, 1)).answer == Refused(ErrFueraLimite)
  {
    hide Coherent, Sound, View, AllWhole, Exec, FlatExec, Leads, Made;
    Makes(1);
    CoherentBasics(Made(1));
    ViewAllWhole(Made(1));
    MadeMeasured(1);
    FlatEnds(View(Made(1)));
    ExecSimulates(Made(1), READ(A, 1, 1));
    ExecSimulates(Made(1), READ(A, 2, 1));
  }

  lemma FlatEnds(v: FileMap)
    requires AllWhole(1, v) && v == MadeFiles(1)
    ensures FlatExec(1, v, READ(A, 1, 1)).FlatStop?
    ensures FlatExec(1, v, READ(A, 2, 1)) == FlatDone(v, Refused(ErrFueraLimite))
  {
    hide AllWhole, FlatExec, FlatRead;
    FlatReads(v, A, 1);
    FlatReads(v, A, 2);
  }

  /** initial_file:BASE has a block and size 0: reading it before a TRUNCATE ends the process. */
  lemma BaseUnread()
    ensures Sound(Empty()) && AllWhole(1, FreshFiles())
    ensures Exec(Empty(), READ(Base0, 0, 1)).Stop?
    ensures FlatExec(1, FreshFiles(), READ(Base0, 0, 1)) == FlatDone(FreshFiles(), Bytes("0"))
  {
    EmptyFits();
    BytesAreBlocks(0);
    CoherentBasics(Empty());
    FlatReadsByte(FreshFiles(), Base0, '0');
    hide Sound, Coherent, AllWhole, FlatExec, NeededBlocks, Remainder, NewPages;
    assert PaginaEnTabla(Empty(), PageId(Base0, 0)) == Exit;
  }

  // ---------------------------------------------------------------- a refused DELETE

  /** initial_file:BASE with its size set and its table loaded. */
  function BaseReady(): Mem {
    Empty().(srv := BaseFiles("0"), tables := map[Base0 := Tabla(1, 1)], pages := NewPages(Base0, 0, 1))
  }

  function BaseFiles(data: Block): FileMap {
    map[Base0 := File(1, [data], WorkInProgress)]
  }

  function BaseDirty(): Mem { Written(BaseReady(), Base0, 'x') }

  function BaseProg(): seq<Instr> { [TRUNCATE(Base0, 1)] + [WRITE(Base0, 0, "x")] }

  lemma BaseSizes()
    ensures Sound(Empty()) && Exec(Empty(), TRUNCATE(Base0, 1)) == Done(BaseReady(), Ok)
    ensures Coherent(BaseReady()) && View(BaseReady()) == BaseFiles("0")
  {
    hide Coherent, Sound, View, AllWhole, Exec, FlatExec;
    EmptyFits();
    CoherentBasics(Empty());
    Truncates(Empty(), Base0, 1);
    assert Resized(1, ["0"], 1) == ["0"];
    assert FreshFiles()[Base0 := File(1, ["0"], WorkInProgress)] == BaseFiles("0");
    assert map[] + NewPages(Base0, 0, 1) == NewPages(Base0, 0, 1);
    assert map[][Base0 := Tabla(1, 1)] == map[Base0 := Tabla(1, 1)];
    ExecSimulates(Empty(), TRUNCATE(Base0, 1));
    FlatBaseSizes();
  }

  lemma QuietBase()
    ensures !Empty().reported && !BaseReady().reported && !BaseDirty().reported
  {
  }

  lemma FlatBaseSizes()
    requires AllWhole(1, FreshFiles())
    ensures FlatExec(1, FreshFiles(), TRUNCATE(Base0, 1)) == FlatDone(BaseFiles("0"), Ok)
  {
    hide AllWhole, NeededBlocks, AdjustedSize;
    BytesAreBlocks(1);
    assert Resized(1, ["0"], 1) == ["0"];
    assert FreshFiles()[Base0 := File(1, ["0"], WorkInProgress)] == BaseFiles("0");
  }

  lemma BaseUntouched()
    requires Sound(BaseReady())
    ensures Untouched(BaseReady(), Base0) && Admits(BaseReady(), WRITE(Base0, 0, "x"))
  {
    hide Sound, Measured;
    MeasuredBytes(BaseFiles("0"), Base0);
  }

  lemma FlatBaseWrites()
    requires AllWhole(1, BaseFiles("0"))
    ensures FlatExec(1, BaseFiles("0"), WRITE(Base0, 0, "x")) == FlatDone(BaseFiles("x"), Ok)
  {
    hide AllWhole, FlatExec;
    assert Zeros(1) == ["0"] && Zeros(1)[0 := "x"] == ["x"];
    FlatWrites(BaseFiles("0"), Base0, 1, 'x');
    assert BaseFiles("0")[Base0 := File(1, ["x"], WorkInProgress)] == BaseFiles("x");
  }

  lemma BaseDirties()
    ensures Leads(Empty(), BaseProg(), [Ok, Ok], BaseDirty())
    ensures Sound(BaseDirty()) && Coherent(BaseDirty()) && View(BaseDirty()) == BaseFiles("x")
  {
    hide Coherent, Sound, View, AllWhole, Exec, FlatExec, Leads, BaseReady, Empty, InMemory;
    BaseSizes();
    CoherentBasics(BaseReady());
    QuietBase();
    LeadsNowhere(Empty());
    LeadsOn(Empty(), [], [], Empty(), TRUNCATE(Base0, 1), Ok, BaseReady());
    assert [] + [TRUNCATE(Base0, 1)] == [TRUNCATE(Base0, 1)] && [] + [Ok] == [Ok];
    BaseUntouched();
    FirstWrite(BaseReady(), Base0, 'x');
    LeadsOn(Empty(), [TRUNCATE(Base0, 1)], [Ok], BaseReady(), WRITE(Base0, 0, "x"), Ok, BaseDirty());
    assert [Ok] + [Ok] == [Ok, Ok];
    ViewAllWhole(BaseReady());
    ExecSimulates(BaseReady(), WRITE(Base0, 0, "x"));
    FlatBaseWrites();
  }

  /** What DELETE leaves when Storage refuses it: the file, without its pages. */
  lemma BaseDropped(m: Mem)
    requires Sound(m) && Coherent(m) && m.tam == 1 && m.srv == BaseFiles("0")
    ensures var e := Exec(m, DELETE(Base0));
      && e.Done? && e.answer == Refused(NotDefErr) && Coherent(e.m) && Sound(e.m) && e.m.tam == 1 && e.m.srv == m.srv
      && View(e.m)[Base0].blocks == ["0"] && forall id :: id in e.m.pages ==> id in m.pages && id.ft != Base0
  {
    hide Coherent, Sound, View, DropPages, BlocksView;
    BaseIsBase();
    DropPagesShape(m, Base0);
    DropPagesCoherent(m, Base0);
    CoherentBasics(DropPages(m, Base0));
    UncachedView(DropPages(m, Base0), Base0);
    hide IsBaseFile;
    assert Exec(m, DELETE(Base0)) == Done(DropPages(m, Base0), Refused(NotDefErr));
  }

  lemma BaseIsBase()
    ensures IsBaseFile(Base0)
  {
  }

  lemma BaseStore()
    ensures BaseDirty().srv == BaseFiles("0") && BaseDirty().tam == 1 && Measured(1, BaseFiles("0"), Base0)
    ensures forall id :: id in BaseDirty().pages ==> id.ft == Base0
  {
    hide Measured;
    MeasuredBytes(BaseFiles("0"), Base0);
  }

  /** DELETE of initial_file:BASE is refused, which ends the query; the byte it had written is gone
      all the same, and the next query of the Worker, whatever is flushed in between, reads the old
      one.  Without the DELETE it reads the byte written. */
  lemma RefusedDeleteLosesBytes()
    ensures Sound(Empty())
    ensures var run := RunOf(Empty(), BaseProg() + [DELETE(Base0), END]);
      && Gives(run, [Ok, Ok, Refused(NotDefErr)], Failed) && (forall order :: FlushAll(run.m, order) == run.m)
      && Gives(RunOf(run.m, [READ(Base0, 0, 1), END]), [Bytes("0"), Ok], Ended)
    ensures var run := RunOf(Empty(), BaseProg() + [END]);
      && Gives(run, [Ok, Ok, Ok], Ended)
      && Gives(RunOf(run.m, [READ(Base0, 0, 1), END]), [Bytes("x"), Ok], Ended)
  {
    hide Coherent, Sound, View, Exec, Leads, BaseDirty, BaseProg, Empty, Measured, RunOf, Gives, FlushAll;
    BaseDirties();
    BaseStore();
    RunsToEnd(Empty(), BaseProg(), [Ok, Ok], BaseDirty());
    assert [Ok, Ok] + [Ok] == [Ok, Ok, Ok];
    ReadQuery(BaseDirty(), Base0, 'x');
    DeleteEndsQuery();
  }

  lemma DeleteEndsQuery()
    ensures Sound(Empty())
    ensures var run := RunOf(Empty(), BaseProg() + [DELETE(Base0), END]);
      && Gives(run, [Ok, Ok, Refused(NotDefErr)], Failed) && (forall order :: FlushAll(run.m, order) == run.m)
      && Gives(RunOf(run.m, [READ(Base0, 0, 1), END]), [Bytes("0"), Ok], Ended)
  {
    hide Coherent, Sound, View, Exec, Leads, BaseDirty, BaseProg, Empty, Measured, RunOf, Gives, FlushAll;
    BaseDirties();
    BaseStore();
    BaseDropped(BaseDirty());
    var m := Exec(BaseDirty(), DELETE(Base0)).m;
    RunsToError(Empty(), BaseProg(), [Ok, Ok], BaseDirty(), DELETE(Base0), [END]);
    assert [DELETE(Base0)] + [END] == [DELETE(Base0), END];
    assert [Ok, Ok] + [Refused(NotDefErr)] == [Ok, Ok, Refused(NotDefErr)];
    CoherentQuiet(m);
    assert m.(reported := false) == m;
    forall order
      ensures FlushAll(m, order) == m
    {
      NothingToFlush(m, order);
    }
    ReadQuery(m, Base0, '0');
  }

  /** A query that reads one byte. */
  lemma ReadQuery(m: Mem, ft: FileTag, x: char)
    requires Coherent(m) && m.tam == 1 && ft in m.srv && Measured(1, m.srv, ft) && |View(m)[ft].blocks| == 1
    requires View(m)[ft].blocks[0] == [x]
    ensures Sound(m) && Gives(RunOf(m, [READ(ft, 0, 1), END]), [Bytes([x]), Ok], Ended)
  {
    hide Coherent, Sound, View, Measured, Exec, Leads, RunOf;
    ReadsByte(m, ft, x);
    CoherentQuiet(m);
    LeadsNowhere(m);
    var r := Exec(m, READ(ft, 0, 1)).m;
    LeadsOn(m, [], [], m, READ(ft, 0, 1), Bytes([x]), r);
    RunsToEnd(m, [] + [READ(ft, 0, 1)], [] + [Bytes([x])], r);
    assert [] + [READ(ft, 0, 1)] + [END] == [READ(ft, 0, 1), END];
    assert [] + [Bytes([x])] + [Ok] == [Bytes([x]), Ok];
  }

  // ---------------------------------------------------------------- a WRITE to a COMMITED file

  function CommitedFiles(): FileMap {
    FreshFiles()[A := File(2, Zeros(2), Commited)]
  }

  function CommitedMem(): Mem {
    Made(2).(srv := CommitedFiles())
  }

  lemma {:induction false} CleanFlush(m: Mem, ft: FileTag, j: nat)
    requires Sound(m) && ft in m.tables && forall id :: id in m.pages ==> !m.pages[id].modificado
    ensures FlushFrom(m, ft, j) == m
    decreases m.tables[ft].size - j
  {
    hide Sound;
    if j < m.tables[ft].size {
      PagesInTables(m);
      assert HasPage(m, PageId(ft, j));
      CleanFlush(m, ft, j + 1);
    }
  }

  lemma CommitStore()
    ensures MapStep(1, MadeFiles(2), Commit(A)) == (CommitedFiles(), OpExitosa)
  {
    assert MadeFiles(2)[A := File(2, Zeros(2), Commited)] == CommitedFiles();
  }

  lemma Commits()
    requires Sound(Made(2))
    ensures Exec(Made(2), COMMIT(A)) == Done(CommitedMem(), Ok) && Sound(CommitedMem()) && Untouched(CommitedMem(), A)
    ensures CommitedMem().reported == Made(2).reported
  {
    hide Sound, MapStep;
    CleanFlush(Made(2), A, 0);
    CommitStore();
    SrvSound(Made(2), CommitedFiles());
    hide FlushFrom;
  }

  /** One frame, holding page `gone` of a COMMITED file; page `back` is out of memory. */
  ghost predicate Holding(m: Mem, ft: FileTag, gone: nat, back: nat) {
    && Sound(m) && m.tam == 1 && m.policy == LRU && |m.marcos| == 1 && m.bits == [true] && gone != back
    && m.marcos[0].page == PageId(ft, gone) && ft in m.tables && back < m.tables[ft].size && PageId(ft, gone) in m.pages
    && PageId(ft, back) in m.pages && !m.pages[PageId(ft, back)].presencia && !m.pages[PageId(ft, back)].modificado
    && ft in m.srv && m.srv[ft].estado == Commited && back < |m.srv[ft].blocks| && |m.srv[ft].blocks[back]| == 1
  }

  /** The page that was out takes the frame. */
  function Swapped(m: Mem, ft: FileTag, gone: nat, back: nat, use: bool, time: int): Mem
    requires PageId(ft, gone) in m.pages && ft in m.srv && back < |m.srv[ft].blocks|
    requires PageId(ft, back) in m.pages
  {
    var (a, b) := (PageId(ft, gone), PageId(ft, back));
    m.(clock := if use then m.clock + 1 else m.clock, marcos := [Marco(m.srv[ft].blocks[back], b, time)],
       reported := m.reported || m.pages[a].modificado,
       pages := m.pages[a := m.pages[a].(presencia := false, modificado := false)]
                       [b := Pagina(0, false, use || m.pages[b].uso, true)])
  }

  /** The memory without the page, whose bytes, if any are unwritten, go nowhere. */
  function Gone(m: Mem, ft: FileTag, gone: nat): Mem
    requires PageId(ft, gone) in m.pages && ft in m.tables
  {
    var a := PageId(ft, gone);
    m.(bits := [false], reported := m.reported || m.pages[a].modificado,
       pages := m.pages[a := m.pages[a].(presencia := false, modificado := false)],
       tables := m.tables[ft := Tabla(m.tables[ft].cantidad - 1, m.tables[ft].size)])
  }

  lemma Evicts(m: Mem, ft: FileTag, gone: nat, back: nat)
    requires Holding(m, ft, gone, back)
    ensures Linked(m) && AllBusy(m) && Replace(m, ft) == (Gone(m, ft, gone), 0)
  {
    SoundLinked(m);
    EvictsIt(m, ft, gone, back);
    hide Sound, Linked, Evict, Gone;
    assert PageReplacement.Oldest(Times(m), 1, 0) == 0;
  }

  lemma EvictsIt(m: Mem, ft: FileTag, gone: nat, back: nat)
    requires Holding(m, ft, gone, back) && Linked(m)
    ensures Evict(m, 0, ft) == Gone(m, ft, gone)
  {
    hide Sound, Linked, MapStep;
    RefusedBack(m, ft, gone, back);
    assert [true][0 := false] == [false];
  }

  lemma RefusedBack(m: Mem, ft: FileTag, gone: nat, back: nat)
    requires Holding(m, ft, gone, back) && Linked(m)
    ensures HoldsPage(m, 0) && MapStep(1, m.srv, Write(ft, gone, m.marcos[0].data)) == (m.srv, ErrWriteCommited)
  {
    hide Sound;
  }

  lemma Swaps(m: Mem, ft: FileTag, gone: nat, back: nat)
    requires Holding(m, ft, gone, back)
    ensures PaginaEnTabla(m, PageId(ft, back)) == Ready(Swapped(m, ft, gone, back, false, m.marcos[0].time))
    ensures Sound(Swapped(m, ft, gone, back, false, m.marcos[0].time))
  {
    hide Sound, Linked, Replace, Swapped, AllBusy, BringIn, PaginaEnTabla;
    SoundLinked(m);
    PagesInTables(m);
    Evicts(m, ft, gone, back);
    assert HasPage(m, PageId(ft, back));
    FillsAgain(m, ft, gone, back);
    FaultsIn(m, PageId(ft, back), m.srv[ft].blocks[back]);
  }

  /** A page of a loaded table that is not in memory. */
  lemma FaultsIn(m: Mem, id: PageId, data: Block)
    requires Sound(m) && HasPage(m, id) && id in m.pages && !m.pages[id].presencia
    requires id.ft in m.srv && id.nro < |m.srv[id.ft].blocks| && m.srv[id.ft].blocks[id.nro] == data
    ensures PaginaEnTabla(m, id) == Ready(BringIn(m, id, data)) && Sound(BringIn(m, id, data))
  {
    hide Sound, Linked, BringIn, RefreshTable, KeepsSlack;
    SoundLinked(m);
    assert Solicitar(m, id) == Ready(BringIn(m, id, data));
    hide Solicitar;
    assert PageAt(m, id) == Ready(BringIn(m, id, data));
    hide PageAt;
  }

  lemma FillsAgain(m: Mem, ft: FileTag, gone: nat, back: nat)
    requires Holding(m, ft, gone, back) && HasPage(m, PageId(ft, back)) && Linked(m) && AllBusy(m)
    requires Replace(m, ft) == (Gone(m, ft, gone), 0)
    ensures BringIn(m, PageId(ft, back), m.srv[ft].blocks[back]) == Swapped(m, ft, gone, back, false, m.marcos[0].time)
  {
    hide Sound, Linked, Replace, KeepsSlack;
    assert FirstFree(m.bits, 0) == None by { assert FirstFree(m.bits, 1) == None; }
    assert [false][0 := true] == [true];
    var t := m.tables[ft];
    assert m.tables[ft := Tabla(t.cantidad - 1, t.size)][ft := t] == m.tables;
  }

  lemma SwapRead(m: Mem, ft: FileTag, gone: nat, back: nat)
    requires Holding(m, ft, gone, back)
    ensures Sound(m) && Exec(m, READ(ft, back, 1)) ==
      Done(Swapped(m, ft, gone, back, true, m.clock + 1), Bytes(m.srv[ft].blocks[back]))
    ensures Sound(Swapped(m, ft, gone, back, true, m.clock + 1))
  {
    hide Sound, NeededBlocks, Remainder, PaginaEnTabla, Swapped, Leer;
    Swaps(m, ft, gone, back);
    BytesAreBlocks(back);
    SwappedFrame(m, ft, gone, back);
    ReadsFrame(Swapped(m, ft, gone, back, false, m.marcos[0].time), ft, back, m.srv[ft].blocks[back]);
    UsedIs(m, ft, gone, back);
    Sounds(m, READ(ft, back, 1));
  }

  lemma SwappedFrame(m: Mem, ft: FileTag, gone: nat, back: nat)
    requires Holding(m, ft, gone, back)
    ensures var r := Swapped(m, ft, gone, back, false, m.marcos[0].time);
      && r.tam == 1 && r.policy == LRU && |r.marcos| == 1 && r.marcos[0].data == m.srv[ft].blocks[back]
      && r.marcos[0].page == PageId(ft, back) && Present(r, PageId(ft, back))
  {
    hide Sound;
  }

  lemma UsedIs(m: Mem, ft: FileTag, gone: nat, back: nat)
    requires Holding(m, ft, gone, back)
    ensures Used(Swapped(m, ft, gone, back, false, m.marcos[0].time), PageId(ft, back)) ==
      Swapped(m, ft, gone, back, true, m.clock + 1)
  {
    hide Sound;
  }

  /** A page read in the only frame. */
  function Used(m: Mem, id: PageId): Mem
    requires id in m.pages && |m.marcos| == 1
  {
    m.(clock := m.clock + 1, marcos := [m.marcos[0].(time := m.clock + 1)],
      pages := m.pages[id := m.pages[id].(uso := true)])
  }

  lemma ReadsFrame(m: Mem, ft: FileTag, nro: nat, data: Block)
    requires Sound(m) && Present(m, PageId(ft, nro)) && m.tam == 1 && m.policy == LRU && |m.marcos| == 1
    requires m.marcos[0].data == data && |data| == 1
    ensures Leer(m, PageId(ft, nro), 0, 1) == (Ready(Used(m, PageId(ft, nro))), data)
  {
    hide Sound, Linked, KeepsSlack;
    SoundLinked(m);
    OnlyFrame(m, PageId(ft, nro));
    assert ReadChunk(m, PageId(ft, nro)) == Used(m, PageId(ft, nro));
    assert data[0..1] == data;
  }

  // ---------------------------------------------------------------- and its end

  function LostProg(): seq<Instr> {
    MakeProg(2) + [COMMIT(A)] + [WRITE(A, 0, "x")]
  }

  function LostDirty(): Mem { Written(CommitedMem(), A, 'x') }

  /** The page read has the frame, and the Master knows. */
  function LostOnce(): Mem
    requires Holding(LostDirty(), A, 0, 1)
  {
    Swapped(LostDirty(), A, 0, 1, true, LostDirty().clock + 1).(reported := false)
  }

  lemma HoldsFirst()
    requires Sound(LostDirty())
    ensures Holding(LostDirty(), A, 0, 1) && LostDirty().srv == CommitedFiles() && !LostDirty().reported
    ensures LostDirty().pages[PageId(A, 0)].modificado
  {
    hide Sound;
  }

  lemma HoldsSecond()
    requires Holding(LostDirty(), A, 0, 1) && Sound(LostOnce())
    ensures Holding(LostOnce(), A, 1, 0) && LostOnce().srv == CommitedFiles() && !LostOnce().reported
    ensures PageId(A, 1) in LostOnce().pages
    ensures forall id :: id in LostOnce().pages ==> !LostOnce().pages[id].modificado
  {
    hide Sound;
  }

  /** A query that writes to a COMMITED file is answered with success.  When a later query of the
      Worker reads another page, the page written is evicted, Storage refuses it and the query ends
      in error, the bytes it read being right.  The one after that reads the file as it was, and
      flushing in between changes nothing. */
  lemma CommitedWriteLost()
    ensures Sound(Empty())
    ensures var first := RunOf(Empty(), LostProg() + [END]);
      var second := RunOf(first.m, [READ(A, 1, 1), READ(A, 0, 1), END]);
      && Gives(first, [Ok, Ok, Ok, Ok, Ok], Ended)
      && Gives(second, [Bytes("0")], Failed) && (forall order :: FlushAll(second.m, order) == second.m)
      && Gives(RunOf(second.m, [READ(A, 0, 1), END]), [Bytes("0"), Ok], Ended)
  {
    hide Coherent, Sound, View, Exec, Leads, Made, Empty, CommitedMem, Written, Holding, Swapped, RunOf, LostOnce;
    LostWrites();
    RunsToEnd(Empty(), LostProg(), [Ok, Ok, Ok, Ok], LostDirty());
    assert [Ok, Ok, Ok, Ok] + [Ok] == [Ok, Ok, Ok, Ok, Ok];
    LostEvicts();
    forall order
      ensures FlushAll(LostOnce(), order) == LostOnce()
    {
      HoldsSecond();
      NothingToFlush(LostOnce(), order);
    }
    LostReads();
  }

  lemma LostWrites()
    ensures Leads(Empty(), LostProg(), [Ok, Ok, Ok, Ok], LostDirty()) && Sound(LostDirty())
  {
    hide Coherent, Sound, View, Exec, Leads, Made, Empty, CommitedMem, Written;
    LostStart();
    CoherentBasics(Made(2));
    Commits();
    FirstWrite(CommitedMem(), A, 'x');
    HoldsFirst();
    LeadsOn(Empty(), MakeProg(2) + [COMMIT(A)], [Ok, Ok] + [Ok], CommitedMem(), WRITE(A, 0, "x"), Ok, LostDirty());
    assert [Ok, Ok] + [Ok] + [Ok] == [Ok, Ok, Ok, Ok];
  }

  /** The second query: the write-back is refused. */
  lemma LostEvicts()
    requires Sound(LostDirty())
    ensures Holding(LostDirty(), A, 0, 1) && Sound(LostOnce())
    ensures var run := RunOf(LostDirty(), [READ(A, 1, 1), READ(A, 0, 1), END]);
      Gives(run, [Bytes("0")], Failed) && run.m == LostOnce()
  {
    hide Sound, Exec, Leads, LostDirty, Holding, RunOf;
    HoldsFirst();
    SwapRead(LostDirty(), A, 0, 1);
    LeadsNowhere(LostDirty());
    RunsToError(LostDirty(), [], [], LostDirty(), READ(A, 1, 1), [READ(A, 0, 1), END]);
    ConsultedSound(Exec(LostDirty(), READ(A, 1, 1)).m);
    assert [] + ([READ(A, 1, 1)] + [READ(A, 0, 1), END]) == [READ(A, 1, 1), READ(A, 0, 1), END];
    assert [] + [Bytes("0")] == [Bytes("0")];
  }

  /** The third: the byte written is not there. */
  lemma LostReads()
    requires Holding(LostDirty(), A, 0, 1) && Sound(LostOnce())
    ensures Gives(RunOf(LostOnce(), [READ(A, 0, 1), END]), [Bytes("0"), Ok], Ended)
  {
    hide Sound, Exec, Leads, LostOnce, Holding, Swapped, RunOf;
    HoldsSecond();
    SwapRead(LostOnce(), A, 1, 0);
    var r := Exec(LostOnce(), READ(A, 0, 1)).m;
    LeadsNowhere(LostOnce());
    NotTold(LostOnce(), A, 1, 0);
    assert LostOnce().srv[A].blocks[0] == "0";
    assert !r.reported;
    LeadsOn(LostOnce(), [], [], LostOnce(), READ(A, 0, 1), Bytes("0"), r);
    RunsToEnd(LostOnce(), [] + [READ(A, 0, 1)], [] + [Bytes("0")], r);
    assert [] + [READ(A, 0, 1)] + [END] == [READ(A, 0, 1), END];
    assert [] + [Bytes("0")] + [Ok] == [Bytes("0"), Ok];
  }

  /** A clean victim is not written back. */
  lemma NotTold(m: Mem, ft: FileTag, gone: nat, back: nat)
    requires Holding(m, ft, gone, back) && !m.pages[PageId(ft, gone)].modificado && !m.reported
    ensures !Swapped(m, ft, gone, back, true, m.clock + 1).reported
  {
  }

  lemma LostStart()
    ensures Coherent(Made(2)) && Sound(Made(2)) && Sound(CommitedMem())
    ensures Leads(Empty(), MakeProg(2) + [COMMIT(A)], [Ok, Ok] + [Ok], CommitedMem())
  {
    hide Coherent, Sound, View, Exec, Leads, Made, Empty, CommitedMem, Untouched;
    Makes(2);
    CoherentBasics(Made(2));
    Commits();
    CoherentQuiet(Made(2));
    LeadsOn(Empty(), MakeProg(2), [Ok, Ok], Made(2), COMMIT(A), Ok, CommitedMem());
  }

  lemma FlatCommits()
    requires AllWhole(1, MadeFiles(2))
    ensures FlatExec(1, MadeFiles(2), COMMIT(A)) == FlatDone(CommitedFiles(), Ok)
  {
    hide AllWhole, MapStep;
    CommitStore();
  }

  /** On flat files the byte stays, and no query ends in error. */
  lemma FlatCommitedWrite()
    ensures AllWhole(1, FreshFiles()) && AllWhole(1, LostFiles())
    ensures FlatGives(FlatRunOf(FreshFiles(), LostProg() + [END]), [Ok, Ok, Ok, Ok, Ok], Ended, LostFiles())
    ensures FlatGives(FlatRunOf(LostFiles(), [READ(A, 1, 1), READ(A, 0, 1), END]),
      [Bytes("0"), Bytes("x"), Ok], Ended, LostFiles())
    ensures FlatGives(FlatRunOf(LostFiles(), [READ(A, 0, 1), END]), [Bytes("x"), Ok], Ended, LostFiles())
  {
    hide AllWhole, FlatExec, FlatLeads, FlatRunOf;
    FlatLostWrites();
    FlatToEnd(FreshFiles(), LostProg(), [Ok, Ok, Ok, Ok], LostFiles());
    assert [Ok, Ok, Ok, Ok] + [Ok] == [Ok, Ok, Ok, Ok, Ok];
    FlatLostReads();
    FlatNowhere(LostFiles());
    FlatOn(LostFiles(), [], [], LostFiles(), READ(A, 0, 1), Bytes("x"), LostFiles());
    FlatToEnd(LostFiles(), [] + [READ(A, 0, 1)], [] + [Bytes("x")], LostFiles());
    assert [] + [READ(A, 0, 1)] + [END] == [READ(A, 0, 1), END];
    assert [] + [Bytes("x")] + [Ok] == [Bytes("x"), Ok];
    FlatOn(LostFiles(), [], [], LostFiles(), READ(A, 1, 1), Bytes("0"), LostFiles());
    FlatOn(LostFiles(), [] + [READ(A, 1, 1)], [] + [Bytes("0")], LostFiles(), READ(A, 0, 1), Bytes("x"), LostFiles());
    FlatToEnd(LostFiles(), [] + [READ(A, 1, 1)] + [READ(A, 0, 1)], [] + [Bytes("0")] + [Bytes("x")], LostFiles());
    assert [] + [READ(A, 1, 1)] + [READ(A, 0, 1)] + [END] == [READ(A, 1, 1), READ(A, 0, 1), END];
    assert [] + [Bytes("0")] + [Bytes("x")] + [Ok] == [Bytes("0"), Bytes("x"), Ok];
  }

  lemma FlatLostWrites()
    ensures AllWhole(1, FreshFiles()) && AllWhole(1, LostFiles())
    ensures FlatLeads(FreshFiles(), LostProg(), [Ok, Ok, Ok, Ok], LostFiles())
  {
    hide AllWhole, FlatExec, FlatLeads;
    EmptyFits();
    FlatMade(2);
    FlatCommits();
    FlatOn(FreshFiles(), MakeProg(2), [Ok, Ok], MadeFiles(2), COMMIT(A), Ok, CommitedFiles());
    FlatWrites(CommitedFiles(), A, 2, 'x');
    assert CommitedFiles()[A := File(2, Zeros(2)[0 := "x"], Commited)] == LostFiles();
    FlatOn(FreshFiles(), MakeProg(2) + [COMMIT(A)], [Ok, Ok] + [Ok], CommitedFiles(), WRITE(A, 0, "x"), Ok,
           LostFiles());
    assert [Ok, Ok] + [Ok] + [Ok] == [Ok, Ok, Ok, Ok];
  }

  function LostFiles(): FileMap {
    FreshFiles()[A := File(2, Zeros(2)[0 := "x"], Commited)]
  }

  lemma FlatLostReads()
    requires AllWhole(1, LostFiles())
    ensures FlatExec(1, LostFiles(), READ(A, 1, 1)) == FlatDone(LostFiles(), Bytes("0"))
    ensures FlatExec(1, LostFiles(), READ(A, 0, 1)) == FlatDone(LostFiles(), Bytes("x"))
  {
    hide AllWhole, FlatExec, FlatRead;
    FlatReads(LostFiles(), A, 1);
    FlatReads(LostFiles(), A, 0);
    SecondByte();
    FirstByte();
  }

  lemma FirstByte()
    ensures FlatRead(1, Zeros(2)[0 := "x"], 0, 1) == "x"
  {
    ByteInBlock(1, Zeros(2)[0 := "x"], 0, 0);
  }

  // ---------------------------------------------------------------- resuming before the flush

  function SoonProg(): seq<Instr> { WriteProg(1) + [READ(A, 0, 1)] + [END] }

  /** A second Worker with nothing in memory, when Storage has these files. */
  function Another(srv: FileMap): Mem { Empty().(srv := srv) }

  /** The query is interrupted after its WRITE.  A Worker that resumes it before the first has
      flushed reads the old byte; one that resumes it after reads the byte written. */
  lemma ResumesTooSoon()
    ensures Sound(Empty())
    ensures var first := RunFrom(Empty(), SoonProg(), 0, 3);
      && Gives(first, [Ok, Ok, Ok], Interrupted) && Covers([A], first.m)
      && (var m2 := Another(first.m.srv);
          && Fit(m2, 1, first.m.srv)
          && Gives(RunFrom(m2, SoonProg(), 3, Never(SoonProg())), [Bytes("0"), Ok], Ended))
      && (var m3 := Another(FlushAll(first.m, [A]).srv);
          && Fit(m3, 1, View(first.m))
          && Gives(RunFrom(m3, SoonProg(), 3, Never(SoonProg())), [Bytes("x"), Ok], Ended))
  {
    hide Coherent, Sound, View, Exec, RunFrom, FlushAll, Dirty, Empty, Another;
    SoonStops();
    Covered(Dirty(1), [A]);
    assert Zeros(1) == ["0"] && Zeros(1)[0 := "x"] == ["x"];
    DirtyStore(1);
    SoonReads(MadeFiles(1), '0');
    SoonReads(DirtyFiles(1), 'x');
  }

  lemma SoonStops()
    ensures Sound(Empty()) && Sound(Dirty(1)) && Coherent(Dirty(1)) && View(Dirty(1)) == DirtyFiles(1)
    ensures Covers([A], Dirty(1))
    ensures var first := RunFrom(Empty(), SoonProg(), 0, 3);
      Gives(first, [Ok, Ok, Ok], Interrupted) && first.m == Dirty(1)
  {
    hide Coherent, Sound, View, Exec, RunFrom, Leads, Dirty, Empty, Made, AllWhole, FlatLeads;
    Makes(1);
    CoherentBasics(Made(1));
    MadeUntouched(1);
    FirstWrite(Made(1), A, 'x');
    Dirties(1);
    DirtyStore(1);
    assert Exec(Made(1), WRITE(A, 0, "x")) == Done(Dirty(1), Ok) by { DirtyIs(); }
    RunsToStop(Empty(), MakeProg(1), [Ok, Ok], Made(1), WRITE(A, 0, "x"), Dirty(1), [READ(A, 0, 1)] + [END]);
    assert MakeProg(1) + ([WRITE(A, 0, "x")] + ([READ(A, 0, 1)] + [END])) == SoonProg();
    assert [Ok, Ok] + [Ok] == [Ok, Ok, Ok];
  }

  lemma DirtyIs()
    ensures Written(Made(1), A, 'x') == Dirty(1)
  {
  }

  lemma SoonReads(srv: FileMap, x: char)
    requires srv == FreshFiles()[A := File(1, [[x]], WorkInProgress)]
    ensures Sound(Another(srv)) && Fit(Another(srv), 1, srv)
    ensures Gives(RunFrom(Another(srv), SoonProg(), 3, Never(SoonProg())), [Bytes([x]), Ok], Ended)
  {
    hide Coherent, Sound, View, Exec, RunFrom, Leads, Measured;
    var m := Another(srv);
    EmptyMemoryFits(m);
    MeasuredBytes(srv, A);
    ReadsByte(m, A, x);
    LeadsNowhere(m);
    var r := Exec(m, READ(A, 0, 1)).m;
    LeadsOn(m, [], [], m, READ(A, 0, 1), Bytes([x]), r);
    RunsOnToEnd(m, WriteProg(1), [] + [READ(A, 0, 1)], [] + [Bytes([x])], r);
    assert WriteProg(1) + ([] + [READ(A, 0, 1)]) + [END] == SoonProg();
    assert [] + [Bytes([x])] + [Ok] == [Bytes([x]), Ok];
  }
}
