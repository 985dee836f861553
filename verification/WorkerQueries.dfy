/** A query's instruction loop, its interruption and its resumption on another Worker. */
module WorkerQueries {
  import opened StorageModel
  import opened StorageSpec
  import opened WorkerModel
  import opened WorkerFrames
  import opened WorkerView
  import opened WorkerReference
  import opened WorkerInstructions
  import opened WorkerFlush
  import opened WorkerSimulation

  /** How the loop is left: after END, when the Master interrupts, after an error the Master was
      told of, past the last instruction, or with the process. */
  datatype Ending = Ended | Interrupted | Failed | Exhausted | Crashed

  /** One entry for each instruction executed, with its program counter. */
  type Trace = seq<(nat, Answer)>

  datatype Run = Run(trace: Trace, m: Mem, pc: nat, ending: Ending)

  datatype FlatRun = FlatRun(trace: Trace, v: FileMap, pc: nat, ending: Ending)

  // ---------------------------------------------------------------- the loop

  /** After each instruction the Master is consulted with the next pc: it interrupts at `stop`,
      and after an error it was told of, be it the instruction's or a refused write-back's. */
  function RunFrom(m: Mem, prog: seq<Instr>, pc: nat, stop: nat): (r: Run)
    requires Sound(m)
    ensures Sound(r.m) && r.m.tam == m.tam
    decreases |prog| - pc
  {
    hide Sound, Exec;
    if pc >= |prog| then Run([], m, pc, Exhausted)
    else
      var e := Exec(m, prog[pc]);
      if e.Stop? then Run([], m, pc, Crashed)
      else if prog[pc].END? then Run([(pc, e.answer)], e.m, pc, Ended)
      else if e.answer.Refused? || e.m.reported then
        ConsultedSound(e.m);
        Run([(pc, e.answer)], e.m.(reported := false), pc + 1, Failed)
      else if pc + 1 == stop then Run([(pc, e.answer)], e.m, pc + 1, Interrupted)
      else
        var rest := RunFrom(e.m, prog, pc + 1, stop);
        rest.(trace := [(pc, e.answer)] + rest.trace)
  }

  lemma ConsultedSound(m: Mem)
    requires Sound(m)
    ensures var r := m.(reported := false);
      Sound(r) && KeepsSlack(m, r) && r.tables == m.tables
  {
    var r := m.(reported := false);
    SamePlacementLinked(m, r);
    assert forall g :: Resident(r, g) == Resident(m, g);
    assert CountsAhead(r);
  }

  lemma CoherentQuiet(m: Mem)
    requires Coherent(m)
    ensures !m.reported
  {
  }

  function FlatRunFrom(tam: nat, v: FileMap, prog: seq<Instr>, pc: nat, stop: nat): FlatRun
    requires 0 < tam && AllWhole(tam, v)
    decreases |prog| - pc
  {
    if pc >= |prog| then FlatRun([], v, pc, Exhausted)
    else
      var e := FlatExec(tam, v, prog[pc]);
      if e.FlatStop? then FlatRun([], v, pc, Crashed)
      else
        FlatExecWhole(tam, v, prog[pc]);
        if prog[pc].END? then FlatRun([(pc, e.answer)], e.v, pc, Ended)
        else if e.answer.Refused? then FlatRun([(pc, e.answer)], e.v, pc + 1, Failed)
        else if pc + 1 == stop then FlatRun([(pc, e.answer)], e.v, pc + 1, Interrupted)
        else
          var rest := FlatRunFrom(tam, e.v, prog, pc + 1, stop);
          rest.(trace := [(pc, e.answer)] + rest.trace)
  }

  /** A `stop` the loop does not reach. */
  function Never(prog: seq<Instr>): nat {
    |prog| + 1
  }

  /** Every instruction the loop reaches is admitted by the cache it finds. */
  ghost predicate Guarded(m: Mem, prog: seq<Instr>, pc: nat, stop: nat)
    requires Sound(m) && 0 < m.tam
    decreases |prog| - pc
  {
    hide Sound, Exec, Admits;
    pc < |prog| ==>
      && Admits(m, prog[pc])
      && var e := Exec(m, prog[pc]);
         e.Done? && !prog[pc].END? && !e.answer.Refused? && !e.m.reported && pc + 1 != stop ==>
           Guarded(e.m, prog, pc + 1, stop)
  }

  // ---------------------------------------------------------------- runs on flat files

  lemma {:induction false} RunSimulates(m: Mem, prog: seq<Instr>, pc: nat, stop: nat)
    requires Coherent(m) && Sound(m) && 0 < m.tam && AllWhole(m.tam, View(m)) && Guarded(m, prog, pc, stop)
    ensures var r := RunFrom(m, prog, pc, stop);
      var flat := FlatRunFrom(m.tam, View(m), prog, pc, stop);
      && r.trace == flat.trace && r.pc == flat.pc && r.ending == flat.ending
      && Coherent(r.m) && View(r.m) == flat.v
    decreases |prog| - pc
  {
    hide Coherent, Sound, AllWhole, View, Exec, FlatExec, Admits;
    if pc < |prog| {
      ExecSimulates(m, prog[pc]);
      var e := Exec(m, prog[pc]);
      if e.Done? {
        ViewAllWhole(e.m);
        CoherentQuiet(e.m);
        if !prog[pc].END? && !e.answer.Refused? && pc + 1 != stop {
          RunSimulates(e.m, prog, pc + 1, stop);
        }
      }
    }
  }

  /** A run executes consecutive instructions, each once. */
  lemma {:induction false} TraceConsecutive(tam: nat, v: FileMap, prog: seq<Instr>, pc: nat, stop: nat)
    requires 0 < tam && AllWhole(tam, v)
    ensures var r := FlatRunFrom(tam, v, prog, pc, stop);
      && (forall i :: 0 <= i < |r.trace| ==> r.trace[i].0 == pc + i)
      && (r.ending == Interrupted ==> r.pc == stop == pc + |r.trace| && |r.trace| > 0)
    decreases |prog| - pc
  {
    hide FlatExec, AllWhole;
    if pc < |prog| {
      var e := FlatExec(tam, v, prog[pc]);
      if e.FlatDone? {
        FlatExecWhole(tam, v, prog[pc]);
        if !prog[pc].END? && !e.answer.Refused? && pc + 1 != stop {
          TraceConsecutive(tam, e.v, prog, pc + 1, stop);
        }
      }
    }
  }

  function Joined(first: Trace, rest: FlatRun): FlatRun {
    rest.(trace := first + rest.trace)
  }

  lemma {:induction false} FlatRunWhole(tam: nat, v: FileMap, prog: seq<Instr>, pc: nat, stop: nat)
    requires 0 < tam && AllWhole(tam, v)
    ensures AllWhole(tam, FlatRunFrom(tam, v, prog, pc, stop).v)
    decreases |prog| - pc
  {
    hide FlatExec, AllWhole;
    if pc < |prog| {
      var e := FlatExec(tam, v, prog[pc]);
      if e.FlatDone? {
        FlatExecWhole(tam, v, prog[pc]);
        if !prog[pc].END? && !e.answer.Refused? && pc + 1 != stop {
          FlatRunWhole(tam, e.v, prog, pc + 1, stop);
        }
      }
    }
  }

  /** An uninterrupted run is the run up to `stop` and the run from there. */
  lemma {:induction false} FlatSplit(tam: nat, v: FileMap, prog: seq<Instr>, pc: nat, stop: nat)
    requires 0 < tam && AllWhole(tam, v)
    ensures var a := FlatRunFrom(tam, v, prog, pc, stop);
      && AllWhole(tam, a.v)
      && FlatRunFrom(tam, v, prog, pc, Never(prog)) ==
           if a.ending == Interrupted then Joined(a.trace, FlatRunFrom(tam, a.v, prog, a.pc, Never(prog))) else a
    decreases |prog| - pc
  {
    hide FlatExec, AllWhole;
    FlatRunWhole(tam, v, prog, pc, stop);
    if pc < |prog| {
      var e := FlatExec(tam, v, prog[pc]);
      if e.FlatDone? {
        FlatExecWhole(tam, v, prog[pc]);
        if !prog[pc].END? && !e.answer.Refused? && pc + 1 != stop {
          FlatSplit(tam, e.v, prog, pc + 1, stop);
          var rest := FlatRunFrom(tam, e.v, prog, pc + 1, stop);
          if rest.ending == Interrupted {
            FlatRunWhole(tam, e.v, prog, pc + 1, stop);
            JoinedTwice((pc, e.answer), rest.trace, FlatRunFrom(tam, rest.v, prog, rest.pc, Never(prog)));
          }
        }
      }
    }
  }

  lemma JoinedTwice(x: (nat, Answer), s: Trace, rest: FlatRun)
    ensures [x] + (s + rest.trace) == ([x] + s) + rest.trace
  {
  }

  // ---------------------------------------------------------------- interruption and resumption

  ghost predicate Covers(order: seq<FileTag>, m: Mem) {
    forall ft :: ft in m.tables ==> ft in order
  }

  /** A Worker a query can resume on: whatever it holds in memory, it sees the files Storage has.
      So does one with no page of any file. */
  ghost predicate Fit(m: Mem, tam: nat, v: FileMap) {
    Coherent(m) && Sound(m) && 0 < m.tam == tam && View(m) == v
  }

  lemma EmptyMemoryFits(m: Mem)
    requires 0 < |m.marcos| == |m.bits| && m.hand < |m.marcos| && 0 < m.tam && FramesWhole(m)
    requires (forall f: nat :: f < |m.bits| ==> !m.bits[f]) && m.tables == map[] && m.pages == map[]
    requires WholeBlocks(m.tam, m.srv) && !m.reported
    ensures Fit(m, m.tam, m.srv)
  {
    assert forall id :: !HasPage(m, id);
    forall ft | ft in m.srv
      ensures BlocksView(m, ft) == m.srv[ft].blocks
    {
    }
    assert View(m) == m.srv;
  }

  /** Stopping after any instruction, flushing every file:tag and resuming at the saved pc gives
      the answers, the files and the ending of the run without interruption. */
  lemma PreemptResume(m: Mem, prog: seq<Instr>, pc: nat, stop: nat, order: seq<FileTag>, m2: Mem)
    requires Fit(m, m.tam, View(m)) && Guarded(m, prog, pc, stop) && Guarded(m, prog, pc, Never(prog))
    requires RunFrom(m, prog, pc, stop).ending == Interrupted && Covers(order, RunFrom(m, prog, pc, stop).m)
    requires Fit(m2, m.tam, FlushAll(RunFrom(m, prog, pc, stop).m, order).srv)
    requires Guarded(m2, prog, stop, Never(prog))
    ensures var whole := RunFrom(m, prog, pc, Never(prog));
      var (first, rest) := (RunFrom(m, prog, pc, stop), RunFrom(m2, prog, stop, Never(prog)));
      && first.pc == stop && whole.trace == first.trace + rest.trace
      && View(whole.m) == View(rest.m) && whole.pc == rest.pc && whole.ending == rest.ending
      && (forall i :: 0 <= i < |whole.trace| ==> whole.trace[i].0 == pc + i)
  {
    hide Coherent, Sound, View, AllWhole, RunFrom, FlatRunFrom, Guarded, FlushAll, Covers;
    ViewAllWhole(m);
    ViewAllWhole(m2);
    RunSimulates(m, prog, pc, stop);
    RunSimulates(m, prog, pc, Never(prog));
    TraceConsecutive(m.tam, View(m), prog, pc, stop);
    TraceConsecutive(m.tam, View(m), prog, pc, Never(prog));
    FlatSplit(m.tam, View(m), prog, pc, stop);
    var first := RunFrom(m, prog, pc, stop);
    Covered(first.m, order);
    RunSimulates(m2, prog, stop, Never(prog));
  }

  lemma Covered(m: Mem, order: seq<FileTag>)
    requires Coherent(m) && Sound(m) && Covers(order, m)
    ensures FlushAll(m, order).srv == View(m)
  {
    hide Coherent, Sound, View, FlushAll;
    FlushAllStored(m, order);
  }

  // ---------------------------------------------------------------- any number of interruptions

  /** One stay of the query on a Worker: its memory, where it is interrupted, and the order its
      tables are flushed in. */
  datatype Leg = Leg(m: Mem, stop: nat, order: seq<FileTag>)

  /** The query goes from Worker to Worker; each leg starts from what the last left in Storage. */
  ghost predicate Relay(tam: nat, v: FileMap, prog: seq<Instr>, pc: nat, legs: seq<Leg>)
    decreases |legs|
  {
    hide Sound, Coherent, View, FlushAll, Guarded, RunFrom;
    |legs| > 0 && Fit(legs[0].m, tam, v) && Guarded(legs[0].m, prog, pc, legs[0].stop) &&
    var r := RunFrom(legs[0].m, prog, pc, legs[0].stop);
    if r.ending == Interrupted then
      Covers(legs[0].order, r.m) && Relay(tam, FlushAll(r.m, legs[0].order).srv, prog, r.pc, legs[1..])
    else |legs| == 1
  }

  /** What the legs do together. */
  ghost function RelayRun(tam: nat, v: FileMap, prog: seq<Instr>, pc: nat, legs: seq<Leg>): Run
    requires Relay(tam, v, prog, pc, legs)
    decreases |legs|
  {
    hide Sound, Coherent, View, FlushAll, Guarded, RunFrom, Covers;
    var r := RunFrom(legs[0].m, prog, pc, legs[0].stop);
    if r.ending == Interrupted then
      var rest := RelayRun(tam, FlushAll(r.m, legs[0].order).srv, prog, r.pc, legs[1..]);
      rest.(trace := r.trace + rest.trace)
    else r
  }

  /** However often a query is interrupted, and whatever Workers it resumes on, it gives the
      answers of one run on flat files and leaves the same files. */
  lemma {:induction false} RelayIsOneRun(tam: nat, v: FileMap, prog: seq<Instr>, pc: nat, legs: seq<Leg>)
    requires 0 < tam && AllWhole(tam, v) && Relay(tam, v, prog, pc, legs)
    ensures var r := RelayRun(tam, v, prog, pc, legs);
      var flat := FlatRunFrom(tam, v, prog, pc, Never(prog));
      && r.trace == flat.trace && View(r.m) == flat.v && r.pc == flat.pc && r.ending == flat.ending
      && (forall i :: 0 <= i < |r.trace| ==> r.trace[i].0 == pc + i)
    decreases |legs|
  {
    hide Coherent, Sound, View, AllWhole, RunFrom, FlatRunFrom, Guarded, FlushAll, Covers;
    var leg := legs[0];
    RunSimulates(leg.m, prog, pc, leg.stop);
    TraceConsecutive(tam, v, prog, pc, Never(prog));
    FlatSplit(tam, v, prog, pc, leg.stop);
    var r := RunFrom(leg.m, prog, pc, leg.stop);
    if r.ending == Interrupted {
      Covered(r.m, leg.order);
      RelayIsOneRun(tam, FlushAll(r.m, leg.order).srv, prog, r.pc, legs[1..]);
    }
  }
}
