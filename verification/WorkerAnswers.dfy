/** What each instruction is answered, in the files alone: which failures are reported to the
    Master, and that the query ends at the first of them. */
module WorkerAnswers {
  import opened StorageModel
  import opened StorageSpec
  import opened FlatFile
  import opened StorageAnswers
  import opened WorkerModel
  import opened WorkerFrames
  import opened WorkerReference
  import opened WorkerInstructions
  import opened WorkerQueries
  import opened WorkerSearch

  // ---------------------------------------------------------------- requests, on flat files

  function Empty(): File { File(0, [], WorkInProgress) }

  lemma CreateAnswers(tam: nat, v: FileMap, ft: FileTag)
    requires 0 < tam && AllWhole(tam, v)
    ensures FlatExec(tam, v, CREATE(ft)) ==
      if ft in v then FlatDone(v, Refused(ErrPreexistencia)) else FlatDone(v[ft := Empty()], Ok)
  {
    hide AllWhole;
  }

  /** The destination is created first: it is there, empty, when the source is not. */
  lemma TagAnswers(tam: nat, v: FileMap, src: FileTag, dst: FileTag)
    requires 0 < tam && AllWhole(tam, v)
    ensures FlatExec(tam, v, TAG(src, dst)) ==
      if dst in v then FlatDone(v, Refused(ErrPreexistencia))
      else if src in v then FlatDone(v[dst := File(v[src].tamanio, v[src].blocks, WorkInProgress)], Ok)
      else if src == dst then FlatDone(v[dst := Empty()], Ok)
      else FlatDone(v[dst := Empty()], Refused(ErrInexistencia))
  {
    hide AllWhole;
  }

  lemma CommitAnswers(tam: nat, v: FileMap, ft: FileTag)
    requires 0 < tam && AllWhole(tam, v)
    ensures FlatExec(tam, v, COMMIT(ft)) ==
      if ft in v then FlatDone(v[ft := File(v[ft].tamanio, v[ft].blocks, Commited)], Ok)
      else FlatDone(v, Refused(ErrInexistencia))
  {
    hide AllWhole;
  }

  lemma DeleteAnswersFlat(tam: nat, v: FileMap, ft: FileTag)
    requires 0 < tam && AllWhole(tam, v)
    ensures FlatExec(tam, v, DELETE(ft)) ==
      if NamesBase(ft) then FlatDone(v, Refused(NotDefErr))
      else if ft in v then FlatDone(v - {ft}, Ok)
      else FlatDone(v, Refused(ErrInexistencia))
  {
    hide AllWhole, NamesBase;
    BaseIsNamed(ft);
  }

  /** The size asked for grows by its remainder, and the file has as many blocks as that holds whole
      pages: those it had, then blocks of the digit 0.  With no file the process ends. */
  lemma TruncateAnswers(tam: nat, v: FileMap, ft: FileTag, size: nat)
    requires 0 < tam && AllWhole(tam, v)
    ensures var e := FlatExec(tam, v, TRUNCATE(ft, size));
      && (ft !in v <==> e.FlatStop?)
      && (ft in v && v[ft].estado == Commited ==> e == FlatDone(v, Refused(ErrWriteCommited)))
      && (ft in v && v[ft].estado == WorkInProgress ==>
            && e.FlatDone? && e.answer == Ok && ft in e.v && e.v == v[ft := e.v[ft]]
            && e.v[ft].tamanio == size + size % tam && e.v[ft].estado == WorkInProgress
            && |e.v[ft].blocks| == (size + size % tam) / tam
            && forall k :: 0 <= k < |e.v[ft].blocks| ==>
                 if k < |v[ft].blocks| then e.v[ft].blocks[k] == v[ft].blocks[k]
                 else |e.v[ft].blocks[k]| == tam && forall o :: 0 <= o < tam ==> e.v[ft].blocks[k][o] == '0')
  {
    RemainderIsMod(tam, size);
    CountsAreQuotients(size + size % tam, tam);
    hide AllWhole, NeededBlocks, Remainder;
  }

  /** How many pages a copy of `len` bytes from byte `off` of a page goes through. */
  function PagesRead(tam: nat, off: nat, len: nat): nat
    requires 0 < tam
  {
    if off + len <= tam then 1 else (len + tam - 1) / tam
  }

  lemma PagesAre(tam: nat, base: nat, len: nat)
    requires 0 < tam
    ensures NeededBlocks(tam, base) == base / tam && Remainder(tam, base) == base % tam
    ensures PagesTouched(tam, base % tam, len) == PagesRead(tam, base % tam, len)
  {
    CountsAreQuotients(base, tam);
    CountsAreQuotients(len, tam);
    RemainderIsMod(tam, base);
  }

  /** READ and WRITE: an address beyond the file's last page but one is refused, and a copy that runs
      past the file ends the process. */
  lemma CopyAnswers(tam: nat, v: FileMap, ft: FileTag, base: nat, len: nat, text: string)
    requires 0 < tam && AllWhole(tam, v)
    ensures var (r, w) := (FlatExec(tam, v, READ(ft, base, len)), FlatExec(tam, v, WRITE(ft, base, text)));
      && (ft !in v ==> r.FlatStop? && w.FlatStop?)
      && (ft in v && base / tam > |v[ft].blocks| ==>
            r == FlatDone(v, Refused(ErrFueraLimite)) && w == FlatDone(v, Refused(ErrFueraLimite)))
      && (ft in v && base / tam <= |v[ft].blocks| ==>
            && (r.FlatStop? <==> base / tam + PagesRead(tam, base % tam, len) > |v[ft].blocks|)
            && (r.FlatDone? ==> r.v == v && r.answer.Bytes?)
            && (w.FlatStop? <==> base / tam + PagesRead(tam, base % tam, |text|) > |v[ft].blocks|)
            && (w.FlatDone? ==> w.answer == Ok))
  {
    PagesAre(tam, base, len);
    PagesAre(tam, base, |text|);
    hide AllWhole, NeededBlocks, Remainder, PagesTouched, PagesRead, Transferred, FlatRead, FlatWrite;
  }

  // ---------------------------------------------------------------- requests, through a memory

  /** Whatever the memory holds, the instructions that are requests alone are answered as the files
      in Storage say. */
  lemma RequestAnswers(m: Mem, src: FileTag, ft: FileTag)
    requires Sound(m)
    ensures var e := Exec(m, CREATE(ft)); e.Done? && e.answer == if ft in m.srv then Refused(ErrPreexistencia) else Ok
    ensures var e := Exec(m, TAG(src, ft));
      e.Done? && e.answer ==
        if ft in m.srv then Refused(ErrPreexistencia)
        else if src in m.srv || src == ft then Ok else Refused(ErrInexistencia)
    ensures var e := Exec(m, DELETE(ft));
      e.Done? && e.answer ==
        if NamesBase(ft) then Refused(NotDefErr) else if ft in m.srv then Ok else Refused(ErrInexistencia)
  {
    BaseIsNamed(ft);
    hide Sound, NamesBase, DropPages, IsBaseFile;
    DroppedStore(m, ft);
  }

  lemma DroppedStore(m: Mem, ft: FileTag)
    requires Sound(m)
    ensures DropPages(m, ft).srv == m.srv
  {
    if ft in m.tables { DropPagesSound(m, ft); }
    hide Sound, FreeFrom;
  }

  // ---------------------------------------------------------------- where a query ends

  /** The instructions executed are consecutive, and none but the last was END or an error. */
  ghost predicate Straight(prog: seq<Instr>, pc: nat, trace: Trace) {
    var n := |trace|;
    && (n == 0 || pc + n <= |prog|)
    && (forall i :: 0 <= i < n ==> trace[i].0 == pc + i)
    && (forall i :: 0 <= i < n - 1 ==> !prog[pc + i].END? && !trace[i].1.Refused?)
  }

  /** How the last instruction ends the query: END, an error, the interruption at `stop`; or there is
      no next one, or the process ends in it. */
  ghost predicate EndsAs(prog: seq<Instr>, pc: nat, stop: nat, trace: Trace, last: nat, ending: Ending)
    requires Straight(prog, pc, trace)
  {
    var n := |trace|;
    var (atEnd, failed) := (n > 0 && prog[pc + n - 1].END?, n > 0 && trace[n - 1].1.Refused?);
    && (ending == Ended <==> atEnd)
    && (ending == Failed <==> !atEnd && failed)
    && (ending == Interrupted <==> !atEnd && !failed && n > 0 && pc + n == stop)
    && (ending == Crashed ==> pc + n < |prog|)
    && (ending == Exhausted ==> pc + n >= |prog|)
    && last == if ending == Ended then pc + n - 1 else pc + n
  }

  lemma StraightOn(prog: seq<Instr>, pc: nat, a: Answer, rest: Trace)
    requires pc < |prog| && !prog[pc].END? && !a.Refused? && Straight(prog, pc + 1, rest)
    ensures Straight(prog, pc, [(pc, a)] + rest)
  {
    var trace := [(pc, a)] + rest;
    forall i | 0 <= i < |trace|
      ensures trace[i].0 == pc + i
      ensures i < |trace| - 1 ==> !prog[pc + i].END? && !trace[i].1.Refused?
    {
      if i > 0 {
        assert trace[i] == rest[i - 1] && prog[pc + i] == prog[pc + 1 + (i - 1)];
      }
    }
  }

  lemma EndsOn(prog: seq<Instr>, pc: nat, stop: nat, a: Answer, rest: Trace, last: nat, ending: Ending)
    requires pc < |prog| && !prog[pc].END? && !a.Refused? && pc + 1 != stop
    requires Straight(prog, pc + 1, rest) && EndsAs(prog, pc + 1, stop, rest, last, ending)
    ensures Straight(prog, pc, [(pc, a)] + rest) && EndsAs(prog, pc, stop, [(pc, a)] + rest, last, ending)
  {
    StraightOn(prog, pc, a, rest);
    hide Straight;
    if rest != [] { assert ([(pc, a)] + rest)[|rest|] == rest[|rest| - 1]; }
  }

  /** One turn of the loop. */
  lemma FlatTurn(tam: nat, v: FileMap, prog: seq<Instr>, pc: nat, stop: nat)
    requires 0 < tam && AllWhole(tam, v) && pc < |prog|
    ensures var (r, e) := (FlatRunFrom(tam, v, prog, pc, stop), FlatExec(tam, v, prog[pc]));
      if e.FlatStop? then r == FlatRun([], v, pc, Crashed)
      else
        && AllWhole(tam, e.v)
        && if prog[pc].END? then r == FlatRun([(pc, e.answer)], e.v, pc, Ended)
           else if e.answer.Refused? then r == FlatRun([(pc, e.answer)], e.v, pc + 1, Failed)
           else if pc + 1 == stop then r == FlatRun([(pc, e.answer)], e.v, pc + 1, Interrupted)
           else
             var rest := FlatRunFrom(tam, e.v, prog, pc + 1, stop);
             r == rest.(trace := [(pc, e.answer)] + rest.trace)
  {
    hide FlatExec, AllWhole;
    if FlatExec(tam, v, prog[pc]).FlatDone? { FlatExecWhole(tam, v, prog[pc]); }
  }

  /** On flat files. */
  lemma {:induction false} FlatEnds(tam: nat, v: FileMap, prog: seq<Instr>, pc: nat, stop: nat)
    requires 0 < tam && AllWhole(tam, v)
    ensures var r := FlatRunFrom(tam, v, prog, pc, stop);
      Straight(prog, pc, r.trace) && EndsAs(prog, pc, stop, r.trace, r.pc, r.ending)
    decreases |prog| - pc
  {
    hide FlatExec, AllWhole, FlatRunFrom;
    if pc >= |prog| {
      FlatPast(tam, v, prog, pc, stop);
    } else {
      FlatTurn(tam, v, prog, pc, stop);
      var e := FlatExec(tam, v, prog[pc]);
      if prog[pc].END? {
        QuietEnd(tam, v);
      } else if e.FlatDone? && !e.answer.Refused? && pc + 1 != stop {
        FlatEnds(tam, e.v, prog, pc + 1, stop);
        var rest := FlatRunFrom(tam, e.v, prog, pc + 1, stop);
        EndsOn(prog, pc, stop, e.answer, rest.trace, rest.pc, rest.ending);
      }
    }
  }

  lemma FlatPast(tam: nat, v: FileMap, prog: seq<Instr>, pc: nat, stop: nat)
    requires 0 < tam && AllWhole(tam, v) && pc >= |prog|
    ensures FlatRunFrom(tam, v, prog, pc, stop) == FlatRun([], v, pc, Exhausted)
  {
    hide AllWhole;
  }

  lemma QuietEnd(tam: nat, v: FileMap)
    requires 0 < tam && AllWhole(tam, v)
    ensures FlatExec(tam, v, END) == FlatDone(v, Ok)
  {
    hide AllWhole;
  }

  /** On any memory: an error is the last thing in a trace, and ends it as one. */
  lemma {:induction false} ErrorIsLast(m: Mem, prog: seq<Instr>, pc: nat, stop: nat)
    requires Sound(m)
    ensures var r := RunFrom(m, prog, pc, stop);
      && Straight(prog, pc, r.trace)
      && (r.trace != [] && r.trace[|r.trace| - 1].1.Refused? ==> r.ending == Failed && r.pc == pc + |r.trace|)
    decreases |prog| - pc
  {
    hide Sound, Exec, RunFrom;
    if pc >= |prog| {
      RunDone(m, prog, pc, stop);
    } else {
      RunNext(m, prog, pc, stop);
      var e := Exec(m, prog[pc]);
      if e.Done? {
        if prog[pc].END? {
          EndAnswer(m);
        } else if !e.answer.Refused? && !e.m.reported && pc + 1 != stop {
          ErrorIsLast(e.m, prog, pc + 1, stop);
          StraightOn(prog, pc, e.answer, RunFrom(e.m, prog, pc + 1, stop).trace);
        }
      }
    }
  }

  lemma EndAnswer(m: Mem)
    requires Sound(m)
    ensures Exec(m, END) == Done(m, Ok)
  {
    hide Sound;
  }

  /** A CREATE of a File:Tag that exists, or a TAG onto one, ends the query there, with that error,
      and nothing after it is executed. */
  lemma ExistingEndsQuery(m: Mem, prog: seq<Instr>, pc: nat, stop: nat)
    requires Sound(m) && pc < |prog| && (prog[pc].CREATE? || prog[pc].TAG?) && prog[pc].ft in m.srv
    ensures var r := RunFrom(m, prog, pc, stop);
      r.trace == [(pc, Refused(ErrPreexistencia))] && r.ending == Failed && r.pc == pc + 1
  {
    RequestAnswers(m, if prog[pc].TAG? then prog[pc].src else prog[pc].ft, prog[pc].ft);
    hide Sound, Exec, RunFrom;
    RunNext(m, prog, pc, stop);
  }
}
