/** Every instruction through the Worker's memory is the same instruction on flat files. */
module WorkerSimulation {
  import opened StorageModel
  import opened StorageSpec
  import opened FlatFile
  import opened WorkerModel
  import opened WorkerFrames
  import opened WorkerAccess
  import opened WorkerCopies
  import opened WorkerView
  import opened WorkerFaults
  import opened WorkerTransparency
  import opened WorkerBytes
  import opened WorkerReference
  import opened WorkerInstructions
  import opened WorkerFlush
  import opened WorkerRequests
  import opened WorkerTruncate

  lemma ViewAllWhole(m: Mem)
    requires Coherent(m)
    ensures 0 < m.tam && Sound(m) && AllWhole(m.tam, View(m))
  {
    hide Coherent, Sound, BlocksView;
    CoherentBasics(m);
    forall ft | ft in View(m)
      ensures Whole(m.tam, View(m)[ft].blocks)
    {
      ViewWhole(m, ft);
    }
  }

  // ---------------------------------------------------------------- WRITE

  lemma WroteIsFlat(m: Mem, r: Mem, ft: FileTag, base: nat, text: string)
    requires Coherent(m) && Wrote(m, r, ft, base, text)
    ensures Whole(m.tam, View(m)[ft].blocks)
    ensures View(r) == View(m)[ft := View(m)[ft].(blocks := FlatWrite(m.tam, View(m)[ft].blocks, base, text))]
  {
    hide Coherent, FlatWritten, FlatWrite, View;
    ViewWhole(m, ft);
    FlatWriteIsWritten(m.tam, View(m)[ft].blocks, base, text);
    FlatUnique(m.tam, View(m)[ft].blocks, base, text, View(r)[ft].blocks,
               FlatWrite(m.tam, View(m)[ft].blocks, base, text));
  }

  /** The same, on the page that is found. */
  lemma WriteFound(m: Mem, m1: Mem, id: PageId, base: nat, text: string, r: Outcome)
    requires Coherent(m) && Transparent(m, m1) && Sound(m1) && Present(m1, id) && Measured(m.tam, m.srv, id.ft)
    requires 0 < m.tam && id.ft in m.srv && m.srv[id.ft].estado == WorkInProgress && id.nro < |m.srv[id.ft].blocks|
    requires id.nro == NeededBlocks(m.tam, base) && m1.tam == m.tam
    requires r == Escribir(m1, id, Remainder(m.tam, base), text)
    ensures r.Ready? <==> id.nro + PagesTouched(m.tam, Remainder(m.tam, base), |text|) <= |m.srv[id.ft].blocks|
    ensures r.Ready? ==>
      Wrote(m, r.m, id.ft, base, First(text, Transferred(m.tam, Remainder(m.tam, base), |text|)))
  {
    hide Coherent, Sound, Transparent, Escribir, Wrote, PagesTouched, Transferred, First, Remainder;
    hide NeededBlocks, Present;
    var off := Remainder(m.tam, base);
    TransparentKeepsHeaders(m, m1);
    CoherentOf(m, m1);
    assert SameHeader(m.srv[id.ft], m1.srv[id.ft]);
    PageOf(m.tam, base);
    EscribirWrote(m1, id, off, text, r);
    if r.Ready? {
      TransparentWrote(m, m1, r.m, id.ft, base, First(text, Transferred(m.tam, off, |text|)));
    }
  }

  /** Memory and flat files agree after an instruction. */
  ghost predicate Agree(m: Mem, r: Effect, flat: FlatEffect) {
    && (r.Stop? <==> flat.FlatStop?)
    && (r.Done? ==>
          r.answer == flat.answer && Coherent(r.m) && View(r.m) == flat.v && r.m.tam == m.tam)
  }

  lemma WriteSimulates(m: Mem, ft: FileTag, base: nat, text: string)
    requires Coherent(m) && Sound(m) && Measured(m.tam, m.srv, ft) && 0 < m.tam && AllWhole(m.tam, View(m))
    requires ft in m.srv ==> m.srv[ft].estado == WorkInProgress
    ensures Agree(m, WriteAt(m, ft, base, text), FlatExec(m.tam, View(m), WRITE(ft, base, text)))
  {
    hide Coherent, Sound, Transparent, PaginaEnTabla, Escribir, Wrote, PagesTouched, Transferred, First;
    hide Remainder, NeededBlocks;
    hide Present, AllWhole, FlatWrite, BlocksView;
    var id := PageId(ft, NeededBlocks(m.tam, base));
    var off := Remainder(m.tam, base);
    PaginaCoherent(m, id);
    match PaginaEnTabla(m, id)
    case Exit =>
      TouchedPositive(m.tam, off, |text|);
    case Null(m1) =>
      TransparentParts(m, m1);
    case Ready(m1) =>
      var r := Escribir(m1, id, off, text);
      WriteFound(m, m1, id, base, text, r);
      if r.Ready? {
        var sent := First(text, Transferred(m.tam, off, |text|));
        WroteKeepsHeaders(m, r.m, ft, base, sent);
        WroteIsFlat(m, r.m, ft, base, sent);
      }
  }

  lemma TouchedPositive(tam: nat, off: nat, len: nat)
    requires off < tam
    ensures PagesTouched(tam, off, len) >= 1
  {
    CeilBounds(len, tam);
  }

  lemma TransparentParts(m: Mem, r: Mem)
    requires Transparent(m, r)
    ensures Coherent(r) && View(r) == View(m) && r.tam == m.tam
  {
  }

  // ---------------------------------------------------------------- READ

  lemma ReadFound(m: Mem, m1: Mem, id: PageId, base: nat, len: nat, r: (Outcome, string))
    requires Coherent(m) && Transparent(m, m1) && Sound(m1) && Present(m1, id) && Measured(m.tam, m.srv, id.ft)
    requires 0 < m.tam && id.ft in m.srv && id.nro < |m.srv[id.ft].blocks|
    requires id.nro == NeededBlocks(m.tam, base) && m1.tam == m.tam
    requires r == Leer(m1, id, Remainder(m.tam, base), len)
    ensures r.0.Ready? <==> id.nro + PagesTouched(m.tam, Remainder(m.tam, base), len) <= |m.srv[id.ft].blocks|
    ensures r.0.Ready? ==>
      Got(m, r.0.m, id.ft, base, Transferred(m.tam, Remainder(m.tam, base), len), r.1)
  {
    hide Coherent, Sound, Transparent, Leer, Got, PagesTouched, Transferred, Remainder, NeededBlocks, Present;
    var off := Remainder(m.tam, base);
    TransparentKeepsHeaders(m, m1);
    CoherentOf(m, m1);
    assert SameHeader(m.srv[id.ft], m1.srv[id.ft]);
    PageOf(m.tam, base);
    LeerGot(m1, id, off, len, r);
    if r.0.Ready? {
      TransparentGot(m, m1, r.0.m, id.ft, base, Transferred(m.tam, off, len), r.1);
    }
  }

  lemma ReadSimulates(m: Mem, ft: FileTag, base: nat, len: nat)
    requires Coherent(m) && Sound(m) && Measured(m.tam, m.srv, ft) && 0 < m.tam && AllWhole(m.tam, View(m))
    ensures Agree(m, ReadAt(m, ft, base, len), FlatExec(m.tam, View(m), READ(ft, base, len)))
  {
    hide Coherent, Sound, Transparent, PaginaEnTabla, Leer, PagesTouched, Transferred, Remainder, NeededBlocks;
    hide Present, AllWhole, FlatRead, BlocksView;
    var id := PageId(ft, NeededBlocks(m.tam, base));
    var off := Remainder(m.tam, base);
    PaginaCoherent(m, id);
    match PaginaEnTabla(m, id)
    case Exit =>
      TouchedPositive(m.tam, off, len);
    case Null(m1) =>
      TransparentParts(m, m1);
    case Ready(m1) =>
      var r := Leer(m1, id, off, len);
      ReadFound(m, m1, id, base, len, r);
      if r.0.Ready? { TransparentParts(m, r.0.m); }
  }

  // ---------------------------------------------------------------- every instruction

  /** What the cache asks of an instruction: a file whose size describes its blocks, write-backs
      Storage will take, a flushed source for TAG, a table that can follow TRUNCATE. */
  ghost predicate Admits(m: Mem, i: Instr)
    requires 0 < m.tam
  {
    match i
    case CREATE(_) => true
    case COMMIT(_) => true
    case FLUSH(_) => true
    case END => true
    case DELETE(ft) => IsBaseFile(ft) && ft in m.srv ==> Flushed(m, ft)
    case TAG(src, dst) => dst in m.srv || src !in m.srv || Flushed(m, src)
    case READ(ft, _, _) => Measured(m.tam, m.srv, ft)
    case WRITE(ft, _, _) => Measured(m.tam, m.srv, ft) && (ft in m.srv ==> m.srv[ft].estado == WorkInProgress)
    case TRUNCATE(ft, size) =>
      ft in m.srv ==>
        if m.srv[ft].estado == Commited then Measured(m.tam, m.srv, ft)
        else Follows(m, ft, NeededBlocks(m.tam, AdjustedSize(m.tam, size)))
  }

  lemma TruncateSimulates(m: Mem, ft: FileTag, size: nat)
    requires Coherent(m) && Sound(m) && 0 < m.tam && AllWhole(m.tam, View(m)) && Admits(m, TRUNCATE(ft, size))
    ensures Agree(m, Exec(m, TRUNCATE(ft, size)), FlatExec(m.tam, View(m), TRUNCATE(ft, size)))
  {
    hide Coherent, Sound, AllWhole, BlocksView, NeededBlocks, AdjustedSize, TruncateTable, Follows, Measured;
    if ft !in m.srv {
      TruncateMissing(m, ft, size);
    } else if m.srv[ft].estado == Commited {
      TruncateRefused(m, ft, size);
      TransparentParts(m, Exec(m, TRUNCATE(ft, size)).m);
    } else {
      TruncateSimulatesIff(m, ft, size);
      TruncatedFile(m.tam, View(m), ft, AdjustedSize(m.tam, size));
    }
  }

  lemma TruncateMissing(m: Mem, ft: FileTag, size: nat)
    requires Coherent(m) && Sound(m) && 0 < m.tam && ft !in m.srv
    ensures Exec(m, TRUNCATE(ft, size)).Stop?
  {
    hide Sound, NeededBlocks;
  }

  lemma CommitFlushed(m: Mem, ft: FileTag)
    requires Coherent(m) && Sound(m) && 0 < m.tam && AllWhole(m.tam, View(m))
    ensures Agree(m, Exec(m, COMMIT(ft)), FlatExec(m.tam, View(m), COMMIT(ft)))
    ensures Agree(m, Exec(m, FLUSH(ft)), FlatExec(m.tam, View(m), FLUSH(ft)))
  {
    hide Coherent, Sound, AllWhole, View, NoDirty, Flush, MapStep;
    var m1 := Flush(m, ft);
    FlushTransparent(m, ft);
    TransparentParts(m, m1);
    CommitSimulates(m1, ft);
  }

  /** The simulation: an instruction the cache admits has the flat instruction's answer and
      effect, stops where it stops, and leaves the memory coherent. */
  lemma ExecSimulates(m: Mem, i: Instr)
    requires Coherent(m) && Sound(m) && 0 < m.tam && AllWhole(m.tam, View(m)) && Admits(m, i)
    ensures Agree(m, Exec(m, i), FlatExec(m.tam, View(m), i))
  {
    hide Coherent, Sound, AllWhole, View, Flush, DropPages, MapStep, TruncateTable, WriteAt, ReadAt, Flushed;
    hide IsBaseFile, Measured;
    hide Follows, NeededBlocks, AdjustedSize, Remainder, FlatWrite, FlatRead, PagesTouched, Transferred, First;
    match i
    case CREATE(ft) => CreateSimulates(m, ft);
    case COMMIT(ft) => CommitFlushed(m, ft);
    case FLUSH(ft) => CommitFlushed(m, ft);
    case DELETE(ft) => DeleteSimulatesIff(m, ft); DropPagesShape(m, ft);
    case TAG(src, ft) => TagSimulatesIff(m, src, ft);
    case TRUNCATE(ft, size) => TruncateSimulates(m, ft, size);
    case WRITE(ft, base, text) => WriteSimulates(m, ft, base, text);
    case READ(ft, base, len) => ReadSimulates(m, ft, base, len);
    case END =>
  }
}
