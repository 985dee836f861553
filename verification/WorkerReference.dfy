/** The Worker's instructions without a memory: what a query means on plain files. */
module WorkerReference {
  import opened StorageModel
  import opened StorageSpec
  import opened FlatFile

  /** set_instrucciones, with the operands the interpreter parses. */
  datatype Instr =
    | CREATE(ft: FileTag)
    | TRUNCATE(ft: FileTag, size: nat)
    | WRITE(ft: FileTag, base: nat, text: string)
    | FLUSH(ft: FileTag)
    | COMMIT(ft: FileTag)
    | READ(ft: FileTag, base: nat, len: nat)
    | TAG(src: FileTag, ft: FileTag)
    | DELETE(ft: FileTag)
    | END

  /** What the Master is told: success, the bytes of a READ, or an error that ends the query. */
  datatype Answer = Ok | Bytes(text: string) | Refused(reply: Reply)

  /** `FlatStop` where the process exits or follows a NULL page. */
  datatype FlatEffect = FlatDone(v: FileMap, answer: Answer) | FlatStop

  ghost predicate AllWhole(tam: nat, v: FileMap) {
    forall ft :: ft in v ==> Whole(tam, v[ft].blocks)
  }

  function AnswerOf(reply: Reply): Answer {
    if reply == OpExitosa then Ok else Refused(reply)
  }

  function FlatRequest(tam: nat, v: FileMap, op: Op): FlatEffect
    requires 0 < tam
  {
    FlatDone(MapStep(tam, v, op).0, AnswerOf(MapStep(tam, v, op).1))
  }

  /** A size that is no multiple of the page size grows by its remainder. */
  function AdjustedSize(tam: nat, size: nat): nat
    requires 0 < tam
  {
    size + Remainder(tam, size)
  }

  function FlatExec(tam: nat, v: FileMap, i: Instr): FlatEffect
    requires 0 < tam && AllWhole(tam, v)
  {
    match i
    case CREATE(ft) => FlatRequest(tam, v, Create(ft))
    case COMMIT(ft) => FlatRequest(tam, v, Commit(ft))
    case DELETE(ft) => FlatRequest(tam, v, Delete(ft))
    case TAG(src, ft) => FlatRequest(tam, v, Tag(src, ft))
    case TRUNCATE(ft, size) =>
      if ft !in v then FlatStop else FlatRequest(tam, v, Truncate(ft, AdjustedSize(tam, size)))
    case WRITE(ft, base, text) =>
      if ft !in v then FlatStop
      else
        var (nro, off) := (NeededBlocks(tam, base), Remainder(tam, base));
        if nro > |v[ft].blocks| then FlatDone(v, Refused(ErrFueraLimite))
        else if nro + PagesTouched(tam, off, |text|) > |v[ft].blocks| then FlatStop
        else
          var sent := First(text, Transferred(tam, off, |text|));
          FlatDone(v[ft := v[ft].(blocks := FlatWrite(tam, v[ft].blocks, base, sent))], Ok)
    case READ(ft, base, len) =>
      if ft !in v then FlatStop
      else
        var (nro, off) := (NeededBlocks(tam, base), Remainder(tam, base));
        if nro > |v[ft].blocks| then FlatDone(v, Refused(ErrFueraLimite))
        else if nro + PagesTouched(tam, off, len) > |v[ft].blocks| then FlatStop
        else FlatDone(v, Bytes(FlatRead(tam, v[ft].blocks, base, Transferred(tam, off, len))))
    case FLUSH(_) => FlatDone(v, Ok)
    case END => FlatDone(v, Ok)
  }

  lemma FlatExecWhole(tam: nat, v: FileMap, i: Instr)
    requires 0 < tam && AllWhole(tam, v) && FlatExec(tam, v, i).FlatDone?
    ensures AllWhole(tam, FlatExec(tam, v, i).v)
  {
  }

  /** The pages TRUNCATE asks Storage for: the size's whole pages, and one more when twice the
      remainder fills a page; only a multiple of the page size, or of half a page, gives a size
      that is itself a multiple. */
  lemma {:induction false} AdjustedPages(tam: nat, size: nat)
    requires 0 < tam
    ensures NeededBlocks(tam, AdjustedSize(tam, size)) ==
      NeededBlocks(tam, size) + if 2 * Remainder(tam, size) < tam then 0 else 1
    ensures Remainder(tam, AdjustedSize(tam, size)) == 0 <==>
      Remainder(tam, size) == 0 || 2 * Remainder(tam, size) == tam
    decreases size
  {
    if size >= tam { AdjustedPages(tam, size - tam); }
  }
}
