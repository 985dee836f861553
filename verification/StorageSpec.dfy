/** What the Storage module is for, without physical blocks, link counts or index: a map from
    File:Tag to a sequence of block contents. */
module StorageSpec {
  import opened StorageModel

  datatype File = File(tamanio: int, blocks: seq<Block>, estado: Estado)

  type FileMap = map<FileTag, File>

  function Resized(blockSize: nat, blocks: seq<Block>, needed: nat): (r: seq<Block>)
    ensures |r| == needed
  {
    if needed <= |blocks| then blocks[..needed]
    else blocks + seq(needed - |blocks|, _ => ZeroBlock(blockSize))
  }

  function MapStep(blockSize: nat, m: FileMap, op: Op): (FileMap, Reply)
    requires 0 < blockSize
  {
    match op
    case Create(ft) =>
      if ft in m then (m, ErrPreexistencia)
      else (m[ft := File(0, [], WorkInProgress)], OpExitosa)
    case Truncate(ft, size) =>
      if ft !in m then (m, ErrInexistencia)
      else if m[ft].estado == Commited then (m, ErrWriteCommited)
      else (m[ft := File(size, Resized(blockSize, m[ft].blocks, NeededBlocks(blockSize, size)), WorkInProgress)],
        OpExitosa)
    case Write(ft, l, data) =>
      if ft !in m then (m, ErrInexistencia)
      else if m[ft].estado == Commited then (m, ErrWriteCommited)
      else if l < 0 || l >= |m[ft].blocks| then (m, ErrFueraLimite)
      else (m[ft := m[ft].(blocks := m[ft].blocks[l := data])], OpExitosa)
    case Read(ft, l) =>
      if ft !in m then (m, ErrInexistencia)
      else if l > |m[ft].blocks| then (m, ErrFueraLimite)
      else if l < 0 || l == |m[ft].blocks| then (m, Fault)
      else (m, Contenido(m[ft].blocks[l]))
    case Commit(ft) =>
      if ft !in m then (m, ErrInexistencia)
      else (m[ft := m[ft].(estado := Commited)], OpExitosa)
    case Tag(src, dst) =>
      if dst in m then (m, ErrPreexistencia)
      else if src !in m && src != dst then (m[dst := File(0, [], WorkInProgress)], ErrInexistencia)
      else (m[dst := if src == dst then File(0, [], WorkInProgress) else m[src].(estado := WorkInProgress)], OpExitosa)
    case Delete(ft) =>
      if IsBaseFile(ft) then (m, NotDefErr)
      else if ft !in m then (m, ErrInexistencia)
      else (m - {ft}, OpExitosa)
  }
}
