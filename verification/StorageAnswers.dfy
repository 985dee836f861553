/** What each request is answered, in the names and states of the files alone, and that a request
    that is refused changes nothing. */
module StorageAnswers {
  import opened StorageModel
  import opened StorageConservation
  import opened StorageInvariant
  import opened StorageDiscipline

  // ---------------------------------------------------------------- the one name DELETE refuses

  function Lowered(s: string): (r: string)
    ensures |r| == |s|
  {
    seq(|s|, i requires 0 <= i < |s| => if 'A' <= s[i] <= 'Z' then 'a' + (s[i] - 'A') else s[i])
  }

  /** initial_file:BASE, in any mixture of cases. */
  predicate NamesBase(ft: FileTag) {
    Lowered(ft.file) == "initial_file" && Lowered(ft.tag) == "base"
  }

  lemma LoweredAt(s: string, i: nat)
    requires i < |s|
    ensures Lowered(s)[i] == ToLower(s[i])
  {
  }

  lemma SameLowered(a: string, b: string)
    ensures EqualsIgnoreCase(a, b) <==> Lowered(a) == Lowered(b)
  {
    if |a| == |b| {
      forall i | 0 <= i < |a|
        ensures Lowered(a)[i] == Lowered(b)[i] <==> ToLower(a[i]) == ToLower(b[i])
      {
        LoweredAt(a, i);
        LoweredAt(b, i);
      }
    }
  }

  lemma BaseIsNamed(ft: FileTag)
    ensures IsBaseFile(ft) <==> NamesBase(ft)
  {
    SameLowered(ft.file, "initial_file");
    SameLowered(ft.tag, "BASE");
    assert Lowered("initial_file") == "initial_file";
    assert Lowered("BASE") == "base";
  }

  /** DELETE refuses exactly that name, and changes nothing; any other file that exists goes, with
      its links and no other file's. */
  lemma DeleteAnswers(h: Block -> Digest, blockSize: nat, d: Disk, ft: FileTag)
    requires Conserved(blockSize, d)
    ensures var (r, reply) := DeleteFile(h, d, ft);
      && (reply == NotDefErr <==> NamesBase(ft)) && (NamesBase(ft) ==> r == d)
      && (reply == ErrInexistencia <==> !NamesBase(ft) && ft !in d.metas) && (reply == ErrInexistencia ==> r == d)
      && (reply == OpExitosa <==> !NamesBase(ft) && ft in d.metas)
      && (reply == OpExitosa ==>
            && r.metas == d.metas - {ft} && r.content == d.content
            && (forall s :: s in r.links <==> s in d.links && s.ft != ft)
            && forall s :: s in r.links ==> r.links[s] == d.links[s])
  {
    BaseIsNamed(ft);
    hide NamesBase;
    if !IsBaseFile(ft) && ft in d.metas {
      DeleteIsDeleted(h, blockSize, d, ft);
      DeletedLinks(h, d, ft, DeleteFile(h, d, ft).0);
      hide DeleteFrom, WellFormed, Counted, NoLeak;
    }
  }

  /** A name of another length is deleted like any other. */
  lemma OtherLengthDeleted(h: Block -> Digest, blockSize: nat, d: Disk, ft: FileTag)
    requires Conserved(blockSize, d) && ft in d.metas && (|ft.file| != |"initial_file"| || |ft.tag| != |"BASE"|)
    ensures DeleteFile(h, d, ft).1 == OpExitosa && ft !in DeleteFile(h, d, ft).0.metas
  {
    DeleteAnswers(h, blockSize, d, ft);
    hide DeleteFile;
    assert Lowered(ft.file) != "initial_file" || Lowered(ft.tag) != "base";
  }

  // ---------------------------------------------------------------- every request

  /** The reply each request gets, space aside. */
  ghost function ReplyTo(d: Disk, op: Op): Reply {
    match op
    case Create(ft) => if ft in d.metas then ErrPreexistencia else OpExitosa
    case Tag(src, ft) =>
      if ft in d.metas then ErrPreexistencia
      else if src in d.metas || src == ft then OpExitosa else ErrInexistencia
    case Delete(ft) => if NamesBase(ft) then NotDefErr else if ft in d.metas then OpExitosa else ErrInexistencia
    case Commit(ft) => if ft in d.metas then OpExitosa else ErrInexistencia
    case Truncate(ft, _) =>
      if ft !in d.metas then ErrInexistencia else if IsCommited(d, ft) then ErrWriteCommited else OpExitosa
    case Write(ft, l, _) =>
      if ft !in d.metas then ErrInexistencia else if IsCommited(d, ft) then ErrWriteCommited
      else if 0 <= l < |d.metas[ft].blocks| then OpExitosa else ErrFueraLimite
    case Read(ft, l) =>
      if ft !in d.metas then ErrInexistencia
      else if 0 <= l < |d.metas[ft].blocks| && d.metas[ft].blocks[l] < |d.content|
      then Contenido(d.content[d.metas[ft].blocks[l]])
      else if l > |d.metas[ft].blocks| then ErrFueraLimite else Fault
  }

  /** A WRITE alone can be refused for another reason: no free block, where it needs one. */
  lemma StepAnswers(h: Block -> Digest, blockSize: nat, d: Disk, op: Op)
    requires Conserved(blockSize, d) && 0 < blockSize
    ensures var reply := Step(h, blockSize, d, op).1;
      if reply == ErrEspInsuficiente then
        op.Write? && ReplyTo(d, op) == OpExitosa && forall p :: 0 < p < |d.used| ==> d.used[p]
      else reply == ReplyTo(d, op)
  {
    hide Conserved, Grow, Shrink, TagFrom, CommitFrom, NamesBase, NeededBlocks, WellFormed, Redirect;
    match op
    case Delete(ft) => DeleteAnswers(h, blockSize, d, ft);
    case Read(ft, l) => if ft in d.metas { BlocksExist(blockSize, d, ft); }
    case _ =>
  }

  lemma BlocksExist(blockSize: nat, d: Disk, ft: FileTag)
    requires Conserved(blockSize, d) && ft in d.metas
    ensures forall l :: 0 <= l < |d.metas[ft].blocks| ==> d.metas[ft].blocks[l] < |d.content|
  {
  }

  /** Refused requests leave the disk as it is; only a TAG without a source leaves its empty
      destination. */
  lemma RefusedChangesNothing(h: Block -> Digest, blockSize: nat, d: Disk, op: Op)
    requires Conserved(blockSize, d) && 0 < blockSize
    ensures var (r, reply) := Step(h, blockSize, d, op);
      reply != OpExitosa ==>
        r == if op.Tag? && reply == ErrInexistencia
             then d.(metas := d.metas[op.ft := Metadata(0, [], WorkInProgress)]) else d
  {
    hide Conserved, Grow, Shrink, TagFrom, CommitFrom, DeleteFrom, NeededBlocks, WellFormed, Redirect;
  }
}
