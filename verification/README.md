# Verified model of the query system

The system runs scripts of file instructions (queries).  A **Master** schedules queries on
**Workers**; each Worker executes one query through a small paged memory; all Workers share one
**Storage** module, which keeps File:Tags in blocks shared by copy on write and deduplicated when a
File:Tag is committed.  This project models the five parts of it whose behaviour is hardest to see
from the code, and proves what they promise.

| part | files | what is proved |
|---|---|---|
| Storage | `Storage*.dfy` | sharing is invisible: the store is a map from File:Tag to contents, with the exact conditions TAG and DELETE need, on the disk and on the script |
| Worker | `Worker*.dfy`, `PageReplacement`, `FlatFile`, `Recency` | the cache is transparent under any evictions; preemption and resumption change nothing; what CLOCK-M and LRU evict and where the hand is left; what each instruction is answered and where a query ends |
| Locks | `Lock*.dfy` | the File:Tag lock's life in every interleaving; what is touched under which lock; no deadlock |
| Scheduler | `Scheduler*.dfy`, `Master.dfy` | conservation of queries, Workers and tokens; preemption if and only if it is due; no ready query waits without aging; rest without arrivals |
| Packets | `Packet*.dfy` | where each byte is on the wire; the round trip, and exactly when it holds |

## How it is built

For each part there is a state (a datatype) with one function or step for each operation, following
the branches of the C code, and a class or methods in the form of that code: arrays, lists and maps
updated in place, loops with invariants (`Storage.dfy`, `Worker.dfy`, `Locks.dfy`, `Master.dfy`,
`Packets.dfy`).  Each method is proved to do exactly what its function says; the lemmas prove the
properties of the functions.  References that know nothing of the implementation stand on the other
side: `StorageSpec` (a map of files), `FlatFile` and `WorkerReference` (byte addresses, no pages),
`Recency` (a stack, no clock), the sequences of `PacketRoundTrip`.

`dafny verify dfyconfig.toml` checks everything.

## Reading the results

- **Storage.**  The hash is a function parameter, injective where that matters.  `Conserved` holds in
  every run; the deduplication invariant `Inv` does not: TAG of a file in progress and some DELETEs
  break it, and then COMMIT can free a block in use.  `TagExact` and `DeleteExact` give the conditions,
  readable off the disk beforehand, under which it survives, both ways; `ScriptExact` says the same of
  the script, with no disk in sight.  `UnsafeShows` makes them exact
  for callers: with a free block on the disk, whatever is not safe can be continued until some answer
  is wrong.  `UnsafeTagLosesData` and `UnsafeDeleteLosesData` are runs from a fresh start in which a
  file changes that nobody wrote to.
- **Worker.**  `View` is what files contain through the cache.  `Admits` lists what the cache asks of an
  instruction.  The code does not flush the source of a TAG, compares TRUNCATE's page count with a
  counter that is not the table's length, loses initial_file:BASE's dirty pages on a refused DELETE,
  answers success to a WRITE of a COMMITED file, and does not recognise a page number equal to the
  file's length as out of range; each is stated exactly, and `WorkerCounterexamples` has queries for
  each.  `Tidy` is a condition on the script and the files under which none of this can happen.
  A write-back that Storage refuses ends the query at the next consult (`reported`).  The theorems on
  preemption have one hypothesis the Master does not see to: the query's next stay begins when the
  flush of the last has reached Storage.  The Master does not wait for that flush; `HandoverExact` says
  exactly what the query finds if it resumes earlier.
  A copy of `len` bytes visits as many pages as `len` alone would need, so one that starts inside a page
  can come up short: `Transferred` says by how much.  The documentation asks for a TRUNCATE size that is
  a multiple of the page; the code adds the remainder to any other (`AdjustedPages`).  Only file sizes
  that describe the block list are read and written through pages; a fresh start's initial_file:BASE
  has size 0 and one block, and has none until it is truncated.
- **Locks.**  Counter updates are atomic.  `CreateExact` and `EnterExact` show that a name must not be
  created while an operation on it is in flight, nor an operation start before its lock is there.
- **Scheduler.**  Steps are critical sections; between them threads interleave freely.  Where
  `list_add_sorted` puts equal priorities is left open.  `Permitted` holds the hypotheses: initial
  priorities of at least 0, one aging thread a query, no victim that reaches EXIT before it consults.
  A victim may report an error first: the consult then puts the finished query back, and the model
  follows the code.  `SchedulerCounterexamples` has runs from an empty Master for what goes wrong
  without the hypotheses, and with them: check_prior failing, a finished query executed again, two
  queries evicted for one.  `vacante` and `acabadas` are not variables of the code; they name what the
  theorems speak of.
- **Packets.**  Lengths are ints of four bytes; an empty item is where the format breaks.

## Model

| member | source | states |
|---|---|---|
| StorageModel.FindFree | storage/src/storage_bitmap.c:58-80 | first-fit: the answer is the first clear bit from the start position, and "none" means there is no clear bit at all |
| StorageConservation.UnreferencedIffCount | storage/src/sotrage_files.c:182-190 | `st_nlink < 2` holds exactly when no logical block links to the physical block any more |
| StorageConservation.TruncateConserves | storage/src/sotrage_files.c:141-202 | TRUNCATE keeps metadata and hard links in agreement, link counts exact, no set bit on an unreferenced block, block 0 intact |
| StorageConservation.WriteConserves | storage/src/sotrage_files.c:240-301 | WRITE, in place, by copy, or refused for space, keeps the same conservation laws and never writes block 0 |
| StorageConservation.CommitConserves | storage/src/sotrage_files.c:353-415 | the COMMIT loop, from any position, keeps them although it frees blocks without asking for their link count |
| StorageConservation.TagFileConserves | storage/src/sotrage_files.c:424-470 | TAG keeps them, also when the source does not exist and the empty destination stays |
| StorageConservation.DeleteFromEffect | storage/src/sotrage_files.c:489-521 | closed form of the DELETE loop from any position: exactly the remaining links go, a bit is cleared exactly for a block nothing links to afterwards, and exactly the digests of those blocks leave the index |
| StorageConservation.DeleteConserves | storage/src/sotrage_files.c:472-541 | DELETE keeps the conservation laws with no condition on the file |
| StorageConservation.StepConserves | storage/src/sotrage_files.c:114-541 | every operation, whatever its arguments and its answer, keeps the conservation laws |
| StorageConservation.Run | storage/src/sotrage_files.c:114-541 | so does every sequential run, with one reply per operation |
| StorageConservation.FreshConserved | storage/src/storage_fresh_start.c:67-105 | a fresh start establishes them if and only if the block count fills whole bytes of the bitmap |
| StorageInvariant.BitmapExact | storage/src/storage_bitmap.c:58-97 | in a disciplined state a bit is set exactly when the block is 0 or some logical block uses it |
| StorageInvariant.FreshBlockIsUnused | storage/src/storage_bitmap.c:58-80 | find_free_block never hands out block 0, a block some file uses, or one the hash index names, also in the middle of a COMMIT |
| StorageInvariant.ExclusiveNotIndexed | storage/src/sotrage_files.c:249-285 | the block that WRITE overwrites in place is not the index's block for any content |
| StorageInvariant.ReassignedIsExclusive | storage/src/sotrage_files.c:385-401 | the block COMMIT frees without looking at its link count has no other reference, also when it repeats inside the file |
| StorageInvariant.CreateInv | storage/src/sotrage_files.c:4-36 | CREATE keeps the deduplication invariant |
| StorageInvariant.TruncateInv | storage/src/sotrage_files.c:114-209 | TRUNCATE keeps the deduplication invariant |
| StorageInvariant.WriteInv | storage/src/sotrage_files.c:211-301 | WRITE keeps the deduplication invariant: shared blocks are the index's, COMMITED blocks are indexed, index entries name live blocks |
| StorageInvariant.CommitFromInv | storage/src/sotrage_files.c:353-411 | loop invariant of COMMIT: with the blocks passed over counted as sealed, the deduplication invariant holds at every iteration |
| StorageInvariant.CommitInv | storage/src/sotrage_files.c:342-422 | COMMIT keeps the deduplication invariant, for repeated blocks and for zero blocks alike |
| StorageInvariant.FreshInv | storage/src/storage_init.c:61-66 | a fresh start with the zero block's digest loaded establishes it if and only if the block count fills whole bytes of the bitmap |
| StorageDiscipline.TagExact | storage/src/sotrage_files.c:424-470 | TAG keeps the invariant if and only if every block of the source is the index's block for its content (or nothing is copied) |
| StorageDiscipline.CommitedSourceSafe | storage/src/sotrage_files.c:424-470 | a COMMITED source always meets that condition |
| StorageDiscipline.DeleteExact | storage/src/sotrage_files.c:472-541 | DELETE keeps the invariant if and only if: of a COMMITED file, every non-zero block another file keeps is kept by another COMMITED file; of a file in progress, no block that disappears has content indexed to a different block |
| StorageDiscipline.StepExact | storage/src/sotrage_files.c:114-541 | over all operations: the invariant survives exactly the safe ones, and only TAG and DELETE can be unsafe |
| StorageDiscipline.DisciplinedRunInv | storage/src/sotrage_files.c:114-541 | it holds throughout every run whose TAGs and DELETEs are safe when their turn comes |
| StorageRefinement.TruncateAbs | storage/src/sotrage_files.c:141-203 | on contents TRUNCATE keeps the prefix and pads with the zero block |
| StorageRefinement.WriteAbs | storage/src/sotrage_files.c:240-301 | on contents WRITE changes exactly one block of one File:Tag, whatever shared its physical block; refused only when no bit is free |
| StorageRefinement.CommitAbs | storage/src/sotrage_files.c:353-415 | on contents COMMIT changes nothing but the state |
| StorageRefinement.TagAbs | storage/src/sotrage_files.c:424-470 | on contents TAG copies the source |
| StorageRefinement.DeleteAbs | storage/src/sotrage_files.c:472-541 | on contents DELETE removes that File:Tag alone |
| StorageRefinement.StepRefines | storage/src/sotrage_files.c:114-541 | every operation commutes with the abstraction to a plain map from File:Tag to block contents, reply included, except for a WRITE refused for lack of space, which changes nothing |
| StorageAnswers.BaseIsNamed | storage/src/sotrage_files.c:472-479 | the comparison that ignores case names initial_file:BASE, in any mixture of cases, and nothing else |
| StorageAnswers.DeleteAnswers | storage/src/sotrage_files.c:472-541 | on any disk DELETE is refused exactly for that name, and then changes nothing; any other File:Tag that exists goes, with its links and no other's, and one that does not is answered ERR_INEXISTENCIA |
| StorageAnswers.OtherLengthDeleted | storage/src/sotrage_files.c:473-478 | so MATERIAS:BASE, or any name of another length, is deleted like any other |
| StorageAnswers.StepAnswers | storage/src/sotrage_files.c:4-541 | the reply to every request, from the names, states and lengths of the files alone; a WRITE refused for space is one that would have succeeded, on a disk with no clear bit |
| StorageAnswers.RefusedChangesNothing | storage/src/sotrage_files.c:4-541 | a request that is refused leaves the disk as it is; only a TAG without a source leaves its destination, empty |
| StorageRuns.RunRefines | storage/src/sotrage_files.c:114-541 | the replies and contents of any disciplined run are those of the plain map, and a WRITE the map would carry out is refused only when the files have at least as many logical blocks as the disk has physical ones |
| StorageRuns.FreshRunRefines | storage/src/storage_fresh_start.c:67-105 | the same from a fresh start, where the map holds initial_file:BASE with one zero block |
| StorageRuns.RefusedWhenFull | storage/src/sotrage_files.c:249-262 | when WRITE finds no free block, every physical block is in use and the files have a logical block for each |
| StorageScripts.SafeIff | storage/src/sotrage_files.c:424-541 | the conditions of TAG and DELETE are exactly conditions on the files and on which blocks of files in progress have been written |
| StorageScripts.StepTracks | storage/src/sotrage_files.c:114-541 | those marks, followed from the script alone, tell after every safe operation which blocks the index names |
| StorageScripts.ScriptExact | storage/src/sotrage_files.c:114-541 | for any script that fits the disk: its run is disciplined if and only if the script is, and then replies and contents are the plain map's without exception |
| StorageScripts.FreshScriptExact | storage/src/storage_fresh_start.c:67-105 | the same from a fresh start, with nothing about the disk left in the condition |
| StorageRuns.CommitedFileKept | storage/src/sotrage_files.c:125-130 | once COMMITED, a file's size and every READ of it stay the same until its own DELETE, over any disciplined run |
| StorageRuns.ReadIsMapRead | storage/src/sotrage_files.c:304-340 | READ returns the map's block; `l == size` and negative numbers get past the range test and fault |
| StorageRuns.CommitedShare | storage/src/sotrage_files.c:353-411 | two logical blocks of COMMITED files share a physical block exactly when their contents are equal |
| StorageRuns.CommitedZero | storage/src/sotrage_files.c:353-411 | a COMMITED logical block is physical block 0 exactly when it holds the zero block |
| StorageRuns.CommitedStoredOnce | storage/src/storage_hashes.c:22-50 | the non-zero physical blocks COMMITED files use are exactly as many as their distinct non-zero contents |
| StorageRuns.FullDiskAnswer | storage/src/storage_bitmap.c:63-72 | on a full disk the scan of all bitmap bits answers "none" exactly when the block count is a multiple of 8; otherwise it hands out a block that does not exist |
| StorageCounterexamples.UnsafeDeleteLosesIndex | storage/src/storage_hashes.c:45-50 | a run from a fresh start that ends in an unsafe DELETE: the content of a COMMITED file leaves the index while the file is still linked to its block |
| StorageCounterexamples.UnsafeDeleteLosesData | storage/src/sotrage_files.c:498-515 | what follows: the content is committed a second time in another block, a COMMIT frees the block of the first file, and a write to a new file changes that COMMITED file |
| StorageCounterexamples.UnsafeTagLosesData | storage/src/sotrage_files.c:398-401 | a run from a fresh start after which a file nobody wrote to reads differently: an unsafe TAG, then COMMIT frees a block still in use |
| StorageDamage.FreeLinkedDamages | storage/src/storage_bitmap.c:58-80 | from any disk on which a file uses a block marked free, some script makes the file read differently: a new file is written block by block until it is given that block |
| StorageDamage.UnindexedDamages | storage/src/sotrage_files.c:381-401 | so does a file with a block other than 0 that the index does not give for its content: a TAG copy, once COMMITED, frees the block |
| StorageDamage.SharedDamages | storage/src/sotrage_files.c:249-285 | so does a block that the index gives but only files in progress have: the last of them overwrites it in place, and the next file COMMITED with the old content gets the new one |
| StorageDamage.UnsafeShows | storage/src/sotrage_files.c:424-541 | the conditions are exact for callers too: on any disciplined disk with a free block, every TAG or DELETE that is not safe has a continuation whose replies, none of them for lack of space, are not the plain map's |
| StorageDamage.UndisciplinedShows | storage/src/sotrage_files.c:114-541 | and every script that is not disciplined, on a disk with a free block before each operation, can be cut after some operation and continued so that the replies are not the plain map's |
| StorageService.Storage.FreshStart | storage/src/storage_fresh_start.c:67-105 | in place: sets up the fresh disk and its index entry for any block count; the invariants hold exactly for whole bytes |
| StorageService.Storage.FindFreeBlock | storage/src/storage_bitmap.c:58-80 | in place: scans from bit 1 and sets the bit it answers |
| StorageService.Storage.StorageCreate | storage/src/sotrage_files.c:4-36 | in place: the state and reply of CREATE |
| StorageService.Storage.StorageTruncate | storage/src/sotrage_files.c:114-209 | in place: the grow and shrink loops end in the state TRUNCATE means, with the conservation laws kept |
| StorageService.Storage.StorageWrite | storage/src/sotrage_files.c:211-301 | in place: the write in place and the copy on write end in the state WRITE means |
| StorageService.Storage.StorageRead | storage/src/sotrage_files.c:304-340 | in place: answers READ and changes nothing |
| StorageService.Storage.StorageCommit | storage/src/sotrage_files.c:342-422 | in place: the relinking loop ends in the state COMMIT means |
| StorageService.Storage.StorageTag | storage/src/sotrage_files.c:424-470 | in place: the linking loop ends in the state TAG means |
| StorageService.Storage.StorageDelete | storage/src/sotrage_files.c:472-541 | in place: the unlinking loop ends in the state DELETE means |
| StorageService.Storage.LoadHashInIndex | storage/src/storage_hashes.c:22-28 | in place: the digest names the block and nothing else changes |
| StorageService.Storage.RemoveHash | storage/src/storage_hashes.c:45-50 | in place: the digest is gone and nothing else changes |
| PageReplacement.ClockMChoice | worker/src/algoritmos_reemplazo.c:37-78 | CLOCK-M: the victim is the first from the hand that is unused and clean; else the first unused and dirty, with exactly the use bits passed cleared; else, all use bits cleared, the first clean page or the starting frame; at most 3n+1 inspections |
| PageReplacement.Oldest | worker/src/algoritmos_reemplazo.c:12-22 | LRU's scan: the first frame with the least time |
| WorkerPolicy.ClockReplaces | worker/src/algoritmos_reemplazo.c:37-78 | CLOCK-M on the pages: it evicts the page nearest to the hand that is unused and clean, else unused and dirty, else clean, else the one under the hand; clears the use bits it should and no others; and leaves the hand one frame past the one freed |
| WorkerPolicy.HandBeyond | worker/src/algoritmos_reemplazo.c:74-76 | after a replacement the frame just freed is the last the next search reaches: every other is nearer to the hand |
| WorkerPolicy.TwoFaults | worker/src/algoritmos_reemplazo.c:37-78 | two faults in a row with all pages used and clean: the second victim is in the frame after the first's, cyclically |
| WorkerPolicy.ReadMarks | worker/src/memoria.c:142-181 | under either policy a READ's copy leaves the page in memory with its use bit set, and changes no other page's bits |
| WorkerPolicy.WriteMarks | worker/src/memoria.c:98-137 | a WRITE's copy leaves it used and modified, and changes no other page's bits |
| WorkerPolicy.AccessUses | worker/src/memoria.c:81-181 | after a whole access, fault included, the page is in memory and in use, whatever the policy |
| WorkerPolicy.UsedIsSpared | worker/src/algoritmos_reemplazo.c:42-61 | CLOCK-M takes no page in use while some page in memory is not |
| WorkerPolicy.AccessedIsSpared | worker/src/algoritmos_reemplazo.c:42-61 | so a page accessed since the bits were last cleared is not the next victim while some page has not been |
| WorkerPolicy.LruReplaces | worker/src/algoritmos_reemplazo.c:12-35 | LRU evicts the first of the frames accessed least recently, and changes no other page's marks |
| WorkerPolicy.FirstFreeFrame | worker/src/memoria.c:251-258 | a page brought in takes the first free frame, and replaces another only when there is none |
| WorkerPolicy.TableGoes | worker/src/algoritmos_reemplazo.c:105-111 | with the victim its file's table goes if and only if that was its last page in memory, the counter counts no other, and it is not the file of the new page |
| FlatFile.CompleteIff | worker/src/memoria.c:108-136 | a copy transfers everything asked for exactly when offset plus length fit in the pages the length alone needs |
| FlatFile.CountsAreQuotients | worker/src/memoria.c:112-112 | the page counts by subtraction are the ceiling and the quotient of the C code |
| FlatFile.PageOf | worker/src/interpreter.c:117-117 | the page and offset of an address |
| FlatFile.SameBytesSameFile | worker/src/memoria.c:98-181 | files with the same bytes at the same addresses are the same blocks |
| FlatFile.FlatUnique | worker/src/memoria.c:98-137 | what a write at a byte address leaves is determined by the bytes alone |
| FlatFile.FlatWriteIsWritten | worker/src/memoria.c:98-137 | the reference write puts byte k of the text at address base+k and leaves every other byte alone |
| WorkerModel.SamePlacementLinked | worker/src/memoria.c:319-327 | the frame/page pairing depends only on placement |
| WorkerModel.SetUse | worker/src/algoritmos_reemplazo.c:52-60 | clearing use bits keeps every frame and page paired |
| WorkerFrames.OnePagePerFrame | worker/src/memoria.c:317-327 | no two present pages point to the same frame |
| WorkerFrames.CheckFileTagLinked | worker/src/algoritmos_reemplazo.c:105-111 | check_file_tag drops a table only when it has no resident page, so no frame is left pointing at a dropped page |
| WorkerFrames.UnloadAndCheckSound | worker/src/algoritmos_reemplazo.c:105-122 | evicting a page keeps every table's counter minus its resident pages constant, and never drops the incoming file's table |
| WorkerFrames.DropToSound | worker/src/memoria.c:218-239 | shortening a table keeps the pairing and that difference |
| WorkerFrames.LoadTableSound | worker/src/memoria.c:268-282 | loading a table keeps the pairing and the other tables' difference |
| WorkerFrames.ReplaceSound | worker/src/algoritmos_reemplazo.c:12-78 | either policy frees one frame and keeps pairing and counters |
| WorkerAccess.FillSound | worker/src/memoria.c:317-331 | putting a page in a free frame keeps pairing and counters |
| WorkerAccess.StillAbsent | worker/src/memoria.c:284-335 | making room for a page leaves that page in its table, and absent |
| WorkerAccess.Solicitar | worker/src/memoria.c:284-335 | a page fault ends with the page present, pairing and counters kept |
| WorkerView.EvictExact | worker/src/algoritmos_reemplazo.c:24-28 | eviction leaves what files contain unchanged if and only if the victim is clean, Storage accepts its page, or the page is what Storage has anyway |
| WorkerReports.EvictReports | worker/src/algoritmos_reemplazo.c:80-101 | on any memory an eviction reports an error to the Master if and only if the victim is modified and Storage does not take its page; the page is out of memory and clean either way |
| WorkerReports.FlushExact | worker/src/interpreter.c:63-81 | on any memory FLUSH leaves every page of the file clean, whatever Storage answers, and no other page changed; an error is reported if and only if Storage refused one of them |
| WorkerReports.ReportEndsQuery | worker/src/main.c:112-144 | an instruction with such a report is the last of its query, which ends in error; the report is consulted once |
| WorkerFaults.EvictCoherent | worker/src/algoritmos_reemplazo.c:80-101 | with write-backs accepted, eviction keeps the cache coherent and the view of every file |
| WorkerFaults.ReplaceCoherent | worker/src/algoritmos_reemplazo.c:12-78 | so does replacement under LRU and under CLOCK-M |
| WorkerFaults.SolicitarCoherent | worker/src/memoria.c:284-335 | so does a page fault, which then never fails |
| WorkerTransparency.PaginaCoherent | worker/src/memoria.c:81-96 | pagina_en_Tabla finds exactly the pages of the file; beyond its length it answers NULL, but at exactly its length it runs off the table |
| WorkerCounterexamples.ReadAtLength | worker/src/memoria.c:81-96 | reading right after the last page ends the process, reading further away is answered with an error |
| WorkerBytes.EscribirWrote | worker/src/memoria.c:98-137 | a WRITE across pages succeeds exactly when every page it touches exists, and then puts exactly the first `Transferred` bytes at consecutive addresses, whatever is faulted in and evicted meanwhile |
| WorkerBytes.LeerGot | worker/src/memoria.c:142-181 | a READ across pages succeeds exactly when every page it touches exists, returns exactly the first `Transferred` bytes of the flat file, and changes no content |
| WorkerReference.AdjustedPages | worker/src/interpreter.c:85-98 | what TRUNCATE asks for when the size is no multiple of the page: the remainder is added, not rounded up, so the result is a multiple only of half pages |
| WorkerInstructions.FreeFromAll | worker/src/interpreter.c:39-51 | leaving DELETE's loop when the counter reaches 0 leaves no resident page of the file |
| WorkerInstructions.DropPagesSound | worker/src/interpreter.c:32-58 | DELETE frees the frames of that file and keeps pairing and counters of the others |
| WorkerInstructions.Exec | worker/src/interpreter.c:12-160 | every instruction, whatever Storage answers, keeps frames and pages paired and counters ahead of resident pages |
| WorkerSlack.SlackAtLoad | worker/src/memoria.c:268-282 | when a table is loaded, its counter exceeds its resident pages by the table's length |
| WorkerSlack.ExecKeepsSlack | worker/src/interpreter.c:12-160 | every instruction, whatever Storage answers, keeps that difference for every table that survives it, and a table that goes had no resident page |
| WorkerSlack.RunKeepsSlack | worker/src/main.c:75-125 | so the difference is constant for as long as the table lives, over a whole run |
| WorkerFlush.FlushTransparent | worker/src/interpreter.c:63-81 | FLUSH leaves the view unchanged and the file with no dirty page, and dirties nothing else |
| WorkerFlush.FlushAllStored | worker/src/main.c:126-141 | after the interruption's flushes, in any order of the tables, Storage holds exactly what the Worker saw |
| WorkerRequests.TagSimulatesIff | worker/src/interpreter.c:103-109 | TAG through the Worker is TAG on flat files if and only if the source is flushed: the code does not flush it |
| WorkerCounterexamples.TagMissesBytes | worker/src/interpreter.c:103-109 | and a query shows it: CREATE, TRUNCATE, WRITE, TAG, READ of the copy answers the byte Storage had, where flat files answer the one written |
| WorkerRequests.DeleteSimulatesIff | worker/src/interpreter.c:30-61 | DELETE is DELETE on flat files, except on initial_file:BASE, whose unflushed pages are lost although Storage refuses: exactly then the view changes |
| WorkerCounterexamples.RefusedDeleteLosesBytes | worker/src/interpreter.c:30-61 | and queries show it: a query that writes a byte of initial_file:BASE and then deletes the file ends in error at the DELETE, and the Worker's next query reads the byte from before the WRITE, whatever was flushed in between; without the DELETE it reads the byte written |
| WorkerTruncate.RefreshShape | worker/src/memoria.c:207-241 | actualizar_tabla fails exactly on a dirty page beyond the file, and otherwise gives the table its new length, moving only pages beyond it |
| WorkerTruncate.TruncateSimulatesIff | worker/src/interpreter.c:83-101 | TRUNCATE leaves a coherent memory, showing the resized file, if and only if the counter it compares with does not hide the change and no dirty page lies beyond the new size |
| WorkerCounterexamples.TruncateHidden | worker/src/interpreter.c:83-101 | and a query shows it: one access raises the counter to the page count of the next TRUNCATE, the table stays short, and reading the second page ends the process |
| WorkerSimulation.WriteSimulates | worker/src/interpreter.c:111-131 | WRITE has the flat file's answer, effect and failures |
| WorkerSimulation.ReadSimulates | worker/src/interpreter.c:133-152 | READ has the flat file's answer, effect and failures |
| WorkerSimulation.ExecSimulates | worker/src/interpreter.c:12-160 | every instruction the cache admits has the answer and effect of the same instruction on flat files, stops where it stops, and leaves the cache coherent |
| WorkerAnswers.CreateAnswers | worker/src/interpreter.c:12-15 | on flat files CREATE answers ERR_PREEXISTENCIA and changes nothing if the File:Tag exists, else success with an empty file |
| WorkerAnswers.TagAnswers | worker/src/interpreter.c:103-109 | TAG answers ERR_PREEXISTENCIA if the destination exists; else it copies the source, or leaves the destination empty and answers ERR_INEXISTENCIA if there is none |
| WorkerAnswers.CommitAnswers | worker/src/interpreter.c:17-28 | COMMIT answers ERR_INEXISTENCIA if there is no such file, else it seals the same contents |
| WorkerAnswers.DeleteAnswersFlat | worker/src/interpreter.c:30-61 | DELETE is refused for initial_file:BASE in any case, answers ERR_INEXISTENCIA for a file that does not exist, and removes any other |
| WorkerAnswers.TruncateAnswers | worker/src/interpreter.c:83-101 | TRUNCATE of a missing file ends the process, of a COMMITED one answers ERR_WRITE_COMMITED; otherwise the size is what was asked plus its remainder, and the blocks are the old ones and then zeros, as many as that size holds whole |
| WorkerAnswers.CopyAnswers | worker/src/interpreter.c:111-152 | READ and WRITE answer ERR_FUERA_LIMITE exactly when the address lies beyond the page after the file's last, and end the process exactly when the pages they visit run past the file |
| WorkerAnswers.RequestAnswers | worker/src/interpreter.c:164-222 | whatever is in memory, CREATE, TAG and DELETE are answered by what exists in Storage |
| WorkerAnswers.FlatEnds | worker/src/main.c:75-145 | a query's trace is consecutive, has END or an error only as its last entry, and ends as that entry says: END, error, interruption at that pc, past the script, or with the process |
| WorkerAnswers.ErrorIsLast | worker/src/main.c:112-143 | on any memory an error is the last entry of the trace, the query ends in error, and the pc consulted is the next |
| WorkerAnswers.ExistingEndsQuery | worker/src/interpreter.c:164-179 | so a CREATE of a File:Tag that exists, or a TAG onto one, is the only entry of the trace from there on, with ERR_PREEXISTENCIA |
| WorkerGuards.LoadTableIff | worker/src/memoria.c:268-282 | loading a table leaves the cache coherent if and only if the file's size describes its blocks: the table's length comes from the size |
| WorkerCounterexamples.BaseUnread | worker/src/memoria.c:268-282 | initial_file:BASE after a fresh start is such a file: reading its block before a TRUNCATE ends the process |
| WorkerGuards.WriteAdmitsIff | worker/src/interpreter.c:111-131 | a WRITE that answers success leaves the cache coherent if and only if the file is not COMMITED: Storage's refusal only comes with the write-back |
| WorkerCounterexamples.CommitedWriteLost | worker/src/algoritmos_reemplazo.c:80-101 | and queries show it: one that commits a file and then writes to it ends well; the Worker's next one reads another page, the page written is evicted, Storage refuses it, and that query ends in error at the consult after the READ; the one after reads the old byte |
| WorkerCounterexamples.FlatCommitedWrite | worker/src/main.c:112-144 | where the same three queries on flat files all end well and read the byte written |
| WorkerQueries.RunSimulates | worker/src/main.c:75-145 | the same for the whole instruction loop, with its program counters and its ending, which is an error after an instruction that fails or has a write-back refused: with the cache's conditions no write-back is |
| WorkerQueries.TraceConsecutive | worker/src/main.c:75-125 | a run executes consecutive instructions, each once |
| WorkerQueries.FlatSplit | worker/src/main.c:112-145 | a run is its part up to the interruption and the run from the saved pc |
| WorkerQueries.PreemptResume | worker/src/main.c:126-144 | stopping after any instruction, flushing, and resuming at the saved pc on any Worker that sees what Storage holds gives the reads, the files and the ending of the uninterrupted run |
| WorkerQueries.EmptyMemoryFits | worker/src/memoria.c:14-40 | a Worker with nothing in memory is such a Worker |
| WorkerQueries.RelayIsOneRun | master/src/master_network_handler.c:181-206 | however often a query is preempted and wherever it resumes, its answers and files are those of one run on flat files, given that each stay begins when the flush of the last has reached Storage |
| WorkerHandover.FlushAllPages | worker/src/main.c:126-141 | the flush of an interruption is a sequence of write-backs that visits every page of the tables, so a moment of it is a prefix |
| WorkerHandover.HandoverExact | master/src/master_network_handler.c:173-206 | the Master frees the query before that flush: at any moment of it Storage has the files the query saw if and only if every dirty page still to be written back holds what Storage has anyway |
| WorkerHandover.StaleRead | master/src/master_network_handler.c:221-225 | and a Worker that resumes the query by then answers a READ of a page still to be written back with Storage's bytes, where the first Worker answers its own |
| WorkerCounterexamples.ResumesTooSoon | worker/src/main.c:126-141 | so a query interrupted after a WRITE reads the old byte when it resumes on another Worker before the flush, and the byte written when it resumes after it |
| WorkerTidy.TidyAdmits | worker/src/interpreter.c:12-160 | conditions on the script and the files alone (resize before access, write only in progress, flush before TAG) imply what the cache asks of an instruction |
| WorkerTidy.TidyGuarded | worker/src/main.c:75-145 | so a query tidy on flat files is admitted throughout, on any Worker that sees its files and wherever it is interrupted |
| WorkerTidy.TidyIsOneRun | worker/src/main.c:126-144 | a tidy query interrupted any number of times, on Workers of any size and policy with nothing in memory, gives the answers and files of one run on flat files, given that each stay begins when the flush of the last has reached Storage |
| Recency.UsedAllTake | worker/src/algoritmos_reemplazo.c:12-35 | a recency stack cut to n pages evolves as the whole stack, cut to n |
| WorkerRecency.OldestIsBottom | worker/src/algoritmos_reemplazo.c:12-22 | with every frame busy, the minimum-time frame holds the page at the bottom of the recency stack |
| WorkerRecency.StackHeight | worker/src/memoria.c:251-258 | there is a free frame exactly when fewer pages are resident than there are frames |
| WorkerInclusion.AccessAllRecent | worker/src/memoria.c:260-266 | after any run of accesses the resident pages are the most recently used ones, in the order of their times |
| WorkerInclusion.LruInclusion | worker/src/algoritmos_reemplazo.c:12-35 | for the same accesses the resident set with n frames is contained in that with more frames |
| WorkerInclusion.EmptyRecent | worker/src/memoria.c:14-40 | a memory with no resident page starts from the empty stack |
| WorkerInclusion.ReadAccesses | worker/src/memoria.c:142-181 | a READ is a run of accesses to the pages it touches |
| WorkerInclusion.WriteAccesses | worker/src/memoria.c:98-137 | a WRITE is a run of accesses to the pages it touches |
| WorkerService.Worker.MarcoLibre | worker/src/memoria.c:251-258 | in place: the first free frame, or -1, with exactly the state and result of its specification |
| WorkerService.Worker.AlgoritmoLRU | worker/src/algoritmos_reemplazo.c:12-35 | in place: picks the least time and evicts, with exactly the state and result of its specification |
| WorkerService.Worker.BuscarVictima | worker/src/algoritmos_reemplazo.c:38-61 | in place: the nested search ends at CLOCK-M's victim with its use bits cleared, within 3n+1 inspections, with exactly the state and result of its specification |
| WorkerService.Worker.AlgoritmoClockM | worker/src/algoritmos_reemplazo.c:37-78 | in place: evicts that victim and moves the hand past it, with exactly the state and result of its specification |
| WorkerService.Worker.CheckFileTag | worker/src/algoritmos_reemplazo.c:105-111 | in place: lowers the counter and drops the table at 0, with exactly the state and result of its specification |
| WorkerService.Worker.ActualizarPagina | worker/src/algoritmos_reemplazo.c:113-122 | in place: frees the frame and clears the page's marks, with exactly the state and result of its specification |
| WorkerService.Worker.FileTagEnMemoria | worker/src/memoria.c:42-56 | in place: loads a table the first time, with exactly the state and result of its specification |
| WorkerService.Worker.ActualizarTabla | worker/src/memoria.c:207-241 | in place: extends or shortens the table, or fails on a dirty page, with exactly the state and result of its specification |
| WorkerService.Worker.SolicitarPagina | worker/src/memoria.c:284-335 | in place: brings the page in, evicting if needed, with exactly the state and result of its specification |
| WorkerService.Worker.PaginaEnTabla | worker/src/memoria.c:81-96 | in place: finds, misses or loses the page, with exactly the state and result of its specification |
| WorkerService.Worker.EscribirPagina | worker/src/memoria.c:98-137 | in place: the write loop, with exactly the state and result of its specification |
| WorkerService.Worker.LeerPagina | worker/src/memoria.c:142-181 | in place: the read loop, its use bits and the bytes it returns, with exactly the state and result of its specification |
| WorkerService.Worker.InterpretarFlush | worker/src/interpreter.c:63-81 | in place: the flush loop, with exactly the state and result of its specification |
| WorkerService.Worker.OlvidarFileTag | worker/src/interpreter.c:32-58 | in place: DELETE's loop and the removal of the table, with exactly the state and result of its specification |
| WorkerService.Worker.InterpretarTruncate | worker/src/interpreter.c:83-101 | in place: size adjustment, request and table, with exactly the state and result of its specification |
| WorkerService.Worker.Interpretar | worker/src/interpreter.c:12-160 | in place: each instruction, with exactly the state and result of its specification |
| WorkerService.Worker.EjecutarQuery | worker/src/main.c:73-145 | in place: the instruction loop, its interruption and the flush of every table, with exactly the state and result of its specification |
| StorageCounterexamples.DuplicateUnsafe | storage/src/sotrage_files.c:424-541 | the disk where those two runs part meets the invariant, and neither TAG nor DELETE of its file in progress is safe |
| StorageCounterexamples.ReachesDuplicate | storage/src/sotrage_files.c:4-422 | and a fresh start reaches it with two files of the same content, one of them committed |
| LockLifecycle.FreshName | storage/src/storage_locks.c:171-177 | a name with no file and no lock, and any number of threads |
| LockLifecycle.StepKeepsInv | storage/src/storage_locks.c:58-124 | every atomic section, in any interleaving: semaphore plus holders is 1, count_waiting is the threads between increment and decrement, a lock marked for deletion still has somebody to destroy it |
| LockLifecycle.RunKeepsInv | storage/src/storage_locks.c:58-124 | so in every reachable state, and the locks destroyed are those created before the live one, each once |
| LockLifecycle.MutualExclusion | storage/src/storage_locks.c:70-71 | two threads never hold a File:Tag at once |
| LockLifecycle.DestroyedAlone | storage/src/storage_locks.c:161-169 | a lock is destroyed only by a thread that uses it, with no other thread waiting on it or holding it, and never twice |
| LockLifecycle.DestroyedWhenUnused | storage/src/storage_locks.c:108-125 | remove_lock destroys the lock at once if and only if nobody waits for it, and otherwise marks it; a leaving thread destroys a marked lock if and only if nobody waits, and otherwise opens it |
| LockLifecycle.QuietLock | storage/src/storage_locks.c:108-124 | between operations a name has a lock exactly when it has a file, and it is open: none leaks |
| LockLifecycle.Progress | storage/src/storage_locks.c:58-90 | while some thread is in an operation on the name, some thread can go on |
| LockLifecycle.CreateExact | storage/src/sotrage_files.c:4-36 | writing the metadata of a name keeps all this if and only if no operation on it is in flight |
| LockLifecycle.EnterExact | storage/src/sotrage_files.c:30-33 | starting an operation keeps it if and only if the file's add_lock is not still to come |
| LockLifecycle.LocklessInside | storage/src/sotrage_files.c:30-33 | otherwise: a run in which an operation that starts between the metadata and add_lock goes on without a lock while the next one holds it |
| LockLifecycle.SignalledUntaken | storage/src/storage_locks.c:74-90 | and a run from a name without a file in which a thread signals a lock it never took |
| LockLifecycle.TwoHolders | storage/src/storage_locks.c:70-71 | after which two threads hold it at once |
| LockService.LockIndex.StorageWaitCount | storage/src/storage_locks.c:58-68 | in place: storage_wait up to the semaphore is a step of the machine of its own name, whatever its threads are doing, and leaves every other name alone |
| LockService.LockIndex.StorageWaitTake | storage/src/storage_locks.c:70-70 | in place: the semaphore is a step of the machine of its own name, whatever its threads are doing, and leaves every other name alone |
| LockService.LockIndex.StorageWaitUncount | storage/src/storage_locks.c:71-71 | in place: the decrement is a step of the machine of its own name, whatever its threads are doing, and leaves every other name alone |
| LockService.LockIndex.StorageSignal | storage/src/storage_locks.c:74-90 | in place: storage_signal is a step of the machine of its own name, whatever its threads are doing, and leaves every other name alone |
| LockService.LockIndex.AddLock | storage/src/storage_locks.c:92-106 | in place: add_lock is a step of the machine of its own name, whatever its threads are doing, and leaves every other name alone |
| LockService.LockIndex.RemoveLock | storage/src/storage_locks.c:108-124 | in place: remove_lock is a step of the machine of its own name, whatever its threads are doing, and leaves every other name alone |
| LockService.LockIndex.DestroyLock | storage/src/storage_locks.c:161-169 | in place: destroy_lock, with the file's dictionary when empty is a step of the machine of its own name, whatever its threads are doing, and leaves every other name alone |
| LockOrder.SomeoneSteps | storage/src/sotrage_files.c:114-541 | among threads that take locks in rank order, following who waits for whom ends in one that can step |
| LockOrder.EveryoneFinishes | storage/src/sotrage_files.c:114-541 | no schedule is longer than the work, and a stuck one has finished every thread |
| LockOrder.OnePerRank | storage/src/sotrage_files.c:114-541 | a thread never takes a second File:Tag lock, a second block lock or a second leaf lock |
| LockTraces.TruncateInOrder | storage/src/sotrage_files.c:114-209 | TRUNCATE takes File:Tag, then one block, then one of the leaf locks, whatever the block list and link counts |
| LockTraces.WriteInOrder | storage/src/sotrage_files.c:211-301 | so does WRITE, giving up the old block before taking the new |
| LockTraces.ReadInOrder | storage/src/sotrage_files.c:304-340 | so does READ, which holds no File:Tag lock while it reads the block |
| LockTraces.CommitInOrder | storage/src/sotrage_files.c:342-422 | so does COMMIT, also where it gives back the block before the hash index |
| LockTraces.TagInOrder | storage/src/sotrage_files.c:424-470 | so does TAG, provided links succeed: the source's lock is back before the destination's is taken |
| LockTraces.DeleteInOrder | storage/src/sotrage_files.c:472-541 | so does DELETE |
| LockTraces.StorageNeverDeadlocks | storage/src/sotrage_files.c:114-541 | any number of threads running these operations, finding anything on disk, in any interleaving: no state is stuck and every operation completes |
| LockCoverage.ChangesCovered | storage/src/sotrage_files.c:114-541 | an operation touches blocks, bitmap and hash index only while it holds the lock of the File:Tag it changes, if and only if it is not a READ that finds its block: READ gives that lock back first |
| LockCoverage.BlocksLocked | storage/src/sotrage_files.c:114-541 | it takes the lock of each block it goes through, and of no other |
| LockTraces.LinkFailureHolds | storage/src/sotrage_files.c:454-456 | the proviso is needed: a TAG whose link fails, and any operation of another thread that begins by waiting for the destination, have a schedule from their start after which the second waits for ever |
| LockTraces.WaitsFirst | storage/src/sotrage_files.c:114-541 | every operation on a name with a lock, other than CREATE and TAG, begins by waiting for it |
| SchedulerInvariant.PlaceExists | master/src/master_util.c:37-42 | there is always a place that keeps the ready list sorted |
| SchedulerSteps.DispatcherNeverFails | master/src/process_handler.c:3-19 | the dispatcher with its two tokens finds a query in the list and then a free Worker |
| SchedulerSteps.StepKeepsInv | master/src/master_network_handler.c:42-289 | every step, an end with an error and the consult that follows it included: each query in at most one list, the ready list sorted, queries in execution and busy Workers paired one to one, every ready query and every free Worker announced by exactly one token |
| SchedulerRuns.RunKeepsInv | master/src/master_network_handler.c:42-289 | so in every run |
| SchedulerRuns.StartedRun | master/src/master_util.c:113-175 | from an empty Master: disjoint lists, the pairing, sortedness, tokens never above ready queries or free Workers |
| SchedulerRuns.PreemptedForBetter | master/src/master_aging.c:39-54 | a query with a strictly better priority is ready when check_prior decides and when the victim is evicted, and a strictly better one is dispatched next |
| SchedulerRuns.ReopensEarlyIff | master/src/master_aging.c:44-51 | after an eviction check_prior can be open again before the place is taken if and only if a token was left in sem_asign, or the dispatcher had paired and not yet read signal_asign |
| SchedulerCounterexamples.EvictsTwiceForOne | master/src/process_handler.c:11-17 | it happens: a run in which two queries are evicted for the sake of one, within all hypotheses |
| SchedulerRuns.AgingDropsIff | master/src/master_aging.c:13-29 | a waking aging thread loses its query if and only if the priority has already reached 0 |
| SchedulerRuns.AgingKeeps | master/src/master_aging.c:11-28 | with one thread a query that never happens |
| SchedulerCounterexamples.SecondThreadDrops | master/src/master_network_handler.c:193-199 | with two threads, which a preemption before the first one wakes starts, it is lost: a run from an empty Master that leaves two tokens for one ready query |
| SchedulerCounterexamples.DispatcherFails | master/src/process_handler.c:7-10 | and goes on to the dispatcher taking a query from an empty list |
| SchedulerRuns.CheckFailsIff | master/src/master_aging.c:37-43 | check_prior follows a NULL exactly when every Worker is taken and there is nothing running or nothing ready |
| SchedulerRuns.ArrivalFailsIff | master/src/master_network_handler.c:48-54 | called for an arriving query, only when nothing is running |
| SchedulerCounterexamples.CheckCanFail | master/src/master_aging.c:18-43 | and that state is reached from an empty Master within all hypotheses: the dispatcher takes the only ready query between its aging thread's decrement and the check |
| SchedulerRuns.VictimEndsBlocks | master/src/master_aging.c:43-49 | if a victim ends by EXIT before it is asked, the ready list never changes again |
| SchedulerRuns.VictimMayEnd | master/src/master_network_handler.c:250-264 | and nothing in the code keeps a victim from ending so first |
| SchedulerRuns.OutExact | master/src/master_network_handler.c:181-220 | a query that has ended stays out of the lists at every step except the consult of a Worker that had been told to interrupt it and reported an error: there it always comes back |
| SchedulerRuns.ErrorAgain | master/src/master_network_handler.c:281-289 | a second error of the same Worker before its consult finds its query ended and changes nothing |
| SchedulerCounterexamples.FinishedRunsAgain | master/src/master_network_handler.c:281-289 | a run from an empty Master, within all hypotheses, in which a query whose end was notified is executed again |
| SchedulerRuns.WorkConserving | master/src/process_handler.c:3-19 | with a query ready, a Worker free and nobody in check_prior, the scheduler itself can go on |
| SchedulerDecisions.PreemptsIff | master/src/master_aging.c:33-59 | called by an arrival or by an aging thread alike, check_prior preempts if and only if there is a Worker, none is free, and some query in execution has a strictly worse priority than the first ready one; the Worker told runs a query of the worst priority in execution |
| SchedulerDecisions.GoesOnIff | master/src/master_aging.c:53-59 | otherwise the caller just goes on: the arrival announces its query, the aging thread sleeps again unless its query has reached 0 |
| SchedulerDecisions.ArrivalInserted | master/src/master_network_handler.c:48-54 | under PRIORIDADES an arriving query is on the list when its check_prior comes |
| SchedulerDecisions.ArrivalWaits | master/src/master_network_handler.c:54-54 | and nothing but that check moves the arrival on |
| SchedulerDecisions.ThreadWaits | master/src/master_aging.c:25-26 | and nothing but its own check moves on an aging thread that has lowered a priority |
| SchedulerDecisions.BestIsNext | master/src/master_util.c:134-140 | under PRIORIDADES the query taken for dispatch has the best priority of those ready |
| SchedulerDecisions.FifoOrder | master/src/master_network_handler.c:42-47 | under FIFO, over any run, queries are taken in the order they arrived in, and none is lost |
| SchedulerDecisions.SavedPc | master/src/master_network_handler.c:186-187 | a preempted query keeps the pc its Worker consulted with, whatever happens, until it is preempted again |
| SchedulerDecisions.FreshPc | master/src/master_network_handler.c:20-42 | a query that has not been preempted starts at 0 |
| SchedulerDecisions.StartedAges | master/src/master_network_handler.c:58-63 | with aging, in every run from an empty Master, every ready query of priority above 0 has an aging thread or is still being announced by its arrival |
| SchedulerDecisions.AgesByOne | master/src/master_aging.c:11-28 | and a turn of that thread lowers that priority by one, moves that query alone in the list, and goes on to check_prior |
| SchedulerTermination.EvictsFalls | master/src/master_network_handler.c:181-206 | an eviction, of a victim that runs or that has ended with an error, lowers the work left inside the threads and leaves the queries yet to end and the sum of priorities as they are |
| SchedulerTermination.PairsFalls | master/src/process_handler.c:11-14 | so does a dispatch |
| SchedulerTermination.FailsFalls | master/src/master_network_handler.c:281-289 | an end with an error leaves one query fewer to end for good; if its Worker was told to interrupt, it lowers only the work left inside the threads |
| SchedulerTermination.EndsFalls | master/src/master_network_handler.c:250-262 | an end by EXIT leaves one query fewer to end |
| SchedulerTermination.AgesFalls | master/src/master_aging.c:11-28 | an aging step lowers the sum of all priorities by one, or, when its query is not ready, only the work left inside the threads |
| SchedulerTermination.MeasureFalls | master/src/master_aging.c:3-59 | without arrivals every step lowers, lexicographically: queries yet to end for good, the sum of their priorities, the work inside the threads |
| SchedulerTermination.Rest | master/src/master_aging.c:3-59 | so, whatever order the threads run in, the scheduler comes to rest |
| MasterService.Master.BuscarWorkerLibre | master/src/master_util.c:142-162 | in place: the first free Worker, exactly as the step machine says |
| MasterService.Master.BuscarVictima | master/src/master_util.c:189-205 | in place: the worst priority in execution, exactly as the step machine says |
| MasterService.Master.CheckPrior | master/src/master_aging.c:33-59 | in place: the preemption decision, exactly as the step machine says |
| MasterService.Master.InsertReady | master/src/master_network_handler.c:42-52 | in place: the sorted insertion, exactly as the step machine says |
| MasterService.Master.LlegaQuery | master/src/master_network_handler.c:20-72 | in place: a query arrives, exactly as the step machine says |
| MasterService.Master.LlegaWorker | master/src/master_network_handler.c:77-102 | in place: a Worker arrives, exactly as the step machine says |
| MasterService.Master.ObtenerQuery | master/src/master_util.c:134-140 | in place: the dispatcher takes the head, exactly as the step machine says |
| MasterService.Master.ConsultarLlegada | master/src/master_network_handler.c:54-54 | in place: the arriving query asks for a preemption, exactly as the step machine says |
| MasterService.Master.AvisarReady | master/src/master_network_handler.c:56-70 | in place: its aging thread and its token, exactly as the step machine says |
| MasterService.Master.AvisarWorker | master/src/master_network_handler.c:95-95 | in place: the token of a Worker, exactly as the step machine says |
| MasterService.Master.TomarFichas | master/src/process_handler.c:7-8 | in place: the dispatcher waits for its tokens, exactly as the step machine says |
| MasterService.Master.ConsultarEdad | master/src/master_aging.c:25-26 | in place: the aging thread asks for a preemption, exactly as the step machine says |
| MasterService.Master.HacerPar | master/src/master_util.c:164-175 | in place: the dispatcher pairs, exactly as the step machine says |
| MasterService.Master.Envejecer | master/src/master_aging.c:11-28 | in place: one turn of the aging thread, exactly as the step machine says |
| MasterService.Master.AvisarAsign | master/src/process_handler.c:16-17 | in place: the dispatcher reads signal_asign, exactly as the step machine says |
| MasterService.Master.TomarAsign | master/src/master_aging.c:49-49 | in place: check_prior waits for the dispatcher, exactly as the step machine says |
| MasterService.Master.ReabrirCheck | master/src/master_aging.c:50-51 | in place: check_prior reopens, exactly as the step machine says |
| MasterService.Master.ConsultaInterrupcion | master/src/master_network_handler.c:169-228 | in place: the Worker consults and, if told, is evicted with its pc, also after an error, exactly as the step machine says |
| MasterService.Master.FinalizarQuery | master/src/master_util.c:10-35 | in place: a query ends by EXIT, whatever its Worker was told, exactly as the step machine says |
| MasterService.Master.FinalizarConError | master/src/master_network_handler.c:281-289 | in place: a query ends with an error, exactly as the step machine says |
| MasterService.Master.LiberarWorker | master/src/master_util.c:113-120 | in place: its Worker is free again, exactly as the step machine says |
| PacketModel.IntRoundTrip | utils/src/utils/paquetes.c:50-50 | an int survives its four bytes, negative opcodes included |
| PacketModel.Serialized | utils/src/utils/paquetes.c:66-82 | a serialized packet takes exactly espacio_paquete_serializado bytes |
| PacketModel.RecvPacked | utils/src/utils/paquetes.c:107-128 | whatever arrives, the buffer recibir_paquete builds can be taken apart to its last byte |
| PacketRoundTrip.Arrives | utils/src/utils/paquetes.c:85-188 | a packet without empty items is received whole and the rest of the connection is untouched |
| PacketRoundTrip.EmptyItemCuts | utils/src/utils/paquetes.c:107-128 | the first empty item ends the packet for the receiver, and what follows is taken for the next packet |
| PacketRoundTrip.RoundTripIff | utils/src/utils/paquetes.c:46-188 | the round trip holds if and only if no item is empty |
| PacketRoundTrip.StreamRoundTrip | utils/src/utils/paquetes.c:46-188 | decoding the concatenation of any packets without empty items gives them back in order, consuming exactly their bytes |
| PacketRoundTrip.SentInjective | utils/src/utils/paquetes.c:66-82 | different sequences of packets are different bytes |
| PacketLayout.IntBytes | utils/src/utils/paquetes.c:46-54 | an int is four bytes, least significant first, in two's complement |
| PacketLayout.SentLayout | utils/src/utils/paquetes.c:66-82 | where each byte of a packet is: opcode, bytes the items take, each item behind its length, and a length of 0 unless there is no item |
| PacketLayout.CutExits | utils/src/utils/paquetes.c:85-131 | a connection that ends between two pieces of a packet ends the process: what came before is not taken for a packet |
| PacketLayout.NegativePassed | utils/src/utils/paquetes.c:107-127 | a negative length is passed over |
| PacketService.Buffer.AgregarAPaquete | utils/src/utils/paquetes.c:46-54 | in place: the item behind its length, exactly as the format says |
| PacketService.Buffer.SerializarPaquete | utils/src/utils/paquetes.c:66-82 | in place: the pieces copied one after another, exactly as the format says |
| PacketService.Buffer.ObtenerSiguienteItem | utils/src/utils/paquetes.c:134-157 | in place: the first item, and the buffer without it, exactly as the format says |
| PacketService.RecibirPaquete | utils/src/utils/paquetes.c:85-131 | in place: the receive loop, exactly as the format says |
| PacketService.RecvPackageList | utils/src/utils/paquetes.c:166-188 | in place: every item of the packet, exactly as the format says |

## Left out

- Sockets, handshakes, logs, configuration, path building, directories, mmap and delays; requests and
  answers between modules are direct calls.
- MD5 and the list, dictionary and bitarray libraries: an injective function, sequences, maps and arrays.
- malloc, free and process exit: page nodes are keyed by File:Tag and page number, so a pointer into a
  table that was freed has no counterpart; an exit or a NULL dereference ends the run.
- link and unlink in Storage succeed; the effect of a failed link is modelled on locks only.
- Crash consistency, a start with FRESH_START=FALSE, and the directory scan in `init_locks_index`.
- Concurrent data refinement of Storage: data properties are proved with atomic operations and lock
  properties apart.
- Staleness of clean pages across Workers: the code has no invalidation, and no claim is made for two
  Workers that hold the same file.
- `temporal_gettime` is a counter that advances at each access; two accesses within one millisecond are
  not modelled.
- Identifiers are taken to differ in more than case; the Worker compares them ignoring case.
- Negative sizes, addresses and lengths, and the wrap-around of C ints, except in the packet format.
- What lies in READ's buffer beyond the bytes copied is not initialised by the code; only the bytes
  copied are modelled.
- WorkerService.Worker.FileTagEnMemoria: the search of the table list is a map lookup, so the order of
  the list is not modelled; the flushes of an interruption are proved for every order.
- StorageRefinement.StepRefines: a disk whose block count is not a multiple of 8 is outside it, because
  the code then hands out blocks that do not exist (`FullDiskAnswer`); `FreshInv` says that those are
  exactly the disks left out.
- WorkerSimulation.ExecSimulates: a write-back that Storage refuses is outside it, because the code
  drops the page; `EvictExact` says what is then lost, and `RunFrom` and `EjecutarQuery` end the query
  in error at its next consult.
- WorkerQueries.RelayIsOneRun: a stay that begins before the flush of the last has reached Storage is
  outside it, because the Master frees the query before that flush; `HandoverExact` says when Storage
  has the query's files by then.  Write-backs that arrive while the next stay is under way are not
  modelled.
- SchedulerSteps.StepKeepsInv: an error reported by the flush after a consult is not modelled, because
  the Worker has no query by then, and the Master follows NULL, or already has its next one, and then
  the report is that query's `Fails`; a second report before the consult changes nothing
  (`ErrorAgain`) but is sent to the Query Control again.
- SchedulerSteps.StepKeepsInv: disconnection of a Query Control, of an idle Worker or of a busy one is
  not modelled, because it frees the query or the Worker that other threads still point to; so a query
  that comes back after an error is one whose Query Control has stayed connected.
- PacketService.RecibirPaquete: a connection that closes in the middle of a piece ends the process; the
  partial piece the C code would use is not modelled.
- `liberar_query` and `solicitar_desalojo`, which nothing calls; `query_control`, the script parser and
  the dispatch of requests in Storage, which only forward.
