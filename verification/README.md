# Dhara flash translation layer: a verified model

Dhara keeps a map from 32-bit sector numbers to pages of data on a NAND flash chip. The map is a
radix tree that exists only as pointers in page metadata; the pages form a journal that runs round
and round over the chip's erase blocks. This project models the map, the journal, the NAND chip
under them and the error-correcting codes that come with them, and proves what the code is for.

## The map and the journal

`Nand` is the chip: page contents, bad-block marks, failures that may strike any erase or program,
and a ghost history of every state the chip has been in, interrupted operations included.
`Journal` is the queue of user pages with its checkpoints, its bad-block skipping, its recovery
machine and its resume by binary search. `Map` is the radix tree on top of it. All three are
classes that change in place, as the structures of the program do. `Geometry` keeps pages as
(block, group, index); `PageNumbers` proves that this agrees with the arithmetic on page numbers.

Main results, hardest first:

* **Refinement over whole runs** (`Run.Execute`): after any sequence of writes, trims, reads,
  collections, syncs and clears, every read returned the data last written to its sector, or all
  0xff, and the sector count is the number of mapped sectors. Block failures, recoveries and
  restarted recoveries may happen anywhere, and a write refused because the map is full, or a read
  that fails, does not end the run.
* **Power cuts** (`Run.Execute`, `Run.Cut` and `Run.CutAtRest`): when the power goes at any moment of
  a run, in the middle of an erase or of a program or between two operations, the map that resumes
  holds exactly what some first operations of the run lead to, and once a sync has returned, nothing
  from before it is lost. With one user page per group this needs a condition on the chip, which is
  given exactly (below).
* **Recovery** (`Map.TryRecover`): a failing block is evacuated with the map unchanged, whatever
  fails on the way, and then marked bad; the loop ends.
* **Collection and trim** (`Map.RawGc`, `Map.SpliceCousin`): no lookup visits a collected page
  again; one rewritten cousin removes one sector from the tree and no other.
* **Resume** (`Journal.Resume`): both binary searches and the scans that follow find the last
  checkpoint, and the head lands on erased pages.
* **Space** (`Run.Execute`, by `Occupancy.CountsAppend`, `Occupancy.CountsCollect` and
  `Occupancy.BelowCapacity`): on a reliable chip without bad blocks no operation of any run fails,
  but for writes of new sectors while the map is full; the queue stays below the journal's capacity by the
  map's safety margin, but for one page.
* **Wear** (`Run.Execute`, by module `Wear`): on every chip, with any blocks marked bad and any failing
  on the way, the erase counts of any two blocks not marked bad never differ by more than one between
  operations.

`Tree` has the pure facts about the radix tree, `MapState` what one enqueued page does to the map,
`JournalState` the invariant of the journal as a value, `Durability` which chip images can be
resumed and why the journal leaves no others behind, `Resumption` what the searches find there,
`Failures` the states from which it does not keep what it promises.

A chip is either *reliable* - no erase or program fails, good pages read back - or anything may
fail at any time. Reads that fail end the operation with an error and leave the map as it was.

## The codes

Buffers and words are strings of bits, the least significant first (`BitStrings`).

* **GF(2^13)** (`Gf13`, `Field`, `Tables`): the shift-and-add product is that of a field; division
  by twelve squarings inverts it; the powers of x are all the nonzero elements, because 8191 is
  prime; the table forms agree with the plain ones, and exactly where they do is stated.
* **BCH** (`Polynomials`, `PowerSums`, `BerlekampMassey`, `BchCode`, `Generators`, `ErrorLocation`,
  `Bch`): end to end, for all four codes: a chunk and checksum with at most `syns / 2` wrong bits
  are restored in place and then verify (`Bch.Repair`).
* **Hamming** (`Hamming`): one wrong bit in chunk or checksum leaves the chunk correct after
  repair; two are detected and nothing is changed.
* **CRC-32** (`Crc32`): the table loop is division by the polynomial of section 3.2.9 of IEEE Std
  802.3, and any error burst of up to 32 bits is seen.

## Where the code differs from what it promises

* A recovery that begins while the journal has no root goes on as long as reads succeed: the enumeration
  starts beyond the chip and never meets the root (journal.c:773-774). `Map.RootlessRounds` has the state
  after any number of rounds, `PageNumbers.EnumerationNeverEnds` the arithmetic; `Map.TryRecover` gives
  `Endless` for it, and only then. It takes a journal that is cleared while its head is inside a block and
  a block failure at the next write (`Failures.WriteAfterClear`, `Failures.ClearedInside`).
* With one user page per checkpoint group, a failed checkpoint program at the start of a block is
  taken for a block that failed before anything was written, and the page just enqueued is dropped
  although 0 is returned; the remark at journal.c:832-834 overlooks this. `JournalState.LosesPage` is the
  exact condition (`Journal.CheckpointFailed`, `Journal.PushMeta`, `Journal.Enqueue`), and
  `Failures.PageDropped` a case of it; the map is proved for larger groups and for chips that do not fail.
* With one user page per group, `find_head` starts beyond the last group (journal.c:367). Where the block
  of the root is full, it goes past the next block unless that is free, and does not make the tail give
  way if it is free. `Resumption.Lands` is the exact condition for the resume to keep what the
  checkpoint holds (`Failures.SingleKeeps`), and `Run.Cut` fails without it: the head may come to the
  block of the tail, whose live pages leave the queue and are erased (`Failures.LapResumes`,
  `Failures.LapLosesTail`); otherwise the block skipped keeps an old epoch, and no later checkpoint of
  the lap is found again (`Failures.EpochHole`).
* After a resume the head may be in the middle of a group, with a blank page buffer. If the block then
  fails, the blank buffer is dumped, and `read_meta` takes the dump for the metadata of the group of
  `recover_root` (journal.c:527-530), which is the earlier group, already checkpointed. Its root then reads
  as filler, so that during the evacuation no sector is found. The queue stays readable if and only if the
  buffer holds what the root's group has (`Failures.DumpServesRoot`), right after a resume if and only if
  that group is all filler (`Failures.ResumedDump`); `Failures.SmallLosesRoot` is a chip where it fails.
* Where the metadata of a failed group has been dumped is known in memory only. A power cut between a
  checkpoint written during recovery and the end of the recovery leaves a chip on which that checkpoint
  is the last, and stands for pages of the failed group whose metadata a resumed journal does not find
  (`Failures.CutForgetsDump`, `Failures.CutLosesPage`). The sector map survives such a cut if and only if
  no lookup visits one of these pages any more (`Failures.CutKeepsMap`). The results about power cuts
  are therefore about chips that do not fail.
* `find_checkblock` gives up after eight blocks, and the first good block has no checkpoint between
  the erase and the first checkpoint of a lap. A resume therefore needs two good blocks among the
  first eight: without them the resume finds no mark and returns TOO_BAD (`Durability.WrapNeedsTwoGood`
  and `Journal.Resume`); with them it always succeeds (`Durability.EraseKeeps`).
* The table form of `gf13_mul` is wrong if and only if an operand is zero, whose table logarithm is
  0 (`Tables.TableMulExact`). `Bch` never multiplies by zero, nor uses the quotient of a zero discrepancy
  that bch.c:217 computes: it calls `Tables.Product` and `Tables.Quotient`, which ask and promise only what
  both forms give.

## Model

| member | source | states |
|---|---|---|
| Run.Execute | src/dhara/dhara/map.c:206-635 | over every sequence of write, trim, read, gc, sync and clear, refused writes and failed reads included, each read returns the data last written to its sector or all 0xff, only a write of a sector that is not mapped is refused, and `count` is the number of mapped sectors; while nothing fails on the chip, at every moment of every operation and between any two, the chip holds a map that some prefix of the operations leads to, no shorter than up to the last sync that has returned; on a reliable chip without bad blocks no run ends early, a write is refused only when the least capacity is used up, and the queue stays below the capacity by the safety margin but for a page; on every chip, failing ones included, the erase counts of any two blocks not marked bad differ by one at most |
| Run.Cut | src/dhara/dhara/map.c:73-92 | a power cut at any moment of an operation of such a run, two of the first eight blocks being good and the search for the head landing: the map that resumes is the one after some first `n` operations, all operations up to the last sync before this one among them, on the same chip and fit for the next run and the next cut |
| Run.CutAtRest | src/dhara/dhara/map.c:73-92 | a power cut between two operations: the map that resumes is the one after some first `n` operations, all up to the last sync among them, and all of them if that was the last |
| Run.Step | src/dhara/dhara/map.c:94-101 | each single operation takes the sector map to what the operation means on a plain map, and leaves it alone when it fails; after MAP_FULL, and after a read that fails, the map can be used on |
| Run.StepAtomic | src/dhara/dhara/journal.c:835-864 | the maps a cut can leave during one operation are the one last saved, the one before and the one after it |
| Run.Format | src/dhara/dhara/map.c:71-101 | a blank chip with any bad-block marks gives a map to which the results about runs apply |
| Map.Map.TracePath | src/dhara/dhara/map.c:126-204 | the walk finds the page of the sector in the tree, or none, and collects the sibling at each of the 32 levels; read errors aside, NOT_FOUND is returned exactly when the sector is unmapped |
| Map.Map.Read | src/dhara/dhara/map.c:211-230 | returns the data of the sector, or all 0xff if it is unmapped |
| Map.Map.RawGc | src/dhara/dhara/map.c:236-285 | the map is unchanged and afterwards no lookup passes through the page; in recovery, with any page of the failed block |
| Map.Map.PadQueue | src/dhara/dhara/map.c:287-305 | fills one slot of the group without changing the map, also while a block is being evacuated |
| Map.Map.TryRecover | src/dhara/dhara/map.c:308-352 | on success the map is unchanged, the block of the old root is marked bad, no live page is left in it and there is a good block fewer; a recovery that began with a root ends; one that began without a root is over only if a read fails |
| Map.Map.RootlessRound | src/dhara/dhara/map.c:318-331 | a round of a recovery without a root changes nothing but the page enumerated, whatever that page holds |
| Map.Map.RootlessRounds | src/dhara/dhara/map.c:318-349 | after any number of rounds, while reads succeed, recovery is on and the enumeration at its next page |
| Map.Map.RecoverOnce | src/dhara/dhara/map.c:318-349 | one step of the recovery loop comes closer to its end: (enumeration done, groups left, pages left) falls lexicographically unless the recovery is restarted |
| Map.Map.AutoGc | src/dhara/dhara/map.c:354-372 | collection leaves the map unchanged |
| Map.Map.PrepareWrite | src/dhara/dhara/map.c:374-402 | MAP_FULL only for a sector that is not mapped, in a map at its capacity; otherwise the metadata is the path of the sector and the cookie the new count |
| Map.Map.Write | src/dhara/dhara/map.c:404-431 | on success exactly this sector has changed; on failure none; ends, since each failed attempt uses up a good block |
| Map.Map.FindLevel | src/dhara/dhara/map.c:504-512 | the deepest level at which the path has a sibling, or -1 when it has none |
| Map.Map.TryDelete | src/dhara/dhara/map.c:481-548 | removes exactly this sector, the last one included; an unmapped sector is no error |
| Map.Map.SpliceCousin | src/dhara/dhara/map.c:530-547 | one cousin rewritten with the spliced path takes the sector out of the map, leaves all others with their data, and lowers the count by one |
| Map.Map.Trim | src/dhara/dhara/map.c:550-573 | on success exactly this sector is gone; on failure nothing has changed |
| Map.Map.Clear | src/dhara/dhara/map.c:94-101 | the map is empty, and what is saved stays saved |
| Map.Map.Sync | src/dhara/dhara/map.c:575-603 | afterwards the checkpoint on the chip stands for the map as it is; ends, since (good blocks, slots to the checkpoint, queue) falls lexicographically |
| Map.Map.SyncRound | src/dhara/dhara/map.c:577-600 | one round keeps the map and comes closer to the checkpoint |
| Map.Map.Gc | src/dhara/dhara/map.c:605-635 | one collection step keeps the map, through failures of blocks too |
| Map.Map.CollectTail | src/dhara/dhara/map.c:587-594 | the tail page is dealt with and removed without a change of the map |
| Map.Map.Resume | src/dhara/dhara/map.c:73-92 | the map is the one that the checkpoint on the chip stands for, and `count` its size |
| Map.Restart | src/dhara/dhara/map.c:73-92 | after a cut at any moment a new map object resumes one of the maps that can have been saved, for the same geometry and bad blocks |
| MapState.MapsWrite | src/dhara/dhara/map.c:126-204 | the page written with the traced path makes the log hold the map with this sector updated |
| MapState.MapsTrim | src/dhara/dhara/map.c:501-538 | the cousin with the spliced path makes the log hold the map without this sector |
| MapState.LastSector | src/dhara/dhara/map.c:514-520 | a path without siblings belongs to the only sector of the map |
| MapState.RewriteStep | src/dhara/dhara/map.c:277-284 | a rewritten page keeps the map, in recovery too; when recovery ends with it, the pages of the failed block can leave the log |
| MapState.StaleStep | src/dhara/dhara/map.c:248-275 | a page that is filler, unmapped or superseded is visited by no lookup |
| MapState.DequeueStep | src/dhara/dhara/map.c:622-626 | dropping a page that no lookup visits keeps the map, also when it was the root |
| MapState.RefusedStep | src/dhara/dhara/journal.c:671-695 | restarting recovery from the old root brings back the same map |
| MapState.EnumerateStep | src/dhara/dhara/journal.c:913-937 | the live pages of the failed block are those still to be enumerated |
| MapState.CloserDecreases | src/dhara/dhara/map.c:318-349 | every recovery step lowers the measure of the recovery loop |
| MapState.RecordedSurvives | src/dhara/dhara/journal.c:841-864 | a chip that can be resumed gives back the map that its checkpoint saved |
| Tree.WriteKeepsTree | src/dhara/dhara/map.c:147-184 | after a write for `t` with its traced path, a lookup of `u` ends at the new page if `u == t` and where it ended before otherwise; the tree stays good |
| Tree.TrimKeepsTree | src/dhara/dhara/map.c:501-538 | after the splice a lookup of the trimmed sector finds nothing, of the cousin's sector the new page, of any other sector what it found before |
| Tree.LiveIsCurrent | src/dhara/dhara/map.c:255-275 | every page that any lookup visits is the current page of its own sector |
| Tree.StaleIsDead | src/dhara/dhara/map.c:269-275 | a page that is not the current page of its sector is visited by no lookup |
| Tree.RewriteKillsSource | src/dhara/dhara/map.c:277-284 | after a rewrite no lookup visits the page that was rewritten |
| Tree.Frame | src/dhara/dhara/map.c:140-184 | lookups depend on the pages they visit and on no others |
| Tree.TrimLive | src/dhara/dhara/map.c:530-538 | after a trim the pages visited are the new page and pages visited before, without the trimmed one |
| Tree.TraceStep | src/dhara/dhara/map.c:147-184 | one level of the loop follows the branch of the tree |
| Tree.NoSiblingMeansAlone | src/dhara/dhara/map.c:504-520 | a path without siblings means that no other sector is mapped |
| Bits.AgreeAll | src/dhara/dhara/map.c:23-26 | two sectors whose bits agree at all 32 depths are the same |
| Bits.FlipBits | src/dhara/dhara/map.c:23-26 | inverting the bit at one depth changes that bit only |
| Journal.Journal.constructor | src/dhara/dhara/journal.c:174-214 | an empty journal on a chip |
| Journal.Journal.FindCheckblock | src/dhara/dhara/journal.c:220-239 | the first block with a checkpoint mark among eight, or TOO_BAD when there is none |
| Journal.Journal.FindLastCheckblock | src/dhara/dhara/journal.c:241-274 | the binary search ends at the last block of the current epoch, on every image whose epochs are split once and whose marks are never eight blocks apart |
| Journal.Journal.GroupIsFree | src/dhara/dhara/journal.c:293-307 | exactly when every page of the group is erased |
| Journal.Journal.FindLastGroup | src/dhara/dhara/journal.c:309-341 | the binary search ends at the last group in use, when the groups in use are the first ones |
| Journal.Journal.FindRoot | src/dhara/dhara/journal.c:343-363 | the last checkpoint of the epoch in the block; TOO_BAD only when there is none |
| Journal.Journal.FindHead | src/dhara/dhara/journal.c:365-423 | the head is on an erased user page or at a block start, the epoch rolls exactly when it wraps, the tail moves on exactly when the head reaches its block; with one user page per group, on the first free group after the one searched from, in its block or in the next, or past that |
| Journal.Journal.Resume | src/dhara/dhara/journal.c:425-471 | root, tail, log and cookie are those of the last checkpoint programmed, and TOO_BAD comes exactly on a chip without one, wherever the search for the head lands; TOO_BAD on any readable chip where none of the first eight blocks is marked |
| Journal.Journal.ReadMeta | src/dhara/dhara/journal.c:511-534 | the metadata enqueued with the page, whether buffered, dumped or in its checkpoint page |
| Journal.Journal.Peek | src/dhara/dhara/journal.c:536-567 | None exactly when the queue is empty; bad blocks at the tail are skipped and no page of the queue with them, in recovery too |
| Journal.Journal.Dequeue | src/dhara/dhara/journal.c:574-599 | exactly the tail page leaves; the root is forgotten exactly if it was that page; the synchronised tail follows at once exactly when the journal is clean and not in recovery, in which it stays sound unless recovery needs the page |
| Journal.Journal.Clear | src/dhara/dhara/journal.c:601-608 | the queue is empty, the journal dirty, and the checkpoint on the chip is still the old one |
| Journal.Journal.SkipBlock | src/dhara/dhara/journal.c:610-628 | the head moves to the next block unless the synchronised tail is in it |
| Journal.Journal.PrepareHead | src/dhara/dhara/journal.c:631-669 | on success the head is on an erased page of a good block, the rest of the block is erased, and the checkpoint on the chip has not lost a page |
| Journal.Journal.RestartRecovery | src/dhara/dhara/journal.c:671-695 | the log and the root are those from before the failure; a block that holds dumped metadata is not marked yet |
| Journal.Journal.DumpMeta | src/dhara/dhara/journal.c:697-739 | the buffered metadata of the failed group is on a page that recovery keeps |
| Journal.Journal.RecoverFrom | src/dhara/dhara/journal.c:741-785 | outside recovery, a failed block is skipped if and only if nothing had been written on it, unless no block follows; otherwise recovery begins, or begins again, with the queue as it was |
| Journal.Journal.FinishRecovery | src/dhara/dhara/journal.c:787-804 | the failed block and the block of failed dumped metadata are marked bad and nothing in the queue is left there |
| Journal.Journal.PushMeta | src/dhara/dhara/journal.c:806-867 | the page joins the queue with its metadata; a full group brings a checkpoint that stands for the queue as it is; both moments of the program leave the chip resumable; a checkpoint program that fails ends in JOURNAL_FULL or TOO_BAD, or else is answered with success if and only if there is one user page per group, no recovery, and the head starts a block |
| Journal.Journal.CheckpointFailed | src/dhara/dhara/journal.c:841-844 | a failed checkpoint program ends in JOURNAL_FULL or TOO_BAD, or else is taken for a success if and only if the state is `LosesPage` |
| Journal.Journal.FillGroup | src/dhara/dhara/journal.c:825-866 | the last user page of a group: checkpoint, head on the next group, end of recovery, synchronised tail |
| Journal.Journal.Enqueue | src/dhara/dhara/journal.c:869-889 | the page joins the queue as its last page and root, or the queue is unchanged, or recovery asks to be run with the queue unchanged; success with the page dropped happens exactly when the checkpoint program fails in the state `LosesPage` |
| Journal.Journal.Copy | src/dhara/dhara/journal.c:891-911 | the same with the data of a page: what was enqueued on a page of the queue, and on a reliable chip what any page outside the block being written reads as |
| Journal.Journal.NextRecoverable | src/dhara/dhara/journal.c:913-937 | gives the user pages of the failed block up to the root, one after the other, then None |
| Journal.Journal.RollStats | src/dhara/dhara/journal.c:199-204 | the epoch counts modulo 256 |
| JournalState.TouchHead | src/dhara/dhara/journal.c:631-669 | what happens to the head's block from the head on is seen by no page of the queue |
| JournalState.SkipKeeps | src/dhara/dhara/journal.c:610-628 | skipping a block keeps the journal invariant |
| JournalState.PushKeeps | src/dhara/dhara/journal.c:806-867 | a pushed page keeps the journal invariant: the queue stays in its window, readable with its metadata |
| JournalState.FinishKeeps | src/dhara/dhara/journal.c:787-804 | the end of recovery keeps the journal invariant |
| JournalState.RestartKeeps | src/dhara/dhara/journal.c:671-695 | the restart of recovery keeps the journal invariant |
| JournalState.DumpKeeps | src/dhara/dhara/journal.c:709-719 | dumped metadata is found for every page of the failed group |
| JournalState.BeginKeeps | src/dhara/dhara/journal.c:773-784 | recovery without buffered metadata begins with the queue readable |
| JournalState.DequeueKeeps | src/dhara/dhara/journal.c:574-599 | a dequeue keeps the journal invariant, in recovery too if the page is not one that it needs |
| JournalState.EnumerateKeeps | src/dhara/dhara/journal.c:927-934 | each page of the failed block is enumerated once, in order |
| JournalState.SkipTailKeeps | src/dhara/dhara/journal.c:543-563 | skipping a bad block at the tail passes no page of the queue |
| Geometry.AdvanceHead | src/dhara/dhara/journal.c:639-643 | the head moves without reaching the synchronised tail from behind |
| Geometry.AdvanceTailKeeps | src/dhara/dhara/journal.c:581 | moving the tail by a page takes exactly that page out of the window |
| Geometry.FreshBlock | src/dhara/dhara/journal.c:645-669 | a head at the start of a block has no page of the window in that block |
| PageNumbers.NextNumIsNext | src/dhara/dhara/journal.c:119-133 | the arithmetic on 32-bit page numbers is the step to the next user page |
| PageNumbers.NumOrder | src/dhara/dhara/journal.c:494-508 | page numbers are ordered as pages are |
| PageNumbers.AlignedPages | src/dhara/dhara/journal.c:96-99 | the alignment tests are those for the start of a group and of a block |
| PageNumbers.AlignEqPages | src/dhara/dhara/journal.c:102-105 | the tests for the same alignment unit are those for the same group and block |
| PageNumbers.RootGoneIsTail | src/dhara/dhara/journal.c:591-598 | the distances in 32-bit arithmetic say that the root has left exactly when it was the page dequeued |
| PageNumbers.JournalSizeIsSteps | src/dhara/dhara/journal.c:488-509 | the size is the number of steps from the synchronised tail to the head |
| PageNumbers.EnumerationNeverEnds | src/dhara/dhara/journal.c:773-774 | without a root the numbers enumerated never include the root's |
| PageNumbers.OnwardIsNext | src/dhara/dhara/journal.c:933-933 | also from beyond the chip the arithmetic on numbers is the step of the model |
| PageNumbers.EnumeratedIs | src/dhara/dhara/journal.c:913-937 | the pages enumerated without a root have the numbers that the arithmetic gives |
| PageNumbers.ChoosePpc | src/dhara/dhara/journal.c:139-159 | the largest checkpoint period whose metadata fits on a page, up to the maximum; 1 even where nothing fits |
| Durability.EraseKeeps | src/dhara/dhara/journal.c:639-657 | an erase of the head's block, finished or cut short, leaves the last checkpoint resumable |
| Durability.ProgramKeeps | src/dhara/dhara/journal.c:876-878 | a program at the head, finished or cut short, leaves the last checkpoint resumable |
| Durability.NewCheckpoint | src/dhara/dhara/journal.c:841-864 | a programmed checkpoint page makes the new checkpoint resumable, and the journal stands right after it |
| Durability.SkipCoupled | src/dhara/dhara/journal.c:660-664 | skipping bad blocks keeps the gap between marks below eight |
| Durability.ForgetResumable | src/dhara/dhara/journal.c:583-589 | a page dequeued while the journal is clean can be reused at once: the checkpoint without it is still resumable |
| Durability.WrapNeedsTwoGood | src/dhara/dhara/journal.c:224-236 | once the only good block of the first eight has been erased, none of them is marked and `Resume` gives up; a checkpoint that can be resumed then needs another good block, and has a mark among the eight |
| Failures.DumpServesRoot | src/dhara/dhara/journal.c:525-530 | a block fails while the head is inside a group without pages of the queue: the queue stays readable if and only if the buffer has the metadata of the root's group |
| Failures.ResumedDump | src/dhara/dhara/journal.c:776-780 | right after a resume that is so if and only if the root's group is all filler; the root always reads as filler |
| Failures.SmallResumes | src/dhara/dhara/journal.c:425-471 | a chip that a cut leaves and from which a resume puts the head inside a group |
| Failures.SmallLosesRoot | src/dhara/dhara/journal.c:525-530 | there the root, which holds a sector, reads as filler once the next block holds the dump |
| Failures.PageDropped | src/dhara/dhara/journal.c:832-844 | a sound journal, its page dropped, and the sound journal after it |
| Failures.WriteAfterClear | src/dhara/dhara/journal.c:773-784 | a journal cleared inside a block: if the next write asks for recovery, it is one without a root |
| Failures.ClearedInside | src/dhara/dhara/journal.c:601-608 | such a journal |
| Failures.CutForgetsDump | src/dhara/dhara/journal.c:525-533 | right after a checkpoint written during recovery, a power cut leaves no metadata for the pages of the failed group, and that of all other pages |
| Failures.CutLosesPage | src/dhara/dhara/journal.c:697-719 | a sound journal in recovery whose last checkpoint, found after a power cut, stands for a page without metadata |
| Failures.CutKeepsMap | src/dhara/dhara/journal.c:835-866 | at such a moment the sector map survives a power cut if and only if no lookup visits a page of the failed group |
| Failures.SingleKeeps | src/dhara/dhara/journal.c:365-420 | with one user page per group, the journal that a resume sets up has the queue of its checkpoint and a head that belongs there if and only if the search for the head lands, or skips a bad block that it may skip |
| Failures.LapResumes | src/dhara/dhara/journal.c:425-453 | a chip with one user page per group in its second lap, whose last checkpoint can be found |
| Failures.LapLosesTail | src/dhara/dhara/journal.c:409-417 | there the head goes past a block to that of the tail, whose page leaves the queue and is erased next |
| Failures.EpochHole | src/dhara/dhara/journal.c:241-274 | a block with an old epoch left between two of the current one hides every later checkpoint |
| Resumption.FirstFound | src/dhara/dhara/journal.c:430-438 | the first block found carries the current epoch, and none is found on a chip without checkpoints |
| Resumption.MarkSearch | src/dhara/dhara/journal.c:246-271 | what one probe of the search says about the last block of the epoch |
| Resumption.RootFound | src/dhara/dhara/journal.c:441-451 | the last checkpoint is the one found |
| Resumption.ResumedKeeps | src/dhara/dhara/journal.c:453-470 | the journal set up from the checkpoint satisfies the journal invariant and is coupled to that checkpoint |
| Resumption.SearchKeeps | src/dhara/dhara/journal.c:453-470 | the same for what the search for the head finds, for any size of group, where it lands |
| Space.LengthByTail | src/dhara/dhara/map.c:354-402 | the queue is no longer than the current pages there were when its tail page joined, and the pages written since |
| Space.CollectKeeps | src/dhara/dhara/map.c:605-635 | a collection step keeps what every page of the queue remembers of its birth |
| Space.AppendKeeps | src/dhara/dhara/map.c:404-431 | so does a page written after collection has caught up |
| Occupancy.CountsAppend | src/dhara/dhara/journal.c:806-867 | a page that joins the queue of the class joins the abstract queue, which stays within the map's limits |
| Occupancy.CountsWrite | src/dhara/dhara/map.c:404-431 | so does the page of a write |
| Occupancy.CountsTrim | src/dhara/dhara/map.c:530-547 | so does the cousin that a trim rewrites |
| Occupancy.CountsCollect | src/dhara/dhara/map.c:605-635 | collecting the tail page of the class is collecting that of the abstract queue |
| Occupancy.CountsClear | src/dhara/dhara/journal.c:636-643 | a queue within its limits leaves room at the head: the journal is never full |
| Occupancy.BelowCapacity | src/dhara/dhara/map.c:103-115 | the queue is below the journal's capacity by the safety margin, but for a page; so is the size, but for a group |
| Occupancy.AboveLeast | src/dhara/dhara/map.c:103-115 | the capacity of the map is never below what it was on the blank chip |
| Wear.EvenWear | src/dhara/dhara/nand.h:65-71 | the erase counts of any two good blocks differ by one at most |
| Wear.SkipEven | src/dhara/dhara/journal.c:660-664 | skipping a bad block keeps the wear even |
| Wear.EraseEven | src/dhara/dhara/journal.c:655-658 | so does erasing the head's block, failed or not |
| Wear.LeaveEven | src/dhara/dhara/journal.c:751-756 | so does giving up a block that has been erased |
| Wear.MoveEven | src/dhara/dhara/journal.c:848-854 | so does moving the head on |
| Nand.Nand.Erase | src/dhara/dhara/nand.h:65-71 | a good block becomes erased, or fails; interrupted, each of its pages is old, erased or torn; no other block changes |
| Nand.Nand.Prog | src/dhara/dhara/nand.h:73-81 | a page is programmed only above everything in its block, once, in a good block; interrupted or failed, it is torn |
| Nand.Nand.ReadCheck | src/dhara/dhara/nand.h:86-90 | a checkpoint page reads back; a torn page or user data shows no checkpoint mark |
| Gf13.Multiply | src/dhara/ecc/gf13.c:21-36 | the shift-and-add loop computes the product |
| Gf13.MulComm | src/dhara/ecc/gf13.c:21-36 | the product is commutative |
| Gf13.MulAssoc | src/dhara/ecc/gf13.c:21-36 | and associative |
| Gf13.MulAddRight | src/dhara/ecc/gf13.c:21-36 | and distributes over addition |
| Gf13.MulOne | src/dhara/ecc/gf13.c:21-36 | 1 is its unit |
| Gf13.MulXIsMul | src/dhara/ecc/gf13.h:42-50 | `gf13_mulx` multiplies by x modulo 0x201b |
| Gf13.SquareAdd | src/dhara/ecc/gf13.c:43-46 | squaring is additive |
| Field.AlphaOrder | src/dhara/ecc/gf13.h:22-23 | x to the power 8191 is 1 |
| Field.Prime | src/dhara/ecc/gf13.h:22-23 | 8191 is prime |
| Field.Distinct | src/dhara/ecc/gf13.h:54-55 | the powers of x below 8191 are distinct |
| Field.Logarithm | src/dhara/ecc/gf13.h:54-55 | every element but zero is a power of x |
| Field.Divide | src/dhara/ecc/gf13.c:38-50 | twelve squarings and products give the quotient |
| Field.MulInverse | src/dhara/ecc/gf13.c:38-50 | what it divides by is the inverse, for every divisor but zero |
| Field.DivMul | src/dhara/ecc/gf13.c:38-50 | the quotient times the divisor is the dividend, for every divisor but zero |
| Field.NoZeroDivisors | src/dhara/ecc/gf13.c:21-36 | a product is zero exactly when a factor is |
| Tables.FillTables | src/dhara/tools/gftool.c:106-139 | the tables hold the powers of x and their exponents |
| Tables.TableMulExact | src/dhara/ecc/gf13.h:63-66 | the table product is the product if and only if neither factor is zero |
| Tables.TableDivIs | src/dhara/ecc/gf13.h:68-81 | the other table look-ups agree with the plain forms on nonzero operands |
| Tables.Product | src/dhara/ecc/gf13.h:63-66 | the product for factors that are not zero |
| Tables.Quotient | src/dhara/ecc/gf13.h:68-71 | the quotient for a dividend and a divisor that are not zero |
| Bch.ChunkRemainder | src/dhara/ecc/bch.c:51-70 | the loop computes the remainder of the inverted chunk by the generator |
| Bch.PackPoly | src/dhara/ecc/bch.c:72-80 | the remainder is stored inverted, low byte first |
| Bch.UnpackPoly | src/dhara/ecc/bch.c:82-94 | reads back what was stored, the bits beyond the degree masked |
| Bch.Generate | src/dhara/ecc/bch.c:96-100 | the checksum generated verifies |
| Bch.Verify | src/dhara/ecc/bch.c:102-107 | 0 exactly when the checksum belongs to the chunk |
| Bch.Syndrome | src/dhara/ecc/bch.c:155-187 | the received word as a polynomial, evaluated at `x` |
| Bch.EvaluateLocator | src/dhara/ecc/bch.c:133-149 | x times the locator, evaluated |
| Bch.Syndromes | src/dhara/ecc/bch.c:249-254 | the received word at the first powers of x |
| Bch.RepairBuffer | src/dhara/ecc/bch.c:262-274 | every bit at whose place the locator vanishes is flipped, and no other |
| Bch.Repair | src/dhara/ecc/bch.c:239-275 | exactly the bits at whose places the locator vanishes are flipped, the first half of a shortest recurrence of the syndromes, and padding bits never; if chunk and checksum had at most `syns / 2` wrong bits, they are restored and verify |
| Bch.ConsistentEval | src/dhara/ecc/bch.c:96-100 | a chunk with its generated checksum has zero syndromes |
| BchCode.RemainderEval | src/dhara/ecc/bch.c:51-70 | at a root of the generator a word is worth its remainder moved up by its length |
| BchCode.CodewordEval | src/dhara/ecc/bch.c:96-107 | a word followed by its remainder vanishes at every root of the generator |
| Generators.CodeRoots | src/dhara/ecc/bch.c:23-49 | each of the four generators has its degree and vanishes at the first `syns` powers of x |
| BerlekampMassey.PolyAdd | src/dhara/ecc/bch.c:115-131 | adds a multiple of one coefficient array, shifted, to another, cut off at 16 |
| BerlekampMassey.Discrepancy | src/dhara/ecc/bch.c:205-215 | the sum of C[i] * s[n - i] |
| BerlekampMassey.Round | src/dhara/ecc/bch.c:205-234 | one round keeps the recurrence: C predicts the first n + 1 syndromes |
| BerlekampMassey.FindRecurrence | src/dhara/ecc/bch.c:189-237 | C predicts all syndromes and no recurrence that does is shorter; eight coefficients are kept |
| BerlekampMassey.NotTooLong | src/dhara/ecc/bch.c:221-233 | two recurrences of together no more than n terms cannot disagree about term n |
| Polynomials.TwoPredictors | src/dhara/ecc/bch.c:205-234 | recurrences that agree so far agree on the next syndrome when there are enough of them |
| Polynomials.RootBound | src/dhara/ecc/bch.c:259-267 | a polynomial of degree at most l has at most l roots |
| PowerSums.Independent | src/dhara/ecc/bch.c:249-254 | power sums over distinct locations that vanish have weights that vanish |
| PowerSums.RootsPredict | src/dhara/ecc/bch.c:205-217 | a polynomial whose reverse vanishes at the error locations predicts their power sums |
| ErrorLocation.SyndromesAreSums | src/dhara/ecc/bch.c:249-254 | the syndromes are power sums of the error locations |
| ErrorLocation.ErrorsAreRoots | src/dhara/ecc/bch.c:256-267 | every error location is a root of the locator found |
| ErrorLocation.RootsAreErrors | src/dhara/ecc/bch.c:259-274 | the locator vanishes at a bit's place if and only if the bit is wrong |
| Hamming.ParityScan | src/dhara/ecc/hamming.c:57-126 | column, line and inverted-line parities make up the checksum documented: the inverted parities of the twelve pairs of sets |
| Hamming.FlipParity | src/dhara/ecc/hamming.c:100-105 | a flipped position flips the parity of exactly one set of each pair |
| Hamming.Linear | src/dhara/ecc/hamming.c:97-98 | the parity of a difference is the difference of the parities |
| Hamming.Generate | src/dhara/ecc/hamming.c:128-137 | stores the checksum of the chunk |
| Hamming.Syndrome | src/dhara/ecc/hamming.c:139-152 | the difference between the checksum of the chunk and the one stored |
| Hamming.CleanSyndrome | src/dhara/ecc/hamming.h:33-36 | the syndrome is zero if and only if the checksum belongs to the chunk |
| Hamming.OneBitTest | src/dhara/ecc/hamming.c:164-166 | the test with `syndrome - 1` holds exactly when at most one bit is set |
| Hamming.Locate | src/dhara/ecc/hamming.c:168-182 | the position that the twelve pairs spell, if and only if they spell one |
| Hamming.Repair | src/dhara/ecc/hamming.c:154-189 | leaves the chunk alone, flips the position spelled, or fails, as the syndrome says |
| Hamming.SingleError | src/dhara/ecc/hamming.h:23-26 | any single wrong bit, in chunk or checksum, leaves the chunk correct after repair |
| Hamming.DoubleError | src/dhara/ecc/hamming.h:23-26 | any two wrong bits are detected and the chunk is left untouched |
| Hamming.ErasedChunk | src/dhara/ecc/hamming.c:125 | an erased chunk of any length has an erased checksum |
| Crc32.FillTable | src/dhara/tools/gentab.c:22-35 | each entry is its index after eight division steps |
| Crc32.Crc32Nand | src/dhara/ecc/crc32.c:93-102 | the table loop computes the inverted register of the inverted message |
| Crc32.TableStep | src/dhara/ecc/crc32.c:99 | one look-up does the work of eight division steps |
| Crc32.RegisterIsRemainder | src/dhara/tools/gentab.c:30-31 | the register holds the remainder of the message times x^32, by polynomial long division |
| Crc32.CrcIsRemainder | src/dhara/ecc/crc32.h:28-35 | so the checksum is that remainder for the inverted message, inverted |
| Crc32.CrcConcat | src/dhara/ecc/crc32.h:25-32 | a checksum carried from one part to the next is that of the whole |
| Crc32.ErasedCrc | src/dhara/ecc/crc32.h:28-30 | erased data of any length has the checksum 0xffffffff |
| Crc32.BurstDetected | src/dhara/ecc/crc32.h:34-35 | two messages that differ only inside 32 consecutive bits, four consecutive bytes among them, have equal checksums if and only if they are equal |
| Crc32.PolyBytes | src/dhara/ecc/crc32.c:19-24 | the constant is 0xedb88320 |

## Left out

* `dhara_map_copy_page`, `dhara_map_copy_sector`, `dhara_map_find`: write and read with another source.
* The SPI driver, the file system glue, error strings and the byte layout of metadata; metadata are
  records of an id and 32 pointers, a checkpoint page is a record of its header, cookie and metadata.
* Page numbers: the classes work on coordinates; that the arithmetic on numbers agrees is proved in
  `PageNumbers` for every helper. `dhara_journal_size` and the root test of `dhara_journal_dequeue` use
  the numbers themselves.
* `dhara_nand_is_free` is precise: a page programmed with all 0xff does not count as free.
* The bytes of a page under a power cut: such a page is `Torn`, neither free nor a checkpoint.
* Power cuts on a chip whose blocks fail. A checkpoint page torn by a power cut that collection later
  reads may end the run with an ECC error, as in the program.
- Run.Execute: the clauses about moments of the run and about the chip between operations are for chips
  that do not fail (see `Failures.CutLosesPage`); the clauses about data, count and wear are for all runs
  up to the first operation that fails for good, and the one about wear counts from a blank chip.
- Run.Cut: asks for two good blocks among the first eight and, with one user page per group, that the search
  for the head lands; without either it is false.
- Run.CutAtRest: the same.
- Map.Restart: the same.
- Map.Map.Resume: promises the map on such chips only.
- Journal.Journal.Resume: promises the checkpoint's journal on such chips only; on other chips that read
  back, TOO_BAD when no block of the first eight is marked.
- Map.Map.TryRecover: the outcome `Endless` stands for a call that does not return.
- Journal.Journal.Dequeue: says what it does, but not that the journal stays sound, for a page that a
  recovery under way still needs.
- Journal.Journal.Clear: the same for a clear during recovery.
- Journal.Journal.DumpMeta: asks that the root is in the head's group, so that the dumped metadata is
  found; `Failures.DumpServesRoot` is about the other heads, which a resume leaves.
- Journal.Journal.RecoverFrom: the same, for chips that fail.
- JournalState.DumpKeeps: the same.
- Journal.Journal.Copy: on a chip that fails, says nothing of the data copied from a page outside the queue.
- Crc32.BurstDetected: the detection of any three wrong bits in 4096, which crc32.h quotes from the
  literature, is a matter of enumeration and is not proved.
* The polynomial search and the printing of the tools, and the literal tables, which are built as `gf_init`
  and `fill_table` build them.
