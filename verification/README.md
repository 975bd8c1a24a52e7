# Concurrent sorting and message queues, verified

This project models three programs of the repository in Dafny and proves what they are for.

**Lab6, `sort_index`.** Any number of threads sort a file of records, window by window: they claim blocks
through the shared table `busy`, sort them, merge sorted runs in pairs round by round between barriers,
and thread 0 finally merges all windows into the result.

| file | contents |
|---|---|
| `Records.dfy` | records, their order, stable sorting and its uniqueness |
| `Merging.dfy` | the two-way and the k-way merge as functions, and that both are stable sorts |
| `MergeCode.dfy` | `merge` and `merge_sorted` as loops over arrays |
| `SortProtocol.dfy` | `func` as a state machine: one step of one thread, or a barrier opening |
| `SortSizes.dfy` | the positions of blocks and runs, in bytes and in records |
| `SortInvariant.dfy`, `SortSafety.dfy` | the invariant of all reachable states, and that every step keeps it |
| `SortProgress.dfy` | no deadlock; a measure that every step takes down |
| `SortTheorems.dfy` | the main results over all schedules |
| `SortExact.dfy`, `SortParameters.dfy` | the argument checks of `main`, and which accepted arguments sort every file |
| `Passes.dfy`, `SortPasses.dfy` | sequential passes over runs; a merge round against one pass, and exactly when the two are equal |
| `SortDetermined.dfy`, `SortRegular.dfy` | what finished runs make of each window, and sizes for which it is the same under every schedule |
| `Hills.dfy`, `SortDifference.dfy`, `SortDepends.dfy` | files on which one pass more changes the result, and exactly when there are any |
| `SortReset.dfy` | what happens when a claim falls into an unfinished reset of `busy` |
| `SortIndex.dfy` | the shared variables and the statements of `func` on arrays, refining the state machine |

The central difficulty is that every thread resets `busy` when it enters a merge round, so a pair may be
claimed and merged again. The invariant says that a pair which some reset has come to is free, or is still
to be merged by its claimer, or is already sorted; and merging a sorted pair changes no record.

**Lab5, the resizable queue.** Producers and consumers share a ring whose slots main adds ('+') and removes
('-') while they run. A semaphore cannot be taken down by '-', so the program counts passes: tokens that
stand for nothing any more. `RingQueue.dfy` is the queue a ring stands for, `Ring.dfy` the doubly linked
ring with all its cases, `Workers.dfy` the threads, `Turns.dfy` what can be read off from what happens to them,
`ResizableProtocol.dfy` the program as a state machine, `ResizableSafety.dfy` its invariant, `ResizableRuns.dfy` what
keys, started workers, generated messages and loop tests make of a run, `ResizableTheorems.dfy` the other results over
all runs, and `SharedRing.dfy` the global variables and statements on the linked ring.

**Lab4, the fixed queue.** The same with processes, three semaphores and a ring linked by shared memory
ids: `SegmentQueue.dfy`, `SegmentRing.dfy`, `FixedProtocol.dfy`, `FixedRuns.dfy`, `FixedTheorems.dfy`,
`FixedExact.dfy` and `SharedMemory.dfy`.

Properties that turned out not to hold for all inputs are stated with the exact condition under which they do:

* Lab4 takes the id 0 for "no segment". After an `append` for each segment, the ring agrees with a queue of
  that many slots if and only if the system has handed out no segment with the id 0, and so do the tokens and
  the messages in every run of the program (`SegmentQueue.AgreesWithQueue`, `FixedExact.NeverRefusesExactly`,
  `FixedExact.AlwaysAgreesExactly`).
* `append` on a full ring leaves `tail` on a busy slot, in Lab4 and, without its flag, in Lab5
  (`SegmentRing.SharedBuffer.Append`, `Ring.Append`); both programs call it like that only while they build
  the ring.
* Lab6's reset of `busy` is not under the mutex. It is modelled store by store. Call a claim calm if no reset has
  cleared the first entry of the claimed pair and not yet the second. A claim keeps the invariant if and only
  if it is calm (`SortReset.ClaimKeepsExactly`). All results hold for every run whose claims are calm, in particular
  if `memset` is one step to the other threads (`SortReset.AtomicResetsAreCalm`); and if claims need not be calm then
  some run accesses memory behind the table, for every number of threads but one (`SortReset.NeverFaultsExactly`).
* Lab6's argument checks accept windows that blocks or records do not divide. Every file is sorted if and only
  if the blocks cover the window and are whole records or whole parts of one (`SortExact.SortsExactly`,
  `SortParameters.SortsExactlyWithEvenBlocks`); otherwise every finished run still writes a permutation.
* A merge round is one sequential pass over the window, whatever the schedule, if and only if there is only one
  thread or a second pass would change nothing (`SortPasses.RoundIsPassExactly`).
* The result does not depend on the schedule, for every file, if and only if there is one thread or sizes are regular
  (`SortDepends.IndependentExactly`): a block of several records begins where the run of its number does, and as soon
  as runs hold records, a run is exactly two runs of the round before (`SortRegular.Regular`). Blocks that fit are
  regular. With 512 blocks and 8 threads a window of 12288 bytes, which the checks accept, is not
  (`SortParameters.AcceptedButUndetermined`).
* In Lab5 no message is lost in a run if and only if '-' never takes a slot of a full ring
  (`ResizableTheorems.NoDrops`, `ResizableTheorems.WholeRun`).

## Model

| member | source | states |
|---|---|---|
| Records.StableSortUnique | Lab6/src/sort_index.c:202-223 | Two ordered lists with the same records per time mark in the same order are equal: a list has only one stable sort |
| Merging.MergeRunsStable | Lab6/src/sort_index.c:202-243 | Merging two sorted runs gives the stable sort of the one followed by the other |
| Merging.MergeAgainChangesNothing | Lab6/src/sort_index.c:202-243 | Merging the halves of a sorted range is the identity on records, not only on keys |
| Merging.SomeRunSupplies | Lab6/src/sort_index.c:258-274 | While a run is unfinished there is a run whose head is least, and strictly less than the heads of earlier runs |
| Merging.KWayStable | Lab6/src/sort_index.c:245-283 | The final merge of sorted runs is their stable sort, by run number and then position |
| Merging.KWayPermutes | Lab6/src/sort_index.c:245-283 | The final merge writes every record once, even of runs that are not sorted |
| MergeCode.MergeHeads | Lab6/src/sort_index.c:207-224 | The loop over both heads stops with one run used up and the merged prefix written; what is owed is the two rests |
| MergeCode.MergeApart | Lab6/src/sort_index.c:202-238 | The temporary array ends up holding the merge of the two runs |
| MergeCode.Merge | Lab6/src/sort_index.c:202-243 | The range of both runs is overwritten with their merge and every other record of the file stays |
| MergeCode.HeadPosition | Lab6/src/sort_index.c:260-263 | A cursor that is not -1 reads inside its run and the file, and reads the head of what the run still has |
| MergeCode.NextRun | Lab6/src/sort_index.c:258-274 | The inner loop finds the run that supplies the next record, or -1 exactly when all are finished |
| MergeCode.NextExists | Lab6/src/sort_index.c:256-275 | As long as records are missing some run is unfinished, so the index -1 is never used |
| MergeCode.MergeSorted | Lab6/src/sort_index.c:245-283 | The records written are the k-way merge of all runs, each record once |
| SortInvariant.FirstFreeEven | Lab6/src/sort_index.c:343-349 | When pairs are free or claimed as a whole, the claimed index is even |
| SortInvariant.TableAfterSort | Lab6/src/sort_index.c:312-331 | Sorting an owned block keeps: every block is free, owned by the one thread at work on it, or sorted |
| SortInvariant.TableAfterClaim | Lab6/src/sort_index.c:317-328 | So does a claim, and finding none free means that none is free |
| SortInvariant.TableAfterReset | Lab6/src/sort_index.c:339 | One more store of a reset, into a pair that may be claimed or being merged, forgets no pair |
| SortInvariant.TableAfterClaimPair | Lab6/src/sort_index.c:342-354 | A search finds both halves of a pair inside the table, and a calm claim keeps the table of the round |
| SortInvariant.TableAfterMerge | Lab6/src/sort_index.c:356-360 | A merge leaves its pair sorted and keeps the table, whoever has claimed the pair since |
| SortInvariant.MergePairEffect | Lab6/src/sort_index.c:356-360 | The step rewrites one pair of the mapped window with its stable sort and nothing else |
| SortInvariant.ExitDecision | Lab6/src/sort_index.c:374 | The exit test holds exactly when all windows are sorted |
| SortSafety.OpenStart | Lab6/src/sort_index.c:300-312 | At the first barrier every thread owns the block of its number and no other block is owned |
| SortSafety.OpenSorted | Lab6/src/sort_index.c:333-337 | At the second barrier all blocks are sorted runs of the first round |
| SortSafety.RoundComplete | Lab6/src/sort_index.c:337-363 | When all threads wait at the end of a round, every pair has been merged |
| SortSafety.LastRun | Lab6/src/sort_index.c:337-366 | If the blocks fit, the window is one sorted run after the last round |
| SortSafety.StepSafe | Lab6/src/sort_index.c:285-382 | No step faults, and every calm step of any thread and every barrier keeps the invariant |
| SortProgress.NobodyStranded | Lab6/src/sort_index.c:310-380 | No thread waits at a barrier that another thread will not reach |
| SortProgress.SomeStep | Lab6/src/sort_index.c:285-382 | Unless all threads are done, some calm step is possible |
| SortProgress.StepDescends | Lab6/src/sort_index.c:289-381 | Every step lowers the measure of windows, phases, resets, free entries and steps left |
| SortProgress.SomeRunFinishes | Lab6/src/sort_index.c:285-382 | From every reachable state all threads can finish |
| SortProgress.EveryScheduleEnds | Lab6/src/sort_index.c:285-382 | However the scheduler chooses, all threads finish |
| SortTheorems.RunSafe | Lab6/src/sort_index.c:285-382 | Every state that a calm schedule reaches is safe and no step of it faults |
| SortTheorems.PhasesApart | Lab6/src/sort_index.c:291-333 | All threads are in the same phase, nobody touches the window or `busy` while they are replaced, blocks sorted at the same time differ, and exit decisions agree |
| SortTheorems.ClaimsFit | Lab6/src/sort_index.c:342-360 | A pair about to be merged starts at an even block, its partner is in the round, and both runs are sorted |
| SortTheorems.EveryFinishedRunSorts | Lab6/src/sort_index.c:285-382 | For every number of threads and every calm schedule, nothing faults and a finished run has written a permutation of the file, in order if the blocks fit, and stably if `qsort` is stable |
| SortTheorems.EveryMaximalRunSorts | Lab6/src/sort_index.c:285-382 | Every maximal calm run finishes and has written the file, sorted if the blocks fit |
| SortPasses.RoundIsPassExactly | Lab6/src/sort_index.c:337-366 | Under every calm schedule a round from barrier to barrier is one sequential bottom-up pass over the window, if and only if there is one thread or a second pass would change nothing |
| SortPasses.RoundIsSequentialPass | Lab6/src/sort_index.c:337-366 | If the blocks fit, that is so in every round, however often pairs are merged again |
| SortPasses.TwoPassRun | Lab6/src/sort_index.c:337-366 | With two threads some calm schedule makes two passes in one round |
| SortDetermined.SortsMarks | Lab6/src/sort_index.c:312-331 | Once every block has been sorted, wherever blocks begin, the time marks of the window are determined, and its records if `qsort` is stable |
| SortDetermined.WindowsDetermined | Lab6/src/sort_index.c:285-382 | If there is one thread or passing again matters in no round, every finished calm run makes of each window its sorted blocks after one pass a round, and writes their final merge |
| SortRegular.RegularSettled | Lab6/src/sort_index.c:337-366 | With regular sizes all runs of every round are sorted when it begins, so passing again matters in no round |
| SortRegular.FittingIsRegular | Lab6/src/sort_index.c:119-122 | Blocks that fit are regular |
| SortDifference.PassesDisagree | Lab6/src/sort_index.c:337-366 | If one and two passes in some round leave different time marks, and all other rounds and blocks leave the window alone, two calm schedules write different results |
| SortDepends.ResultIndependentOfSchedule | Lab6/src/sort_index.c:285-382 | With one thread or regular sizes any two calm schedules that finish on the same file write the same time marks, and the same records if `qsort` is stable |
| SortDepends.IndependentExactly | Lab6/src/sort_index.c:119-382 | All finished calm runs on a file agree, for every file, if and only if there is one thread or sizes are regular |
| SortSizes.NextRoundSizes | Lab6/src/sort_index.c:335-366 | Halving the number of runs and doubling their size keeps their product and, where the blocks fit, whole records |
| SortSizes.PairInside | Lab6/src/sort_index.c:356-360 | For all accepted arguments a pair of runs lies inside the window, and reaches its end only if runs are whole records |
| SortExact.MergeLeavesLast | Lab6/src/sort_index.c:202-243 | In a window of equal time marks but for a least one at the end, no merge changes anything, unless the last record is a run of its own |
| SortExact.HardFileStaysUnsorted | Lab6/src/sort_index.c:285-382 | If the blocks do not fit, some finished run leaves a file of whole windows unsorted |
| SortExact.SortsExactly | Lab6/src/sort_index.c:119-382 | Every finished run sorts every file if and only if the blocks fit |
| SortReset.ClaimKeepsExactly | Lab6/src/sort_index.c:339-354 | A claim keeps the invariant if and only if no reset is halfway through the claimed pair |
| SortReset.OddClaims | Lab6/src/sort_index.c:339-360 | In the first round, if thread 0 is to claim and the entries before an odd index are taken and all from it on are free, its claims go on in odd pairs until one writes behind the table |
| SortReset.NeverFaultsExactly | Lab6/src/sort_index.c:285-382 | If claims need not be calm, no run faults if and only if there is one thread |
| SortReset.AtomicResetsAreCalm | Lab6/src/sort_index.c:339 | If no other thread moves while one is in the middle of its reset, every claim is calm |
| SortParameters.PowerTest | Lab6/src/sort_index.c:100 | The bit test is zero exactly for powers of two |
| SortParameters.CheckArguments | Lab6/src/sort_index.c:93-117 | The arguments are accepted exactly if they meet the conditions that the messages name, and each message is given exactly when its condition is the first to fail |
| SortParameters.Configured | Lab6/src/sort_index.c:119-146 | For every file of whole windows the computed globals describe that file: its records are the windows, one after the other, of the size asked for, with as many threads and blocks as asked for |
| SortParameters.FitsExactly | Lab6/src/sort_index.c:119-122 | The computed block size fits exactly if record size times blocks divides the window, or the blocks divide it into parts of a record |
| SortParameters.SortsExactlyWithEvenBlocks | Lab6/src/sort_index.c:93-148 | Accepted arguments sort every file of the given size if and only if the blocks are even in this sense |
| SortParameters.AcceptedButUnsorted | Lab6/src/sort_index.c:93-148 | With 512 blocks a window of 4096 bytes sorts every file, one of 12288 bytes does not |
| SortParameters.AcceptedButUndetermined | Lab6/src/sort_index.c:93-148 | With 512 blocks and 8 threads the result is independent of the schedule for a window of 4096 bytes, not for one of 12288 |
| SortParameters.FewBlocksAreEven | Lab6/src/sort_index.c:92-119 | With pages of 4096 bytes up to 256 blocks are always even |
| SortParameters.WholeWindows | Lab6/src/sort_index.c:126-134 | The file is whole windows, and its windows are its records, exactly if the window divides its size |
| SortIndex.Sorter.constructor | Lab6/src/sort_index.c:119-146 | The threads start with nothing mapped, sorted or written |
| SortIndex.Sorter.Enter | Lab6/src/sort_index.c:291-308 | Thread 0 maps the next window and fills `busy`; the step is the one of the protocol |
| SortIndex.Sorter.Qsort | Lab6/src/sort_index.c:312-331 | The sorted block is written at its place in the file and nowhere else |
| SortIndex.Sorter.FindFree | Lab6/src/sort_index.c:318-325 | The search returns the first free index, or the limit |
| SortIndex.Sorter.ClaimFreeBlock | Lab6/src/sort_index.c:317-328 | The claim on the array is the claim of the protocol |
| SortIndex.Sorter.ClaimFreePair | Lab6/src/sort_index.c:342-354 | The claim of both halves of a pair on the array |
| SortIndex.Sorter.MergeClaimed | Lab6/src/sort_index.c:356-360 | The merge of the claimed pair in the mapped window of the file |
| SortIndex.Sorter.WriteFile | Lab6/src/sort_index.c:376-379 | The result is the final merge of the whole file |
| SortIndex.Sorter.Execute | Lab6/src/sort_index.c:285-382 | Any calm schedule executed on the arrays reaches the state that the protocol says, and a finished one has the file written, sorted if the blocks fit |
| SortIndex.SortFile | Lab6/src/sort_index.c:119-148 | From the arguments and the file: under any calm schedule that lets all threads finish, what is written is a permutation of all records of the file, sorted if the blocks are even, stably if `qsort` is stable |
| Ring.RingBuffer.BeginMeetsTail | Lab5/src/ring.c:118-164 | `begin == tail` exactly on a full or an empty ring, and the flag of `begin` tells which |
| Ring.RingBuffer.AddMessage | Lab5/src/ring.c:118-138 | Refuses exactly on a full ring, else appends the message with all its bytes; the links and the arc stay valid |
| Ring.RingBuffer.ExtractMessage | Lab5/src/ring.c:140-164 | Returns nothing exactly on an empty ring, else the oldest message with all its bytes, which leaves the queue |
| Ring.NewRing | Lab5/src/ring.c:24-30 | The ring of one free slot |
| Ring.Extend | Lab5/src/ring.c:31-48 | A node is linked in behind the last; the ring stays valid exactly if the flag is set or it was not full |
| Ring.Append | Lab5/src/ring.c:21-49 | One free slot more on an absent, empty, partly filled or full ring, with all messages kept; without the flag only if the ring was not full |
| Ring.Unlinked | Lab5/src/ring.c:70-93 | Joining the neighbours of a node closes the cycle around the others |
| Ring.EraseFirst | Lab5/src/ring.c:69-77 | With `begin == tail` the first slot goes: the oldest message with it if the ring was full, none if it was empty |
| Ring.EraseOfTwo | Lab5/src/ring.c:80-86 | On a ring of two the free slot goes and the message stays |
| Ring.EraseBehind | Lab5/src/ring.c:87-94 | On a longer ring the free slot at `tail` goes and all messages stay |
| Ring.Erase | Lab5/src/ring.c:51-95 | Returns true exactly on a full ring and then drops only the oldest message; capacity falls by one, the last slot leaves no ring, and without a ring the program exits |
| Ring.AppendThenErase | Lab5/src/ring.c:21-95 | `append` with the flag and `erase` at once, on the linked ring: `erase` returns false, messages and capacity are as before, and a ring made from nothing is gone |
| ResizableSafety.TokenIsGood | Lab5/src/main.c:189-222 | Past the mutex without a debt, a producer finds a free slot and a consumer a message |
| ResizableSafety.MainKeeps | Lab5/src/main.c:83-106 | Every statement of '+' and '-' keeps tokens, slots, debts and messages in agreement |
| ResizableSafety.StepKeeps | Lab5/src/main.c:83-228 | Every step of main and of every worker keeps the whole invariant |
| ResizableSafety.EveryRunAgrees | Lab5/src/main.c:83-228 | So does every run |
| ResizableRuns.KeysDecide | Lab5/src/main.c:83-106 | In every run the capacity is `BUFFER_SIZE` plus the '+' and minus the '-' that were pressed, and the program is over exactly with a '-' that finds no ring |
| ResizableRuns.RolesStay | Lab5/src/main.c:60-71 | There are exactly the workers that were started, and each is what it was started as |
| ResizableRuns.AddedAreGenerated | Lab5/src/main.c:219-220 | In every run what has been added to the ring are messages that producers have generated, in their order |
| ResizableRuns.LoopTestsDecide | Lab5/src/main.c:186-228 | A worker comes back to its semaphore only from a loop test that lets it go on, also after a pass, and stops only at one that does not |
| ResizableRuns.OneTurnIfTold | Lab5/src/main.c:186-228 | A worker that is told to stop takes at most one token, and no worker stops without having taken one |
| ResizableTheorems.RefinesQueue | Lab5/src/main.c:83-222 | Every step leaves the queue alone, or puts the message its producer has generated, or takes the oldest for a consumer, or adds a free slot for '+', or takes one away for '-' with the oldest message if none is free |
| ResizableTheorems.KeyPress | Lab5/src/main.c:83-106 | A key can be pressed unless a worker is in the critical section, and then comes to a slot and a token, or a slot less and the right pass, or the exit |
| ResizableTheorems.WorkerTurn | Lab5/src/main.c:186-228 | A worker that finds a token and the mutex free uses up a pass with the token, or moves its message and passes the token on, and then goes on or stops as its loop test says |
| ResizableTheorems.ConsumedAsProduced | Lab5/src/main.c:186-228 | Consumed messages are in the order of production, and are all of them up to the pending ones exactly when none was dropped |
| ResizableTheorems.NoDrops | Lab5/src/main.c:94-106 | A run drops nothing if and only if '-' never takes a slot of a full ring in it |
| ResizableTheorems.WholeRun | Lab5/src/main.c:42-228 | From the start, with any workers and any '+' and '-': no refusal, exact token counts, a capacity of `BUFFER_SIZE` plus the '+' and minus the '-' pressed, first in first out, consumed messages a subsequence of those that producers have generated, and all of them up to the pending ones if and only if '-' never hits a full ring |
| ResizableTheorems.BlockedMeansNoSlots | Lab5/src/main.c:186-228 | With a live worker of each kind all block exactly when they wait and no token is left, and then all slots and debts are gone |
| ResizableTheorems.SomebodyCanMove | Lab5/src/main.c:186-228 | With a slot and a live worker of each kind somebody can move |
| SharedRing.InitialRing | Lab5/src/main.c:53-54 | The loop of `main` builds a ring of `BUFFER_SIZE` free slots |
| SharedRing.Globals.constructor | Lab5/src/main.c:28-54 | The program starts in the initial state of the protocol |
| SharedRing.Globals.AppendSlot | Lab5/src/main.c:86 | '+' on the linked ring is one more slot of the protocol |
| SharedRing.Globals.EraseSlot | Lab5/src/main.c:97 | '-' on the linked ring is one slot less, its message noted as dropped exactly if the ring was full |
| SharedRing.Globals.UseTheToken | Lab5/src/main.c:191-221 | A pass is used up if there is one, else the message given is put, or the oldest is taken |
| SharedRing.Globals.Execute | Lab5/src/main.c:42-228 | Any run on the linked ring reaches the state of the protocol, with no refusal, messages in order and all of them generated by producers, the workers that were started where their loop tests send them, and the slots that the keys make |
| SegmentQueue.WithoutZeroAgrees | Lab4/src/ring.c:49-95 | Without the id 0 every sequence of adds and extracts is answered as by a plain bounded queue |
| SegmentQueue.ProbeDisagrees | Lab4/src/ring.c:54-80 | With the id 0 some sequence is not |
| SegmentQueue.AgreesWithQueue | Lab4/src/ring.c:24-95 | After an `append` for each of the segments, the ring answers all sequences as a queue of that many slots if and only if none of them has the id 0 |
| SegmentRing.SharedBuffer.Append | Lab4/src/ring.c:24-47 | The new segment is linked in last and messages stay; a ring that looks empty is replaced; only a full ring is left with `tail` on a busy segment |
| SegmentRing.SharedBuffer.AddMessage | Lab4/src/ring.c:49-70 | Accepts exactly if there is a usable free slot, and appends the message |
| SegmentRing.SharedBuffer.ExtractMessage | Lab4/src/ring.c:72-95 | Returns the oldest message exactly if there is one and the ring is usable |
| SegmentRing.Build | Lab4/src/main.c:52-53 | One cycle through all segments in the order in which they were made, all free, exactly if the first has not the id 0 |
| FixedRuns.RolesStay | Lab4/src/main.c:64-76 | There are exactly the processes that were started, and each is what it was started as |
| FixedRuns.AddedAreGenerated | Lab4/src/main.c:193-194 | In every run, whatever ids the segments have, what has been added to the ring are messages that producers have generated, in their order |
| FixedRuns.LoopTestsDecide | Lab4/src/main.c:170-202 | A process comes back to its semaphore only from a loop test that lets it go on, and stops only at one that does not |
| FixedRuns.OneTurnIfTold | Lab4/src/main.c:170-202 | A process that is told to stop takes at most one token, and no process stops without having taken one |
| FixedTheorems.TokenIsGood | Lab4/src/main.c:173-193 | Past both waits a producer finds a free slot and a consumer a message |
| FixedTheorems.StepKeeps | Lab4/src/main.c:170-202 | Every step keeps tokens, slots, mutex and messages in agreement |
| FixedTheorems.RefinesBoundedQueue | Lab4/src/main.c:170-202 | Every step of any process is a step of a bounded first-in-first-out queue: a producer adds the message it has generated, a consumer takes the oldest |
| FixedTheorems.MutualExclusion | Lab4/src/main.c:174-196 | In every run of the program, whatever ids the segments have, at most one process is in the critical section |
| FixedTheorems.SomebodyCanMove | Lab4/src/main.c:170-202 | In every run, whatever ids the segments have, no deadlock with a live producer and a live consumer |
| FixedExact.NeverRefusesExactly | Lab4/src/main.c:44-202 | No run of the program has a message refused if and only if no segment has the id 0 |
| FixedExact.AlwaysAgreesExactly | Lab4/src/main.c:44-202 | In every run tokens agree with slots, produced minus consumed is the number of busy slots, and consumed messages are a prefix of produced ones, if and only if no segment has the id 0 |
| SharedMemory.Globals.constructor | Lab4/src/main.c:44-53 | The program starts in the initial state of the protocol |
| SharedMemory.Globals.UseToken | Lab4/src/main.c:176-194 | The ring operation inside the critical section: a producer hands its message to the ring, a consumer takes the oldest |
| SharedMemory.Globals.Execute | Lab4/src/main.c:170-202 | Any run on the shared ring reaches the state of the protocol, with messages that producers have generated and processes where their loop tests send them; from a state in agreement it stays so, and its counters count what it holds |

## Left out

- SortTheorems.EveryFinishedRunSorts: nothing is said of runs in which a claim is not calm; `SortReset.NeverFaultsExactly` shows why.
- SortTheorems.EveryMaximalRunSorts: likewise; the file is whole windows (`SortParameters.WholeWindows`) and not empty, time marks are ordered (no NaN), and integers do not overflow.
- SortDepends.IndependentExactly: compares calm runs only, on files of whole windows.
- SortParameters.SortsExactlyWithEvenBlocks: windows of at least two records; the checks also accept 0 and negative multiples of the page, with which `mmap` fails.
- SortProtocol.DoReset: a reset clears entries from the front, one after the other; in which order and in which units the machine code of `memset` stores is not part of this model, and no store falls inside a search for a free entry.
- SortProtocol.SortBlock: a call of `qsort` is one step that leaves any ordered permutation of its block; `SortTheorems.PhasesApart` shows that blocks sorted at the same time differ.
- SortIndex.Sorter.Qsort: copies the given result into the block; how the library sorts is not part of this model.
- Ring.Erase: memory is not given back; the removed node is no longer reachable from the ring.
- Ring.RingBuffer.constructor: `produced` and `consumed` start with any value, as in the program; the operations are proved to count on from there.
- FixedTheorems.SomebodyCanMove: a consumer that the ring refuses, which takes a segment with the id 0, passes null to `display_message` (Lab4/src/main.c:176-179), which reads it; in the model the program goes on.
- ResizableTheorems.SomebodyCanMove: after '-' on an absent ring the program exits, and nothing is said about what follows.
- Files, `mmap`, shared memory calls, terminals and `sleep`: the file is a sequence of records and a segment an entry of a map; a failing `mmap`, on which thread 0 returns and the others stay at the barrier, is not modelled.
- Signals, killed threads and the shutdown of all three programs: a request to stop is seen at the loop test only.
- What is printed, in particular the counters that are read after the mutex is released, when the ring may be gone.
- `clear_ring` in Lab5, which nothing calls, and `clear_shared_memory` in Lab4, which runs at shutdown.
- Generation, checksum and display of messages, and the lists of threads and processes.
- Labs 1, 2, 3, 7 and 8.
