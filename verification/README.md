# libusbK user-mode bookkeeping: a verified model

libusbK's user-mode library keeps its state in linked lists, reference counted pools and a few caches.
This project models that bookkeeping in Dafny and proves what it is meant to guarantee.

- **Queued streams** (`QueuedStream`, `Stream*`): a stream thread, user APCs and calls to `StmK_Read` and
  `StmK_Write` pass a fixed set of transfer items between `Queued`, the pending list, `Finished`, `FinishedTemp`
  and per-call submit lists. `QueuedStream` is a transition system with one action per atomic section of the source;
  an action that cannot happen does nothing, so every sequence of actions is a run, and whatever the source cannot
  decide (a wait, a submit, a completion and its payload) is a parameter. `StreamHandle.Handle` is the same
  code as methods with loops that refine these actions. `StreamOutcomes` and `StreamThread` say what each section comes
  to, `StreamScenes` gives runs with literal bytes, and `StreamWitnesses` and `StreamTwoReaders` give runs in which a
  property fails.
- **Linked lists** (`LinkedList`, `MergeSort`): the `DL_` macros on real nodes, including `DL_SORT`, against sequences;
  `OverlappedLists` and `SyncLists` tie the pool's lists and the device lists to them.
- **Descriptor stack** (`DescriptorTree`, `DescriptorMeaning`, `DescriptorParser`, `DescriptorBytes`, `PipeCache`): the
  cursor parser that builds the tree of interfaces, alternate settings and pipes (sections 9.6.3, 9.6.5 and 9.6.6 of
  USB 2.0 and 9.6.7 of USB 3.2), and the pipe cache that must agree with the tree.
- **Device list synchronisation** (`DeviceSync`, `PathMatch`): the keyed merge of `LstK_Sync` and the pattern match
  it searches with.
- **Handle pools** (`HandlePool`, `HandleGraph`) and the **overlapped pool** (`OverlappedPool`).
- **GUID text** (`GuidText`).

Classes carry the state that the source updates in place; their methods are proved equal to functions, and the
theorems are about those functions. Runs are folded from their last action, so an induction over runs has the state
before the last action at hand.

## What the proofs found

- `DL_DELETE` of a node that is not linked is not harmless. `lusbk_queued_stream.c:366` unlinks a slot that line 287
  has unlinked already. When k slots are taken one after the other and then returned in this order, for every slot list
  and every k, all of them but the one returned last are lost, so every slot is kept if and only if k is 1
  (`LinkedList.List.TakeAndReturn`); any number of rounds with one slot out at a time keeps them all
  (`LinkedList.List.OneAtATime`). While some slots are out and some were never taken, a slot that is still out is on
  the free chain exactly from the second return on (`LinkedList.List.OutOnChain`), and line 285 can hand it out a second
  time (`LinkedList.List.HandOutTwice`). The stream model keeps a count of free slots and treats line 366 as the no-op it
  is meant to be.
- A rollback keeps the staged items in order if and only if there is at most one (`StreamReadFifo.RollBackOrder`), so
  the FIFO order of a read stream holds for runs without a longer rollback; a run with one returns byte 2 before
  byte 1 (`StreamWitnesses.RollBackReorders`).
- With several readers a rollback can restore the window of an item that another reader has taken from meanwhile, and
  bytes are lost (`StreamTwoReaders.TwoReadersLoseByte`). For any number of readers and rollbacks of any length, a run
  keeps every byte, none lost or repeated, if and only if each rollback finds its partly read item still waiting with
  just what was taken missing from its window (`StreamReadRuns.BytesKeptExactly`). Readers that do not stage while
  another one holds a partly read item always meet this (`StreamReadRuns.UndisturbedKeeps`), a single reader in
  particular (`StreamReadRuns.OneReaderKeeps`).
- A write stream reorders data when the thread state changes between a call's entry and its hand-over
  (`StreamWitnesses.DirectHandOverOvertakes`; `StreamWriteFifo.DirectHandOverOrder` says exactly when), and repeats
  data when `BeforeComplete` declares a completion invalid and leaves a transfer length behind
  (`StreamWitnesses.InvalidCompletionRepeats`, exactly when: `StreamWriteFifo.InvalidCompletion`).
- A submit list handed to a thread that has left its drain loop is lost for good, and a stream restarted after that
  cannot be stopped again (`StreamDrain.StoppedIsClean`, `StreamDrain.LossPreventsStopping`; such a run is
  `StreamWitnesses.LateHandOverLoses`).
- The end test of the descriptor cursor is an unsigned comparison, so it also goes on behind a descriptor that is
  longer than what remains (`DescriptorParser.EndTest`). Over arbitrary bytes the cursor comes to its end within the
  block if and only if every descriptor it reaches has a nonzero length that fits (`DescriptorParser.CursorEnds`).
- Two flags of `OvlK_Wait` do not do what their comments say in some outcomes (`OverlappedPool.TimeoutRelease`,
  `OverlappedPool.CancelRelease`); `RELEASE_ALWAYS` does in all of them.
- `LstK_Sync` compares links with a prefix pattern, so distinct links are not enough for a keyed merge
  (`DeviceSync.PrefixConfused`). For lists with links out of a given set it is always one if and only if no link of the
  set matches another (`DeviceSync.SyncMergesExactly`). That the reported changes of a link alternate needs no such
  condition (`DeviceSync.ChangesAlternate`).
- A pool whose size did not divide 2^32 would miss free slots when the position counter wraps (`HandlePool.AllReached`).

## Model

| member | source | states |
|---|---|---|
| `StreamConservation.Conservation` | `libusbK/src/lusbk_queued_stream.c:270-432` | in every run of any number of callers, with submit failures, invalid completions, rollbacks, stops and restarts, each transfer item is in exactly one place; the lock has one owner and every call is in order |
| `StreamConservation.ThreadConserves` | `libusbK/src/lusbk_queued_stream.c:100-161` | every action of the stream thread keeps the number of places of every item |
| `StreamConservation.CallerConserves` | `libusbK/src/lusbk_queued_stream.c:820-1038` | every action of a read or write call keeps the number of places of every item |
| `StreamConservation.CallFrame` | `libusbK/src/lusbk_queued_stream.c:55-81` | a call changes no other call, takes `FinishedLock` only when it is free and gives up only its own, and holds it only over a `Finished` that is not empty |
| `StreamSemaphore.SemaphoreBalance` | `libusbK/src/lusbk_queued_stream.c:55-81` | with a timeout, in every run: semaphore count plus permits held by callers equals the length of `Finished` |
| `StreamSemaphore.PermitsAreGood` | `libusbK/src/lusbk_queued_stream.c:118-136` | a caller with a permit finds an item, and no release exceeds the semaphore maximum |
| `StreamSemaphore.ThreadRoom` | `libusbK/src/lusbk_queued_stream.c:110-131` | there is room in the semaphore for `FinishedTemp` and the item just completed |
| `StreamDrain.CountersAgree` | `libusbK/src/lusbk_queued_stream.c:313-315` | in every reachable state `PendingIO` is the length of the pending list and at most MaxPendingIO, and APCTransferQueueCount counts the submit lists handed over and not delivered, lost ones included |
| `StreamDrain.DrainTerminates` | `libusbK/src/lusbk_queued_stream.c:555-581` | however callers interleave, a drain without new APCs takes at most pending transfers + undelivered APCs + (waiting allowed ? 1 : 0) effective steps before it leaves the loop |
| `StreamDrain.DrainBlocked` | `libusbK/src/lusbk_queued_stream.c:556-563` | the drain has nothing it can do if and only if nothing is pending or queued but a submit list was lost earlier |
| `StreamDrain.StoppedIsClean` | `libusbK/src/lusbk_queued_stream.c:545-601` | a stopped stream has no pending transfer and no queued APC; the submit lists it lost are exactly those handed over after the drain loop had ended |
| `StreamDrain.LossPreventsStopping` | `libusbK/src/lusbk_queued_stream.c:555-563` | with a lost submit list a running thread never reaches STOPPED again, whatever happens |
| `StreamDrain.StoppedTemp` | `libusbK/src/lusbk_queued_stream.c:549-601` | a stopped stream has items on `FinishedTemp` if and only if the last valid completion since the forced synchronisation found `FinishedLock` held |
| `StreamReadFifo.ReadFifo` | `libusbK/src/lusbk_queued_stream.c:820-946` | one reader, no rollback of two or more items: bytes returned by successful reads are a prefix of the accepted payloads, and the rest is in the call in flight, `Finished` and then `FinishedTemp`, in this order |
| `StreamReadFifo.CompletionOrder` | `libusbK/src/lusbk_queued_stream.c:319-432` | in every run the submitted transfers are the completed ones followed by the pending list, so completion is in submission order |
| `StreamReadFifo.RollBackOrder` | `libusbK/src/lusbk_queued_stream.c:926-932` | a rollback puts the staged items back in their order if and only if there is at most one |
| `StreamReadFifo.StageFlow` | `libusbK/src/lusbk_queued_stream.c:855-893` | a staging round of a read keeps returned, staged and waiting bytes in the order of arrival, also when an item is read in part |
| `StreamReadFifo.RollBackPart` | `libusbK/src/lusbk_queued_stream.c:911-936` | undoing one whole and one partly read item restores the byte order |
| `StreamReadRuns.BytesKeptExactly` | `libusbK/src/lusbk_queued_stream.c:820-946` | for any number of readers and every run: the bytes that came in are at every point those returned, those being copied and those that wait, each once, if and only if every rollback finds its partly read item waiting with exactly the taken bytes missing |
| `StreamReadBytes.RollBackExactly` | `libusbK/src/lusbk_queued_stream.c:911-936` | in any such state a rollback of any length keeps the bytes if and only if the partly read item still waits and the restored window holds the bytes taken and those in the window now |
| `StreamReadBytes.StageKept` | `libusbK/src/lusbk_queued_stream.c:855-893` | a staging round of any reader moves bytes from the windows to the call and loses none |
| `StreamReadRuns.UndisturbedKeeps` | `libusbK/src/lusbk_queued_stream.c:820-946` | runs in which no reader stages while another holds a partly read item it can still roll back keep every byte |
| `StreamReadRuns.OneReaderKeeps` | `libusbK/src/lusbk_queued_stream.c:820-946` | one reader keeps every byte of every run, through rollbacks of any length |
| `StreamWriteFifo.WriteFifo` | `libusbK/src/lusbk_queued_stream.c:948-1038` | one writer, steady runs: accepted submissions carry a prefix of the bytes of successful writes and the rest waits in line, through submit errors and rollbacks; a call's items are full chunks and at most one shorter last one |
| `StreamWriteFifo.DirectHandOverOrder` | `libusbK/src/lusbk_queued_stream.c:43-51` | appending staged items directly keeps the line in order if and only if no submit list is still on its way |
| `StreamWriteFifo.InvalidCompletion` | `libusbK/src/lusbk_queued_stream.c:404-410` | an invalid completion keeps the byte order if and only if it leaves the transfer length zero |
| `StreamWriteFifo.SubmitFlow` | `libusbK/src/lusbk_queued_stream.c:284-316` | submitting the head of the line, or failing to, keeps the line in order |
| `StreamOutcomes.Decision` | `libusbK/src/lusbk_queued_stream.c:83-98` | a call whose items are staged rolls back if and only if bytes are still wanted and the stream forbids partial transfers or the caller asked for no count; otherwise its bytes are committed, by the APC if it has items and the stream is started and at once if not |
| `StreamOutcomes.DecidedLength` | `libusbK/src/lusbk_queued_stream.c:83-98` | in every run: a call decided in its favour has all it asked for, or less only where partial transfers are allowed and the caller gets the count; a write has the first of its bytes |
| `StreamOutcomes.WriteAccount` | `libusbK/src/lusbk_queued_stream.c:948-1038` | in every run and at every point of a write: the bytes stored and those still to store are, in order, the bytes of the caller |
| `StreamOutcomes.ReadAccount` | `libusbK/src/lusbk_queued_stream.c:820-946` | in every run that keeps its bytes: what a read has copied and what it still wants add up to the length asked for |
| `StreamOutcomes.HandOver` | `libusbK/src/lusbk_queued_stream.c:33-41` | an accepted APC ends the call, commits its bytes and is the newest of the thread, or lost if the thread has ended; a refused one leads to a rollback and commits nothing |
| `StreamOutcomes.DirectlyQueued` | `libusbK/src/lusbk_queued_stream.c:43-51` | the rounds of the direct hand-over end with all items of the call at the end of `Queued` in order, and change nothing else |
| `StreamOutcomes.LetIn` | `libusbK/src/lusbk_queued_stream.c:849` | a call is let in exactly when the stream is started or stopped |
| `StreamOutcomes.Admitted` | `libusbK/src/lusbk_queued_stream.c:57-70` | with a timeout a call goes on exactly with a permit, which it takes; without one exactly when `Finished` is not empty, and otherwise it gives up |
| `StreamOutcomes.Locked` | `libusbK/src/lusbk_queued_stream.c:71-80` | in every run: the lock is taken when free; with a timeout the call then finds an item, without one it ends when another call took the last |
| `StreamOutcomes.DryRound` | `libusbK/src/lusbk_queued_stream.c:857-861` | a further round without a permit only ends the loop |
| `StreamOutcomes.ReadRounds` | `libusbK/src/lusbk_queued_stream.c:864-895` | a round moves as many bytes as are wanted and there are from the front of the head window to the caller; a used up item is staged, another keeps the rest and is saved; the loop ends exactly when nothing is wanted, no item is left, or the item was not used up |
| `StreamOutcomes.WriteRounds` | `libusbK/src/lusbk_queued_stream.c:986-998` | a round stores the next bytes of the caller, a whole buffer if there are as many, in the head item and stages it; the loop ends exactly when nothing is wanted or no item is left |
| `StreamOutcomes.RolledBack` | `libusbK/src/lusbk_queued_stream.c:911-938` | in every run: the call is over, the staged items are in front of `Finished`, the last one first, with their permits, and the saved window is restored, not the data |
| `StreamThread.Synchronised` | `libusbK/src/lusbk_queued_stream.c:491-497` | in every run: when the thread comes round and the lock is free, `FinishedTemp` is empty afterwards, `Finished` has grown by exactly its items in order, and the semaphore by their number; if a call holds the lock nothing moves |
| `StreamThread.Forced` | `libusbK/src/lusbk_queued_stream.c:549` | in every run: the synchronisation at the end happens exactly when the lock is free, and moves everything with its permits |
| `StreamThread.Completed` | `libusbK/src/lusbk_queued_stream.c:365-432` | in every run: a completion takes the oldest pending item; an invalid one returns to `Queued`, a valid one goes behind `FinishedTemp` to `Finished` with a permit for each item moved, or to `FinishedTemp` without one when the lock is held |
| `StreamThread.Submitted` | `libusbK/src/lusbk_queued_stream.c:270-317` | the oldest queued item is submitted with its whole buffer; accepted, it is the newest pending one, refused, it is the oldest queued one again and the thread stops; without slot or item the thread waits |
| `StreamThread.Delivered` | `libusbK/src/lusbk_queued_stream.c:143-168` | the oldest APC runs: a submit list goes to the end of `Queued` whole and is no longer counted, and a waiting thread looks round |
| `StreamThread.Controlled` | `libusbK/src/lusbk_queued_stream.c:434-610` | starting, stopping, the loop condition and the end of the thread, which move no item |
| `StreamScenes.ShortRead` | `libusbK/src/lusbk_queued_stream.c:83-98` | a run in which a read asks for more than has come in, for all bytes and lengths: it succeeds with what there is, or with partial transfers forbidden returns nothing and puts the items back |
| `StreamScenes.TempReachesReader` | `libusbK/src/lusbk_queued_stream.c:491-497` | a run in which an item completes while a read holds the lock, waits on `FinishedTemp`, is moved with its permit when the thread comes round, and is returned by the next read |
| `StreamWitnesses.RollBackReorders` | `libusbK/src/lusbk_queued_stream.c:926-932` | a run of one reader, with a rollback of two items, in which the bytes 1, 2 come in and 2, 1 are returned |
| `StreamTwoReaders.TwoReadersLoseByte` | `libusbK/src/lusbk_queued_stream.c:820-946` | a run of two readers that violates the condition of `BytesKeptExactly`: a byte that came in was neither returned nor waits in any window, though no call is active |
| `StreamWitnesses.DirectHandOverOvertakes` | `libusbK/src/lusbk_queued_stream.c:33-53` | a run of one writer, with a stop between entry and hand-over, in which the second write overtakes the first |
| `StreamWitnesses.InvalidCompletionRepeats` | `libusbK/src/lusbk_queued_stream.c:404-410` | a run of one writer in which an invalid completion makes old bytes leave the stream again |
| `StreamWitnesses.LateHandOverLoses` | `libusbK/src/lusbk_queued_stream.c:545-601` | a run after which a submit list is lost, the thread runs again, and no continuation stops the stream |
| `StreamHandle.Handle.constructor` | `libusbK/src/lusbk_queued_stream.c:679-735` | the items of a read stream start on `Queued`, those of a write stream on `Finished`, with the semaphore to match |
| `StreamHandle.Handle.ReleaseSemaphore` | `libusbK/src/lusbk_queued_stream.c:132-133` | a release of none or beyond the maximum changes nothing, any other adds its permits |
| `StreamHandle.Handle.SynchronizeFinishedList` | `libusbK/src/lusbk_queued_stream.c:100-141` | succeeds if and only if the lock is free, and then appends `FinishedTemp` and the new item to `Finished` and releases as many permits |
| `StreamHandle.Handle.RunApc` | `libusbK/src/lusbk_queued_stream.c:143-168` | the loop of the transfer APC refines appending the submit list to `Queued` |
| `StreamHandle.Handle.AppendToQueued` | `libusbK/src/lusbk_queued_stream.c:154-158` | the loop over a submit list, one unlink and one append at a time, appends it whole and in order |
| `StreamHandle.Handle.ProcessQueued` | `libusbK/src/lusbk_queued_stream.c:270-317` | refines the submit action, with slot and item put back after a failure |
| `StreamHandle.Handle.SubmitQueued` | `libusbK/src/lusbk_queued_stream.c:284-316` | taking item and slot off their lists, and putting both back after a refused submit, is one submit action |
| `StreamHandle.Handle.CompletePending` | `libusbK/src/lusbk_queued_stream.c:365-432` | refines the completion action for every verdict and payload; slots are counted, and line 366 is the intended no-op |
| `StreamHandle.Handle.CopyOut` | `libusbK/src/lusbk_queued_stream.c:864-888` | what a read takes from an item, and the window and backup it leaves when the item is longer |
| `StreamHandle.Handle.CopyIn` | `libusbK/src/lusbk_queued_stream.c:986-995` | what a write stores in an item, at most its buffer size |
| `StreamHandle.Handle.StageItem` | `libusbK/src/lusbk_queued_stream.c:855-893` | one round of the read or write loop, with its breaks, refines the staging action |
| `StreamHandle.Handle.QueueDirectly` | `libusbK/src/lusbk_queued_stream.c:43-51` | the loop appends the whole submit list to `Queued` in order and the call is over |
| `StreamHandle.Handle.RollBack` | `libusbK/src/lusbk_queued_stream.c:911-938` | the loop of single prepends puts the staged items on `Finished` in reverse, restores the window and returns their permits |
| `StreamHandle.Handle.SleepEx` | `libusbK/src/lusbk_queued_stream.c:556-565` | an alertable sleep delivers every queued APC, and is a run of delivery actions |
| `StreamHandle.Handle.ProcessPending` | `libusbK/src/lusbk_queued_stream.c:565-580` | every outcome of waiting (an event, a timeout, a user APC) and completing while draining uses up drain work and is a run of thread actions |
| `StreamHandle.Handle.DrainRound` | `libusbK/src/lusbk_queued_stream.c:556-580` | one round of the drain loop uses up work, for every outcome of its waits, user APCs included |
| `StreamHandle.Handle.Drain` | `libusbK/src/lusbk_queued_stream.c:555-581` | the drain loop ends for every outcome of its waits, user APCs included, with nothing pending and no submit list undelivered, and is a run of thread actions |
| `LinkedList.List.Prepend` | `libusbK/src/lusbk_linked_list.h:414-424` | puts a node in front of the sequence; links and head/tail stay consistent and nodes outside are untouched |
| `LinkedList.List.Append` | `libusbK/src/lusbk_linked_list.h:434-446` | puts a node at the end of the sequence; links and head/tail stay consistent and nodes outside are untouched |
| `LinkedList.List.Delete` | `libusbK/src/lusbk_linked_list.h:461-477` | takes a linked node at any position out of the sequence; links and head/tail stay consistent, and the node keeps its own links |
| `LinkedList.List.Unlink` | `libusbK/src/lusbk_linked_list.h:461-477` | which fields the macro writes, for a node that need not be linked |
| `LinkedList.List.Attach` | `libusbK/src/lusbk_linked_list.h:434-446` | which fields the append macro writes, for a list that need not be well formed |
| `LinkedList.List.TakeSlots` | `libusbK/src/lusbk_queued_stream.c:287` | taking slots off one by one leaves the rest, and in every slot taken the links it had |
| `LinkedList.List.ReturnSlot` | `libusbK/src/lusbk_queued_stream.c:365-385` | unlinking a slot again and appending it while others are out: the head and its `prev`, and the `next` of the slot that was the tail, which leads to the first slot returned and from the second return on to one that is still out |
| `LinkedList.List.OutOnChain` | `libusbK/src/lusbk_queued_stream.c:365-385` | following `next` from the head comes to a slot that is still out if and only if at least two have been returned, while others are out and some were never taken |
| `LinkedList.List.HandOutTwice` | `libusbK/src/lusbk_queued_stream.c:285-385` | for every list with 3 <= k < length: after k takes, two returns and a take of every slot never taken, the next slot handed out is one that is still out |
| `LinkedList.List.OneAtATime` | `libusbK/src/lusbk_queued_stream.c:285-385` | any number of rounds with one slot out at a time keeps the list well formed with all its slots |
| `LinkedList.List.TakeAndReturn` | `libusbK/src/lusbk_queued_stream.c:287-385` | for every slot list, after k slots were taken and then returned in order the list is well formed and holds the slots never taken and the one returned last; every slot is kept if and only if k is 1 |
| `LinkedList.List.Search` | `libusbK/src/lusbk_linked_list.h:395-400` | finds the first node that matches, or none if none does |
| `LinkedList.MoveNode` | `libusbK/src/lusbk_linked_list.h:434-477` | deleting from one list and appending to another moves exactly that node |
| `LinkedList.MoveWhere` | `libusbK/src/lusbk_linked_list.h:500-501` | `DL_FOREACH_SAFE` with a body that moves the current node visits every node once: those that satisfy the condition go to the other list in order, the others stay in order |
| `LinkedList.DeleteWhere` | `libusbK/src/lusbk_linked_list.h:500-501` | `DL_FOREACH_SAFE` with a body that deletes the current node visits every node once and keeps exactly the nodes that do not satisfy the condition, in order |
| `LinkedList.List.CountRun` | `libusbK/src/lusbk_linked_list.h:197-203` | counts off at most `insize` nodes and stands at the node behind them |
| `LinkedList.List.Link` | `libusbK/src/lusbk_linked_list.h:215-221` | links a node behind the output and changes the `next` field of the old tail only |
| `LinkedList.List.TakeLeft` | `libusbK/src/lusbk_linked_list.h:208-211` | the head of the left run goes to the output; what is still to be merged is linked as before |
| `LinkedList.List.TakeRight` | `libusbK/src/lusbk_linked_list.h:206-214` | the head of the right run goes to the output; what is still to be merged is linked as before |
| `LinkedList.List.MergeRuns` | `libusbK/src/lusbk_linked_list.h:204-222` | relinking two neighbouring runs yields their merge behind the output so far, and leaves the rest of the list readable |
| `LinkedList.List.MergeRound` | `libusbK/src/lusbk_linked_list.h:195-223` | one round of a pass merges two runs, moves on behind them, and leaves the outcome of the pass as it was |
| `LinkedList.List.Close` | `libusbK/src/lusbk_linked_list.h:225-226` | tying both ends makes the output a well-formed list |
| `LinkedList.List.MergePass` | `libusbK/src/lusbk_linked_list.h:189-226` | one pass over the nodes is one pass over the sequence, and counts at most one merge if and only if the list fits two runs |
| `LinkedList.List.SortBy` | `libusbK/src/lusbk_linked_list.h:177-233` | `DL_SORT` terminates for every list and comparator and leaves a well-formed list, tail and ends included, whose nodes are the merge sort of the old ones |
| `OverlappedLists.AcquireNode` | `libusbK/src/lusbk_overlapped.c:91-112` | moving the head node of ReleasedList to the end of AcquiredList, or putting it back when it has no handle and none can be had, is the acquisition of the pool model |
| `OverlappedLists.ReleaseNode` | `libusbK/src/lusbk_overlapped.c:133-134` | moving any node of AcquiredList to the front of ReleasedList is the release of the pool model |
| `SyncLists.MoveNews` | `libusbK/src/lusbk_device_list.c:313-368` | the enumeration of the slave nodes, with a search of the growing master list and a move of what is not found, leaves for any links the slave list of a full-mask sync and the master nodes in the order of its result |
| `MergeSort.StableSort` | `libusbK/src/lusbk_linked_list.h:177-233` | for a total preorder the result is sorted, a permutation, and keeps tied elements in their order |
| `MergeSort.MergeSorted` | `libusbK/src/lusbk_linked_list.h:205-222` | the merge of sorted runs is sorted |
| `MergeSort.MergeStable` | `libusbK/src/lusbk_linked_list.h:206-215` | the merge keeps ties in order, left run first |
| `MergeSort.PassRuns` | `libusbK/src/lusbk_linked_list.h:189-226` | a pass doubles the length of the sorted runs |
| `MergeSort.PassesSorted` | `libusbK/src/lusbk_linked_list.h:188-232` | passes with doubled runs, until one needed at most one merge, end with a sorted list |
| `DescriptorBytes.FieldPlaces` | `libusbK/src/lusbk_stack_collection.c:57-133` | in literal bytes, whatever follows them: 9 4 n a, 7 5 e and 6 0x30 make interface n with setting a and endpoint e, which has that companion |
| `DescriptorBytes.TwoEndpoints` | `libusbK/src/lusbk_stack_collection.c:72-87` | in literal bytes: endpoint descriptors with different addresses make two endpoints, with the same address one, whatever their other fields |
| `DescriptorBytes.TwoInterfaces` | `libusbK/src/lusbk_stack_collection.c:101-133` | in literal bytes: two settings of one interface and a second interface, with their indices |
| `DescriptorBytes.ParseBlock` | `libusbK/src/lusbk_stack_collection.c:138-156` | the parser run over a literal configuration block of 31 bytes yields the literal tree, for all n, a and e |
| `DescriptorTree.RoundTrip` | `libusbK/src/lusbk_stack_collection.c:57-156` | building the tree of the descriptors a printer flattened gives the tree back, for every tree that agrees with its descriptors |
| `DescriptorTree.FeedAppend` | `libusbK/src/lusbk_stack_collection.c:138-156` | reading a sequence of descriptors in two parts is reading it whole |
| `DescriptorTree.ReadPipes` | `libusbK/src/lusbk_stack_collection.c:57-99` | the endpoints and companions printed for an alternate setting are read back into it |
| `DescriptorMeaning.Recovered` | `libusbK/src/lusbk_stack_collection.c:57-156` | for any descriptors: interfaces, alternate settings and endpoints in the order of their first descriptors, endpoints under the setting they follow, the last companion on the endpoint it follows, `Index` the position, and printing and parsing again changes nothing |
| `DescriptorMeaning.Meaning` | `libusbK/src/lusbk_stack_collection.c:57-156` | the tree and the reader's place are given by functions of the descriptors read |
| `DescriptorMeaning.PipesEndpoint` | `libusbK/src/lusbk_stack_collection.c:72-87` | an endpoint with a known address is found and keeps its first descriptor, a new one is appended |
| `DescriptorMeaning.PipesCompanion` | `libusbK/src/lusbk_stack_collection.c:88-95` | a companion goes to the endpoint it follows and to no other |
| `DescriptorMeaning.AltsInterface` | `libusbK/src/lusbk_stack_collection.c:106-133` | an interface descriptor opens its alternate setting or finds it again |
| `DescriptorParser.EndTest` | `libusbK/src/lusbk_stack_collection.c:47-49` | the cursor goes on if and only if a header remains behind the descriptor or the descriptor is longer than what remains |
| `DescriptorParser.CursorEnds` | `libusbK/src/lusbk_stack_collection.c:43-55` | for arbitrary bytes: the cursor reaches the end in finitely many steps and never leaves the block if and only if every descriptor it reaches has a nonzero length that fits in what remains; a zero length never ends |
| `DescriptorParser.Parser.Next` | `libusbK/src/lusbk_stack_collection.c:43-55` | over a well-formed block the cursor steps from one descriptor to the next and reports the end exactly when none is left |
| `DescriptorParser.Parser.AddEndpoint` | `libusbK/src/lusbk_stack_collection.c:74-86` | finds or appends the endpoint at the cursor as one step of the fold, from the bytes of the block |
| `DescriptorParser.Parser.AddCompanion` | `libusbK/src/lusbk_stack_collection.c:88-95` | attaches the companion at the cursor as one step of the fold |
| `DescriptorParser.Parser.AddPipes` | `libusbK/src/lusbk_stack_collection.c:57-99` | reads on to the next interface descriptor or the end, and leaves the cursor before it; the tree is the fold over the descriptors passed |
| `DescriptorParser.Parser.OpenInterface` | `libusbK/src/lusbk_stack_collection.c:101-133` | finds or adds interface and alternate setting as one step of the fold |
| `DescriptorParser.Parser.AddInterface` | `libusbK/src/lusbk_stack_collection.c:101-136` | an interface descriptor and everything up to the next one are a stretch of the fold |
| `DescriptorParser.Parser.ConfigRound` | `libusbK/src/lusbk_stack_collection.c:148-152` | each round passes at least one descriptor, despite the cursor that was put back |
| `DescriptorParser.Parse` | `libusbK/src/lusbk_stack_collection.c:138-156` | the backtracking cursor parser terminates on every well-formed block with the tree of its descriptors |
| `DescriptorParser.ParsePrinted` | `libusbK/src/lusbk_stack_collection.c:138-156` | a printed tree comes back from its bytes |
| `PipeCache.SlotInjective` | `libusbK/src/lusbk_handles.h:150` | endpoint addresses with zero reserved bits have different cache slots |
| `PipeCache.SlotBits` | `libusbK/src/lusbk_handles.h:150` | the shifts and masks of the macro are the arithmetic of the model |
| `PipeCache.Device.RefreshAlt` | `libusbK/src/lusbk_stack_collection.c:698-711` | the loop over the endpoints of an alternate setting refines their refresh |
| `PipeCache.Device.RefreshInterface` | `libusbK/src/lusbk_stack_collection.c:696-713` | the loop over the alternate settings of an interface refines their refresh |
| `PipeCache.Device.RefreshPipeCache` | `libusbK/src/lusbk_stack_collection.c:685-717` | the nested loops refine the refresh of the whole cache |
| `PipeCache.Device.ChangeSetting` | `libusbK/src/lusbk_handles.h:148` | a change of alternate setting touches one shared interface and refreshes the cache |
| `PipeCache.AltSlot` | `libusbK/src/lusbk_stack_collection.c:698-711` | the refresh of any setting with any handles: the slots of its endpoints get the handle of the interface if the setting is current; otherwise an empty slot gets that handle or, if there is none, the master handle, and a slot in use stays |
| `PipeCache.Changed` | `libusbK/src/lusbk_handles.h:148` | a change gives one shared interface the new setting, keeps its handle, and leaves all others alone |
| `PipeCache.RefreshSettles` | `libusbK/src/lusbk_stack_collection.c:696-710` | a refresh gives every endpoint the handle of its own interface if and only if interfaces in the same slot have the same handle |
| `PipeCache.ExclusiveAgrees` | `libusbK/src/lusbk_stack_collection.c:685-717` | interfaces without common endpoint addresses have no cache slot in common |
| `PipeCache.CacheAgrees` | `libusbK/src/lusbk_stack_collection.c:685-717` | after the first refresh and any sequence of setting changes, each endpoint's slot holds the non-null handle of its own interface, if interfaces share no endpoint |
| `DeviceSync.Lists.Search` | `libusbK/src/lusbk_device_list.c:323` | finds the first element whose link, as a pattern, matches the link sought |
| `DeviceSync.Lists.SyncPrep` | `libusbK/src/lusbk_device_list.c:248-259` | clears the flags of every master element |
| `DeviceSync.Lists.SyncSlave` | `libusbK/src/lusbk_device_list.c:313-368` | one callback of the slave enumeration, with the move between the lists |
| `DeviceSync.Lists.SyncMaster` | `libusbK/src/lusbk_device_list.c:261-310` | one callback of the second master enumeration |
| `DeviceSync.Lists.SyncSlaves` | `libusbK/src/lusbk_device_list.c:1298` | the enumeration of a list that its callback shortens visits every element once |
| `DeviceSync.Lists.SyncMasters` | `libusbK/src/lusbk_device_list.c:1299` | the second enumeration treats every master element, the moved ones included |
| `DeviceSync.Lists.LstKSync` | `libusbK/src/lusbk_device_list.c:1268-1313` | the three enumerations, one of a list that shrinks while it runs, compute the synchronised pair of lists; an empty mask is the full one |
| `DeviceSync.SyncMerges` | `libusbK/src/lusbk_device_list.c:248-368` | for every mask and links that no other link matches: old elements updated in place with exactly the flags their change and the mask give, new ones moved in order, known ones left in the slave list |
| `DeviceSync.SyncEntry` | `libusbK/src/lusbk_device_list.c:248-368` | under the same condition, for every mask and every element of the result: an old one has its link, and path and Connected from the slave or is disconnected, with each flag exactly when the mask shows it and the change is there; a new one has link, path and Connected of a slave element and is ADDED or UNCHANGED |
| `DeviceSync.SlavePassIs` | `libusbK/src/lusbk_device_list.c:313-368` | after any part of the slave enumeration the old elements stand in place, updated where the slave had them, and the new ones follow in order |
| `DeviceSync.SyncIsMapMerge` | `libusbK/src/lusbk_device_list.c:1268-1313` | a full-mask sync is a map merge, every field of each entry written out: keys are the union and stay distinct; a new device has the path and Connected of the slave and is ADDED or UNCHANGED, a known one takes both and is UNCHANGED or CONNECT_CHANGE with ADDED or REMOVED, a missing one is disconnected and REMOVED or UNCHANGED |
| `DeviceSync.SyncMergesExactly` | `libusbK/src/lusbk_device_list.c:248-368` | for any set of links: a full-mask sync of any two lists with distinct links of the set is the merge by link, if and only if no link of the set matches another and each matches itself |
| `DeviceSync.PairMerges` | `libusbK/src/lusbk_device_list.c:261-368` | the pairs that decide it: for one device in each list the sync is the merge by link if and only if the pattern match of the two links agrees with their equality |
| `DeviceSync.SyncReports` | `libusbK/src/lusbk_device_list.c:261-368` | for any two lists, duplicate and mutually matching links included: after a full-mask sync every old position keeps its link, every new one has link, path and Connected of a slave element, and each reports ADDED or REMOVED exactly when its Connected changed; elements that moved in count as not connected before |
| `DeviceSync.SyncMoves` | `libusbK/src/lusbk_device_list.c:350-365` | for any two lists: the elements added to the master are slave elements in their order, each with its link, path and Connected, ADDED exactly when connected and UNCHANGED otherwise |
| `DeviceSync.PrefixConfused` | `libusbK/src/lusbk_device_list.c:28` | distinct links of which one begins with the other are taken for the same device |
| `DeviceSync.ChangesAlternate` | `libusbK/src/lusbk_device_list.c:261-368` | over any sequence of full-mask syncs of any master with any slave lists, duplicate and mutually matching links included, the changes reported for a link alternate between ADDED and REMOVED, and Connected follows them |
| `PathMatch.PathMatchSpec` | `libusbK/src/lusbk_handles.h:760-821` | the two-index loop terminates and decides the recursive meaning of the pattern; null pointers match each other only |
| `PathMatch.SkipTo` | `libusbK/src/lusbk_handles.h:779` | the inner loop stops at the first occurrence or at the end |
| `PathMatch.PatternMeaning` | `libusbK/src/lusbk_handles.h:772-815` | star-free patterns match the files they begin, without case; a lone star accepts the rest; `*?c` goes on behind the first `c` |
| `PathMatch.UpperMeaning` | `libusbK/src/lusbk_handles.h:807-810` | two characters compare equal exactly when they are equal or the same letter in either case |
| `PathMatch.Extension` | `libusbK/src/lusbk_handles.h:772-819` | a match survives every extension of the file |
| `HandleGraph.AlwaysSound` | `libusbK/src/lusbk_handles.c:68-121` | in every run each count equals the references that exist, and a slot is in use and not disposing exactly while it is positive |
| `HandleGraph.RefCounts` | `libusbK/src/lusbk_stack_collection.c:159-314` | DevK counts the live UsbK handles pointing to it, UsbK its owner, calls and dependents, a device info its owner, its list and calls |
| `HandleGraph.CleanupOnce` | `libusbK/src/lusbk_handles.c:98-121` | cleanup starts exactly when the last reference goes, and every acquisition of a free slot has been released once |
| `HandleGraph.HeldAlive` | `libusbK/src/lusbk_stack_collection.c:277-314` | inside a call a handle is alive, and so is the handle it depends on, which can be kept once more |
| `HandleGraph.NoLeak` | `libusbK/src/lusbk_bknd_libusbk.c:78-85` | once the user has freed everything and no call or cleanup is under way, no slot is in use |
| `HandleGraph.CloneShares` | `libusbK/src/lusbk_stack_collection.c:277-314` | in every run: cloning inside a call that holds the handle always succeeds; the clone points to the same device and keeps it once, and no other slot changes |
| `HandleGraph.DependKeeps` | `libusbK/src/lusbk_queued_stream.c:657-689` | in every run: a new pool, stream or isochronous handle keeps its UsbK once if that is in use and not disposing, and otherwise its slot is given back and nothing else changes |
| `HandleGraph.ReferencesMove` | `libusbK/src/lusbk_handles.c:68-121` | in every run: a call adds a reference when it begins and drops it when it ends, attaching hands the caller's reference over to the list, detaching and freeing drop that of the list and of the user, and no other slot is touched |
| `HandleGraph.NewHandles` | `libusbK/src/lusbk_stack_collection.c:168-204` | in every run: a new UsbK keeps its new DevK once, and both have exactly one reference; a new device info has its user's |
| `HandleGraph.CleanupMoves` | `libusbK/src/lusbk_handles.c:98-121` | in every run: a cleanup lets go of its target once, and a slot is given back only without target and references |
| `HandleGraph.JoinSound` | `libusbK/src/lusbk_stack_collection.c:172-190` | a new handle points to its target and keeps it once if the target is in use and not disposing, and otherwise gives its slot back and leaves the target alone; every count stays right and no other slot changes |
| `HandleGraph.FinishIsRun` | `libusbK/src/lusbk_handles.c:104-114` | the cleanup cascade that Dec runs at once is a run of the separate cleanup and release steps |
| `HandleGraph.Table.Inc` | `libusbK/src/lusbk_handles.c:76-84` | succeeds exactly for a live handle, and otherwise undoes its increment; the thread that is cleaning the handle up gets TRUE and changes no count |
| `HandleGraph.Table.Dec` | `libusbK/src/lusbk_handles.c:98-121` | drops a reference and, with the last one, the references of the handle in turn; terminates along the kinds of handle; the thread that is cleaning the handle up gets TRUE and changes nothing |
| `HandlePool.Pool.Acquire` | `libusbK/src/lusbk_handles.c:42-65` | probes no slot twice, takes the first free slot the counter comes to, and fails exactly when all slots are in use, for every counter value and across its wrap |
| `HandlePool.Pool.Next` | `libusbK/src/lusbk_handles.c:46` | the counter steps through all 32-bit values and wraps, and the position is its unsigned 32-bit remainder |
| `HandlePool.WideAgrees` | `libusbK/src/lusbk_handles.c:46` | for a size that divides 2^32 the remainder of the counter widened to 64 bits is the same position |
| `HandlePool.Probes` | `libusbK/src/lusbk_handles.c:47-58` | consecutive counter values probe consecutive slots, also across the signed wrap |
| `HandlePool.AllReached` | `libusbK/src/lusbk_handles.h:24-33` | every slot is probed from every counter value if and only if the size divides 2^32, which every pool size does |
| `OverlappedPool.AlwaysSound` | `libusbK/src/lusbk_overlapped.c:74-139` | in every run each element is on exactly one list, IsAcquired holds exactly on AcquiredList, which is in the order of acquisition |
| `OverlappedPool.OldestIsFirst` | `libusbK/src/lusbk_overlapped.c:213-231` | OvlK_WaitOldest picks the acquired handle whose acquisition is the longest ago |
| `OverlappedPool.WaitOutcomes` | `libusbK/src/lusbk_overlapped.c:233-337` | for all flags and plausible answers, in terms of the outcomes: a success releases exactly with bit 0, a failure exactly with bit 1, a timeout as bits 2 and 3 say, an APC never; and the error code of each, ERROR_CANCELLED after a cancellation and ERROR_OPERATION_ABORTED otherwise |
| `OverlappedPool.OldestReleased` | `libusbK/src/lusbk_overlapped.c:213-231` | with RELEASE_ALWAYS the handle acquired the longest ago, and no other, goes to the head of ReleasedList |
| `OverlappedPool.ReleasesAlways` | `libusbK/src/lusbk_overlapped.c:233-337` | a wait releases for every answer of the system if and only if release on success, on failure and bit 3 are set and the wait is not alertable |
| `OverlappedPool.WaitAndRelease` | `libusbK/src/lusbk_overlapped.c:347-353` | whatever the waits, the cancel request and the result query answer, the handle goes to the head of ReleasedList, once |
| `OverlappedPool.TimeoutRelease` | `libusbK/src/lusbk_overlapped.c:289-327` | RELEASE_ON_TIMEOUT alone releases after a timeout if and only if the cancel fails or the result is still incomplete |
| `OverlappedPool.CancelRelease` | `libusbK/src/lusbk_overlapped.c:289-317` | CANCEL_ON_TIMEOUT alone releases if and only if a cancel request fails |
| `OverlappedPool.OvlPool.Acquire` | `libusbK/src/lusbk_overlapped.c:74-119` | the head of ReleasedList goes to the end of AcquiredList, or stays where it was when no handle can be had |
| `OverlappedPool.OvlPool.Release` | `libusbK/src/lusbk_overlapped.c:121-139` | succeeds exactly for an acquired handle and puts it in front of ReleasedList |
| `OverlappedPool.OvlPool.Wait` | `libusbK/src/lusbk_overlapped.c:233-337` | the retry loop waits at most twice, releases at most once and returns the error code of the verdict |
| `OverlappedPool.OvlPool.WaitOldest` | `libusbK/src/lusbk_overlapped.c:213-231` | waits on the head of AcquiredList, or fails when it is empty |
| `GuidText.RoundTrip` | `libusbK/src/lusbk_handles.h:893-933` | scanning the text of a GUID gives the GUID back, and the text has 38 characters |
| `GuidText.Layout` | `libusbK/src/lusbk_handles.h:925-930` | the text is, in braces, eight digits, four, four, and two for each byte, with dashes behind the first three fields and the second byte |
| `GuidText.Digits` | `libusbK/src/lusbk_handles.h:902-930` | digits are printed in upper case and read in either case |
| `GuidText.BraceOptional` | `libusbK/src/lusbk_handles.h:900` | the opening brace may be missing |
| `GuidText.ScanStep` | `libusbK/src/lusbk_handles.h:900-906` | a field of full width is scanned whole and the scan goes on behind its dash |

## Left out

- Win32 and driver calls, heaps, threads, events, the registry: their outcomes are parameters. Allocation failure and failing initialisers are not modelled; neither is the spin of `StmK_Start` for STARTED (lines 786-787) nor of `StmK_Stop` for STOPPED.
- Data races: each action of the stream and each `PoolHandle_Inc`/`PoolHandle_Dec` is one step. The increment of APCTransferQueueCount belongs to the step that queues the APC. What other threads do between the increment, test and undo of one `PoolHandle_Inc` is not modelled.
- `StreamReadFifo.ReadFifo`: one reader, and no rollback of two or more items; `RollBackOrder` says when a longer one is harmless (never). With several readers the order in which bytes are returned is not stated; that none is lost or repeated is `BytesKeptExactly`.
- `StreamWriteFifo.WriteFifo`: one writer, no invalid completions and no change of thread state between a call's check and its hand-over; `DirectHandOverOrder` and `InvalidCompletion` say what happens otherwise.
- `StreamHandle.Handle.CompletePending`: counts free slots and takes line 366 as the no-op it is meant to be; `TakeAndReturn` and `HandOutTwice` say what the code does to the slot list instead.
- `LinkedList.List.TakeAndReturn`: all takes before the first return; of the schedules that take again in between, `OneAtATime` and `HandOutTwice` cover those named there.
- `StreamDrain.DrainTerminates`: counts effective steps, given that each wait returns.
- `StmK_Write` stores through `TransferredLength` on its error path (line 1035) also when the caller passed none; the model gives the outcome of the call only.
- The stream callbacks other than their effect on the transfer (`Started`, `Stopped`, `Complete`), and the user buffer: a call's bytes are a sequence.
- The `int` run length of `DL_SORT`, which would overflow beyond 2^30 elements; comparators are functions of the nodes.
- `DescriptorParser.Parse`: over blocks whose lengths sum to `wTotalLength`, each at least two bytes and with the fields that are read. On other blocks `CursorEnds` says when the cursor comes to an end; the tree read from them is not modelled. Descriptor pointers are the bytes they point to.
- When items that are on `FinishedTemp` at the stop (`StreamDrain.StoppedTemp`) reach `Finished` again is not stated; they are conserved.
- The `SharedInterface` fields other than handle and current setting; `UsbStack_Rebuild`; the movable interface, alternate setting and pipe selections.
- `DeviceSync.SyncMerges`: master and slave are different lists, and attaching and detaching succeed.
- `HandleGraph.RefCounts`: successful initialisations, and users that free each handle once. `LstK_FreeInfo` checks and drops in one step. Device list handles, hot plug handles and the OvlK handles of a pool are left out.
- `HandlePool.Pool.Acquire`: with a single caller at a time, and the 32-bit build's `%`; on a 64-bit build the operand has 64 bits, which gives the same positions (`WideAgrees`).
- `GuidText.RoundTrip`: what `sscanf` accepts beyond hexadecimal digits (white space, signs, `0x`) is not modelled.
- `OvlK_Free`, `OvlK_Init` and the cleanup of a pool; events and `TransferredLength`.
- `lusbk_hot_plug.c`, `lusbk_usb_isoch.c`, `lusbk_usb_iso.c`, backends, dispatch tables, bindings, loader and firmware: finite tables, timers and plumbing.
