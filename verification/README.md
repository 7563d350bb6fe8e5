# Binder, ashmem and their user-space libraries: a verified model

A Dafny model of the binder and ashmem drivers and of the small algorithmic cores of the
user-space libraries beside them, with proofs of what they promise.

The binder driver runs under one global lock, so one command, one delivered work item, one
thread exit and one process release are atomic steps.  Its five machines are modelled apart,
each as a state with an invariant, the steps on it and the runs of those steps:

* `BinderCalls`, `BinderCallsDriver`, `BinderCallsResults`, `BinderCallsChains`, `BinderCallsLists`,
  `BinderCallsErrors`: synchronous call chains, nested callbacks, what goes through the work lists,
  and failed replies that climb over dead callers;
* `BinderBuffers`, `BinderBufferAllocator`, `SearchTree`: the buffer allocator of a process,
  its lazily mapped pages and its budget for one-way calls;
* `BinderRefs`, `BinderRefsDriver`, `BinderRefsResults`, `BinderRefsHistory`: nodes, references and
  the acknowledged reference commands;
* `BinderDeath`, `BinderDeathDriver`, `BinderDeathResults`, `BinderDeathLosses`, `BinderDeathLists`:
  death notifications;
* `BinderAsync`, `BinderAsyncDriver`, `BinderAsyncResults`, `BinderAsyncLists`: one-way calls, one at
  a time for each node.

The other cores are `Ashmem`, `AshmemDriver`, `AshmemResults` and `AshmemLru` (page pinning, its LRU
accounting and the order of purges), `RefBase`, `RefBaseCounts`, `RefBaseResults` and `RefBaseFirst`
(reference counts under every interleaving of atomic accesses), `BestFit` and `MemoryDealer` (the
heap allocator on its doubly linked list), `LinearTransform`, `UnicodeBits`, `Unicode`,
`UnicodeValues` and `UnicodeConverters`, `Parcel`, `ParcelWrites` and `ParcelBuffer`, `BlobCache`,
`BlobCacheUnflatten` and `BlobCacheStore`, and `Layouts` (the bytes of both formats).
`Wrappers`, `Lists` and `Buffers` are shared helpers.

In each group the first module specifies the steps as functions and proves what every step keeps;
the second is a class whose methods change fields in place, with the loops of the code, and is
proved to take exactly those steps; the modules behind it prove what holds over all runs.  The
lemmas named `StepLists`, `StepRefs`, `StepQueues`, `StepNodes` and `StepThreads` say what a step does
to lists, counts and registrations without naming the functions of the first module.  The code's BUG_ONs and assertions are `assert` statements in the classes.  Fields named as history are read by no branch.

## Hypotheses

* A two-way call never selects its own sender as receiver; `SelfCallLoops` shows why, and
  `SelfCallIsReachable` that the driver gets there.
* Where a result says that a thread reads the list of its process (`WaitingCanBeSent`,
  `UnstalledMovesOn`), the thread has no transaction on its stack.
* Copies from and to user memory do not fault, and objects in one message do not overlap.
* The mapping of a process is a positive multiple of the page size, which is 4096; the buffer
  header is any number of words that leaves more than four bytes of a page.
* An object counted by `RefBase` has the strong lifetime and is new with a weak reference on it.
  Clients make references while they hold one, call incStrong only on an object that is there,
  release only what they hold, and fewer than 2^28 references are held or under way at once;
  `CountWrapsAtInitial` shows why.
* ashmem range allocations succeed and page intervals are not empty.
* Heap requests are at most 2^64 - 32 bytes; `WrappedRequestBreaksHeap` shows that this is exact.
* A buffer given to `BlobCache::unflatten` leaves at least the size of an entry header of the
  address space free, and a serialized cache is smaller than the address space.
* Parcel positions stay within the size, the sizes of single values stay in the int32 range, and
  allocations succeed.

## Where the code does less than its comments or a reader expect

* A one-way call handed to a thread's own list is dropped when that thread exits before reading
  it, and its buffer can no longer be freed by the process: the node then never takes another
  one-way call.  `StallsOnlyByExit` gives the exact condition, `StalledForGood` the consequence.
* A death notice in a thread's own list is dropped when the thread exits, and it is not sent
  again.  `LostOnlyByExit` and `OwnNoticeOnlyByAsk` give the exact conditions, `LostForGood` the
  consequence, `ThreadExitLosesNotice` a run.  The confirmation of a clear is lost in the same way:
  `ConfirmationLostOnlyByExit`, with the run `ThreadExitLosesConfirmation`.
* A reference command to a node's owner is dropped when the thread with the node's work item exits,
  and a transaction buffer may count on a node whose owner was never told: `OverdueOnlyBy` gives
  the exact conditions, `ThreadExitLosesCommand` a run.
* attemptIncStrong fixes the first strong count up "safely", but incStrong does so too: when a
  promotion does it between the two steps of the first incStrong, 2^28 is taken off twice, promotions
  fail from then on and the object is never deleted.  `CountsAreExactIff` and `DeletedIff` give the
  exact condition, `TwoThreadsLoseTheCount` a run.
* `utf16_to_utf8_length` skips the unit behind an unpaired high surrogate; `Measure8IsExact`
  gives the exact condition under which the length is right, `UnpairedIsNotMeasured` an input.
* A pin may return ASHMEM_WAS_PURGED although no page of its interval was purged:
  `UnpinSpreadsPurge`, with the run `PinReportsTooMuch`.  `PinReportsIff` gives the exact condition.
* The signed transform rejects two kinds of representable results: `EdgesAreRejected`.
  `TransformS64` states exactly when it succeeds.
* `ipcSetDataReference` lets an offset near 2^64 wrap around, and the table may then go back:
  `WrappedTableHidesObject`.  `SearchIsExactIff` gives the exact condition for all tables.
* A block or string that the parcel cannot grow for is not written, and the write still returns
  NO_ERROR: `LargeBlockIsDropped`.  `WrittenIff` gives the exact condition.
* `flatten` does not check that the build id fits: `SilentOverrunIff`, `OverrunExample`.
* `unflatten` clears the entries but keeps mTotalSize.  On an error it leaves the empty cache its
  comment promises only if nothing had been counted or stored: `FailureIsEmptyIff` gives the exact
  condition, `CutShortKeepsTotal` the inputs, `BreaksAfterErrorIff` what it leads to.  Into a used
  cache it does not replace the contents but counts on: `RestoresIff`, `ReloadBreaks`.
* Sizes in an entry of the buffer that add up to more than a size_t pass the tests for room, and the
  walk goes on somewhere in the buffer: `WrappedEntryKeepsTotal`, `HugeLimitsReadOutside`.

## Model

| member | source | states |
|---|---|---|
| `BinderCallsResults.CallOfLiveThreadEndsOnce` | driver/binder/binder.c:1187-1238 | after any further run a pending two-way call of a thread that does not exit is still pending or was closed exactly once, by one reply or one error; ReplyReachesCaller and ErrorReachesNearestLiveCaller say that each reaches the caller |
| `BinderCallsLists.ReplyReachesCaller` | driver/binder/binder.c:1685-1710 | a BC_REPLY that can be built, to a live caller: exactly the reply goes to the tail of the caller's list, the call leaves both stacks, the replier gets its completion, no error is sent and no other thread or list changes |
| `BinderCallsLists.EveryReplyIsAccountedFor` | driver/binder/binder.c:1685-1710 | in every run the replies made for a call are those in lists of threads, those read from there and those dropped by the exit of the thread; never more than one |
| `BinderCallsLists.StepAnswers` | driver/binder/binder.c:2468-2516 | one step: a reply made is in a list, was read from it, or was dropped with it |
| `BinderCallsLists.StepLists` | driver/binder/binder.c:1685-1707 | every step takes at most one entry off the head of one list and appends exactly what it is to post at the tails: two-way calls, replies and completions |
| `BinderCallsLists.ListsAreFifo` | driver/binder/binder.c:2229-2445 | over every run a list is served in order: what it held and what was put into it come out in that order; two-way calls waiting for a process are among these |
| `BinderCallsLists.OldestIsChosen` | driver/binder/binder.c:1422-1430 | a nested call goes to the thread that made the oldest call of the chain among the live threads of the target process, to the process exactly if there is none |
| `BinderCallsErrors.RefusalTellsSender` | driver/binder/binder.c:1378-1428 | a refused command tells its sender the code and does nothing else |
| `BinderCallsErrors.FailedReplyTells` | driver/binder/binder.c:1341-1377 | a reply that cannot be built gives its caller BR_FAILED_REPLY, one to a dead caller gives the nearest live one of the chain BR_DEAD_REPLY; the replier gets its completion; no other thread changes |
| `BinderCallsErrors.ExitTells` | driver/binder/binder.c:2553-2592 | the exit of a thread gives the nearest live caller of the call it handles, or of the one in its list, BR_DEAD_REPLY; no other thread changes |
| `BinderCallsErrors.QuietExit` | driver/binder/binder.c:2553-2592 | with no such call the exit tells nobody |
| `BinderCallsErrors.DrainTells` | driver/binder/binder.c:2468-2516 | closing a process gives the nearest live caller of each call in its list BR_DEAD_REPLY, once |
| `BinderCallsErrors.CodesAreCleared` | driver/binder/binder.c:2164-2180 | a read that delivers the pending codes clears them; one with room for one code when two are pending clears neither |
| `BinderCallsResults.EveryCallIsAccountedFor` | driver/binder/binder.c:1685-1692 | in every reachable state each call was sent at most once and sent = answered + failed + abandoned by its exited caller + still open |
| `BinderCallsResults.ErrorReachesNearestLiveCaller` | driver/binder/binder.c:1187-1238 | a failed reply removes exactly the calls from the chain's end up to the youngest one whose caller lives; that caller's stack drops that call, its error slot takes the code, an older error moves to the free second slot, and no other thread changes |
| `BinderCallsResults.ErrorOfDeadChainVanishes` | driver/binder/binder.c:1223-1236 | with no live caller the whole chain goes and no thread notices |
| `BinderCallsResults.StacksAlternate` | driver/binder/binder.c:1341-1428 | in every reachable state incoming and outgoing calls alternate down every thread's stack |
| `BinderCallsResults.NoCallIsStuck` | driver/binder/binder.c:1685-1705 | in every reachable state the chain of any call ends in a call that is in the list of a live thread or process or on top of a live thread's stack |
| `BinderCallsChains.ChainsAreLinear` | driver/binder/binder.c:1341-1428 | in every reachable state the parent of a call is the youngest of the older calls of its chain, and the call was made by the thread that handles the parent |
| `BinderCallsChains.StackLiesInOneChain` | driver/binder/binder.c:2560-2585 | in every reachable state the calls a thread makes or handles are of one chain and all on its stack, with nothing skipped |
| `BinderCallsChains.OnlyTheEndChangesStacks` | driver/binder/binder.c:1170-1238 | a step changes a thread's stack only at the end of its chain: it is the thread's own step with that end on top before or after, or the reply, the exit or the release of whoever has the end |
| `BinderCallsChains.DrainAnswersAll` | driver/binder/binder.c:2468-2491 | releasing a process's list ends every call in it, each with exactly one error for its caller if the caller lives |
| `BinderCallsResults.SelfCallLoops` | driver/binder/binder.c:1422-1426 | the one assumption on clients is needed: when the target search selects the sender, reading the call makes it its own predecessor on the stack |
| `BinderCallsResults.SelfCallIsReachable` | driver/binder/binder.c:1422-1426 | a run from the empty driver that gets to such a state: a thread that serves a callback calls its own process |
| `BinderCalls.SendFailedReply` | driver/binder/binder.c:1187-1238 | climbing over dead callers ends and keeps the whole protocol invariant (disjoint linear chains, stacks inside one chain, exact queues, free second error slot while waiting) |
| `BinderCalls.LeafIsTop` | driver/binder/binder.c:1170-1185 | the end of a chain is on top of its live caller's stack and the caller's second error slot is free: the BUG_ONs of the pop hold and 'has error code already' is unreachable |
| `BinderCalls.FindTarget` | driver/binder/binder.c:1422-1426 | the thread selected belongs to the target process and has a call in the sender's chain |
| `BinderCalls.ChosenWaitsInChain` | driver/binder/binder.c:1422-1430 | the selected thread waits for a reply in the same chain, so a nested call reaches a thread that will read it |
| `BinderCalls.PushKeeps` | driver/binder/binder.c:1685-1707 | a two-way call keeps the invariant |
| `BinderCalls.AcceptKeeps` | driver/binder/binder.c:2437-2441 | delivering a call keeps the invariant |
| `BinderCalls.PopIncomingKeeps` | driver/binder/binder.c:1341-1377 | taking the answered call off the replier's stack leaves a state where only that call lacks a receiver |
| `BinderCalls.WalkStep` | driver/binder/binder.c:2561-2582 | each step of the stack walk of a dying thread meets one more of its transactions, as caller or as receiver, and misses none |
| `BinderCalls.LeftBehindIsUnanswered` | driver/binder/binder.c:2558-2588 | a dying thread leaves at most one call unanswered: the one it handles or the one queued for it |
| `BinderCalls.Exit` | driver/binder/binder.c:2553-2592 | thread exit, with the failed reply it may send, keeps the invariant |
| `BinderCalls.Drain` | driver/binder/binder.c:2468-2516 | releasing a process's work list empties it and keeps the invariant |
| `BinderCalls.Step` | driver/binder/binder.c:1317-2592 | every atomic step of the call protocol keeps the invariant |
| `BinderCallsDriver.Driver.PopTransaction` | driver/binder/binder.c:1170-1185 | pops the call; both BUG_ONs are proved |
| `BinderCallsDriver.Driver.NotifyCaller` | driver/binder/binder.c:1194-1221 | the live-caller branch; the branch that drops an error is unreachable |
| `BinderCallsDriver.Driver.FailReply` | driver/binder/binder.c:1187-1238 | the climbing loop computes SendFailedReply |
| `BinderCallsDriver.Driver.SearchTarget` | driver/binder/binder.c:1422-1426 | the target search loop computes FindTarget |
| `BinderCallsDriver.Driver.Transaction` | driver/binder/binder.c:1378-1428 | a two-way transaction takes the specified step, error paths included |
| `BinderCallsDriver.Driver.Reply` | driver/binder/binder.c:1341-1377 | a reply takes the specified step, which ReplyReachesCaller and FailedReplyTells pin; the bad-target-stack check never fails |
| `BinderCallsDriver.Driver.ReadItem` | driver/binder/binder.c:2229-2445 | one delivered work item takes the specified step |
| `BinderCallsDriver.Driver.ReadErrors` | driver/binder/binder.c:2164-2180 | which error codes are delivered and which stay pending |
| `BinderCallsDriver.Driver.DetachStack` | driver/binder/binder.c:2560-2585 | the stack walk detaches exactly the thread's transactions, counts them, and never reaches BUG() |
| `BinderCallsDriver.Driver.FreeThread` | driver/binder/binder.c:2553-2592 | thread exit takes the specified step and returns the number of active transactions |
| `BinderCallsDriver.Driver.ReleaseProcess` | driver/binder/binder.c:2468-2516 | draining the list of a closing process takes the specified step |
| `BinderBuffers.SizesOkMeansNoWrap` | driver/binder/binder.c:668-675 | the size check of an allocation rejects exactly the sizes whose aligned sum wraps around 64 bits |
| `BinderBuffers.DemandThatFits` | driver/binder/binder.c:668-683 | an accepted demand that fits is word aligned and its async charge does not wrap |
| `BinderBuffers.AllocatedKeepsLayout` | driver/binder/binder.c:714-753 | after an allocation the list still tiles the mapping in address order with no two free neighbours and room for every allocated buffer |
| `BinderBuffers.FreedKeepsLayout` | driver/binder/binder.c:839-864 | freeing and merging keep the same |
| `BinderBuffers.AllocPages` | driver/binder/binder.c:714-741 | after an allocation the needed pages are the old ones plus exactly the pages just mapped, none of which was needed before |
| `BinderBuffers.FreePages` | driver/binder/binder.c:839-842 | the pages a free unmaps are exactly those no longer needed |
| `BinderBuffers.DeletePages` | driver/binder/binder.c:766-809 | removing a free header makes exactly its unshared pages unneeded |
| `BinderBuffers.DeleteRangeIsStale` | driver/binder/binder.c:766-809 | the case analysis on shared pages computes exactly those pages |
| `BinderBuffers.FreedEntries` | driver/binder/binder.c:843-864 | freeing replaces the index entries of the free neighbours by one for the merged buffer |
| `BinderBuffers.AllocatedEntries` | driver/binder/binder.c:714-753 | what is in the free and the allocated index after an allocation, entry by entry |
| `BinderBuffers.LiveRecords` | driver/binder/binder.c:742-753 | the buffers that are not free are the old ones and the one just allocated, with its sizes |
| `BinderBuffers.FreeUndoesAlloc` | driver/binder/binder.c:650-865 | freeing what was allocated gives the list back, up to stale sizes in the free header |
| `BinderBuffers.AllFreeLeavesOnePage` | driver/binder/binder.c:2906-2916 | with every buffer free one buffer is left and only the first page is needed |
| `SearchTree.Insert` | driver/binder/binder.c:466-522 | the descent adds one entry and keeps the order |
| `SearchTree.Erase` | driver/binder/binder.c:730-732 | removal takes away exactly one entry and keeps the order |
| `SearchTree.BestFit` | driver/binder/binder.c:685-708 | the descent finds the smallest key that is large enough, or there is none |
| `SearchTree.Find` | driver/binder/binder.c:524-546 | the lookup finds an entry exactly when it is in the tree |
| `BinderBufferAllocator.Allocator.MapPages` | driver/binder/binder.c:548-631 | maps a page range or rolls back completely; BUG_ON(*page) is proved |
| `BinderBufferAllocator.Allocator.UnmapPages` | driver/binder/binder.c:615-648 | unmaps exactly the range, every page of which was present |
| `BinderBufferAllocator.Allocator.constructor` | driver/binder/binder.c:2901-2916 | a new mapping is one free buffer with its header page present and half the mapping as async budget |
| `BinderBufferAllocator.Allocator.FindRoom` | driver/binder/binder.c:662-708 | the smallest free buffer that fits, or exactly the reasons for refusal |
| `BinderBufferAllocator.Allocator.AllocBuf` | driver/binder/binder.c:650-754 | all or nothing: it fails exactly if it is refused or a page of the best fit cannot be mapped, and then changes nothing; else best fit, split, pages, both indexes and async budget; page slots stay exactly the needed pages |
| `BinderBufferAllocator.Allocator.Lookup` | driver/binder/binder.c:524-546 | finds exactly the live buffer whose data starts at the user address |
| `BinderBufferAllocator.Allocator.DeleteFreeBuffer` | driver/binder/binder.c:766-809 | one header goes into its free predecessor and its unshared pages are unmapped; both BUG_ONs are proved |
| `BinderBufferAllocator.Allocator.FreeBuf` | driver/binder/binder.c:811-865 | frees and coalesces, gives the async charge back, keeps pages and indexes exact |
| `BinderBufferAllocator.Allocator.FreeAll` | driver/binder/binder.c:3115-3132 | after the release loop one free buffer, one page and the whole async budget are left |
| `BinderRefsResults.CountsAreExact` | driver/binder/binder.c:926-1168 | in every reachable state internal_strong_refs is the number of refs with strong > 0, the node's list holds exactly its refs, and each of its two local counts is what buffers hold plus the unacknowledged command plus one for the context manager, zero once its process is gone |
| `BinderRefsHistory.CountsAreBalances` | driver/binder/binder.c:1115-1168 | in every run a ref's strong count is the strong counts taken less those given back, its weak count likewise; a request that is refused counts nothing |
| `BinderRefsHistory.LastGiveRemoves` | driver/binder/binder.c:1139-1168 | giving a count back removes the ref if and only if it was the last of either kind taken in the run |
| `BinderRefsHistory.StepRefs` | driver/binder/binder.c:1115-1168 | a request counts on exactly the ref it names; a ref goes exactly with its last count or when it is deleted; no other step changes one |
| `BinderRefsHistory.NewRefs` | driver/binder/binder.c:1024-1088 | a ref that was not there before is that of the process and node that asked, and counts nothing |
| `BinderRefsHistory.TakeResult` | driver/binder/binder.c:926-959 | a count is refused exactly if it is the first of its kind, no list is given and the owner does not have the object yet |
| `BinderRefsHistory.HeldIsCounted` | driver/binder/binder.c:961-1002 | in every run what buffers hold on a node is what they took and have not given back |
| `BinderRefsHistory.ReadSendsDue` | driver/binder/binder.c:2265-2333 | a read of node work sends the command due, from who uses the node and what was sent before; with none due it drops the item, and the node if nobody uses it |
| `BinderRefsHistory.OnlyReadsSend` | driver/binder/binder.c:2265-2333 | no other step sends the owner anything |
| `BinderRefsHistory.PendingIsAwaited` | driver/binder/binder.c:1828-1883 | in every run the pending flags of a node say exactly which commands its owner was sent and has not acknowledged |
| `BinderRefsHistory.ReleaseWaits` | driver/binder/binder.c:2272-2300 | in every run RELEASE becomes due only when no ACQUIRE is unacknowledged, DECREFS only when neither is |
| `BinderRefsHistory.OwnerStays` | driver/binder/binder.c:3019-3061 | a node keeps its owner until the owner's process is released |
| `BinderRefsHistory.LeakOnlyBy` | driver/binder/binder.c:961-1002 | a node that nobody uses comes to be left over if and only if it is just being made, or a thread exit drops the work item that would have freed it |
| `BinderRefsResults.RefsAreUnique` | driver/binder/binder.c:1024-1088 | a process has at most one ref per node and one per descriptor |
| `BinderRefsResults.StreamsFollowGrammar` | driver/binder/binder.c:2265-2333 | in every reachable state the commands sent to a node's owner are a word of (INCREFS (ACQUIRE RELEASE)* DECREFS)* less a closing sequence; nothing is missing for a node that is gone although its process was never released; for the context manager the first INCREFS and ACQUIRE, whose flags the driver sets without sending them, count as sent |
| `BinderRefs.AcceptedIsPrefixOfWord` | driver/binder/binder.c:2272-2300 | the automaton accepts only beginnings of words of that grammar |
| `BinderRefs.CommandIsTimely` | driver/binder/binder.c:2265-2300 | RELEASE is never sent with an ACQUIRE unacknowledged, DECREFS never with an INCREFS or ACQUIRE unacknowledged |
| `BinderRefsResults.FreedNodeIsUnreferenced` | driver/binder/binder.c:961-1002 | a step frees a node only when no ref, no buffer and not the context manager refers to it, after complete words if its process lives |
| `BinderRefsResults.OverdueOnlyBy` | driver/binder/binder.c:926-958 | a reference command becomes due to a live owner with no work item queued for it if and only if a thread exit drops the item, a transaction buffer takes a count on a node whose owner was not told, or a new ref is made that the same command has yet to count |
| `BinderRefsResults.OverdueHasCause` | driver/binder/binder.c:2468-2475 | in every reachable state a node whose owner is due a command has its work item queued, or one of those steps came before |
| `BinderRefsResults.ThreadExitLosesCommand` | driver/binder/binder.c:2586-2588 | a run in which a ref holds a strong count and the owner is told nothing, because the thread with the work item exited |
| `BinderRefs.ReadNodeWorkKeeps` | driver/binder/binder.c:2265-2333 | a read of node work keeps the invariant |
| `BinderRefs.DoneKeeps` | driver/binder/binder.c:1828-1883 | an acknowledgement keeps the invariant |
| `BinderRefs.DropNodeKeeps` | driver/binder/binder.c:961-1002 | giving a local count back keeps the invariant, the freeing of the node included |
| `BinderRefs.ReleaseNodeKeeps` | driver/binder/binder.c:3019-3061 | the release of a node's process keeps the invariant |
| `BinderRefs.MakeManagerKeeps` | driver/binder/binder.c:2716-2724 | making the context manager keeps the invariant |
| `BinderRefs.NewRefKeeps` | driver/binder/binder.c:1024-1088 | a new ref with the least unused descriptor keeps the invariant |
| `BinderRefs.IncRefKeeps` | driver/binder/binder.c:1115-1137 | counting on a ref keeps the invariant; StepRefs says which ref is counted, CountsAreBalances that none is missed |
| `BinderRefs.DecRefKeeps` | driver/binder/binder.c:1139-1168 | dropping a count, and the ref with the last one, keeps the invariant |
| `BinderRefs.DeleteRefKeeps` | driver/binder/binder.c:1090-1113 | deleting a ref keeps the invariant |
| `BinderRefsDriver.ChooseDesc` | driver/binder/binder.c:1053-1059 | the descriptor loop returns the least unused descriptor from 0 or 1 on |
| `BinderRefsDriver.Table.IncNodeAt` | driver/binder/binder.c:926-959 | in place, as specified, -EINVAL included |
| `BinderRefsDriver.Table.DecNodeAt` | driver/binder/binder.c:961-1002 | in place, as specified |
| `BinderRefsDriver.Table.GetRefForNode` | driver/binder/binder.c:1024-1088 | the existing ref, or a new one with the least unused descriptor |
| `BinderRefsDriver.Table.IncRefAt` | driver/binder/binder.c:1115-1137 | in place, the specified increment, which TakeResult and StepRefs pin; the error result |
| `BinderRefsDriver.Table.DeleteRefAt` | driver/binder/binder.c:1090-1113 | in place, as specified; the node survives the first of the two decrements |
| `BinderRefsDriver.Table.DecRefAt` | driver/binder/binder.c:1139-1168 | in place, as specified; fails exactly for an unbalanced request |
| `BinderRefsDriver.Table.ReadNode` | driver/binder/binder.c:2265-2333 | the command sent for node work and the flags afterwards |
| `BinderDeathResults.RecordsHaveOneOwner` | driver/binder/binder.c:2013-2070 | in every reachable state a live death record is owned by exactly its ref while not cleared, and by exactly one list once cleared |
| `BinderDeathResults.NotificationsAreOrdered` | driver/binder/binder.c:2334-2369 | over every run each registration sees at most one DEAD_BINDER, at most one accepted clear, a CLEAR_DONE only after an accepted clear and once, no DEAD_BINDER after CLEAR_DONE, and its record is freed at most once and last |
| `BinderDeathResults.NoticeBeforeConfirmation` | driver/binder/binder.c:2054-2105 | a cleared record whose notice is pending or unanswered has had no CLEAR_DONE yet |
| `BinderDeathResults.NoDanglingRecord` | driver/binder/binder.c:1103-1110 | no list or ref points at a freed record, and a process that is gone leaves none behind |
| `BinderDeathLosses.StepDoes` | driver/binder/binder.c:2013-2105 | what every step does to every record and its history, exactly: an answer takes the first delivered record with the cookie off its list, a cleared one to the tail of the work list, and leaves every other untouched |
| `BinderDeathLists.StepQueues` | driver/binder/binder.c:2013-2105 | every step takes from each list of death work and puts into it exactly what it is to, in order: new work at the tail, delivered notices at the head of theirs, an answered clear at the tail of the work list |
| `BinderDeathLists.StepRefs` | driver/binder/binder.c:2013-2067 | which record each ref has after a step |
| `BinderDeathLists.StepNodes` | driver/binder/binder.c:3019-3061 | what a step does to a node: a new ref at the head of its refs, a deleted one leaves them, the death of the node takes its owner |
| `BinderDeathLists.NewestFirst` | driver/binder/binder.c:1073-1077 | in every run the refs of a node, and so the notices of its death, are the newest first |
| `BinderDeathLists.StepThreads` | driver/binder/binder.c:2031-2038 | which threads there are after a step, and which of them are loopers |
| `BinderDeathLists.AnswerIsConfirmed` | driver/binder/binder.c:2095-2105 | a clear whose notice was delivered is confirmed by the answer and reads of that thread: CLEAR_DONE is sent and the record freed |
| `BinderDeathLosses.NoticeOfDeadNode` | driver/binder/binder.c:3039-3054 | in every reachable state the record of every ref of a dead node is a notice that waits unsent in a list of the ref's process, or was sent, or was lost: exactly one of the three |
| `BinderDeathLosses.WaitingCanBeSent` | driver/binder/binder.c:2161-2234 | a waiting notice is sent by reads of any thread that reads its list; for a notice in the list of its process that is a thread with no transaction on its stack, for one in the thread's own list the reads do not get beyond that list |
| `BinderDeathLosses.LostOnlyByExit` | driver/binder/binder.c:2498-2513 | a step loses a notice if and only if it is the exit of the thread in whose own list the notice waits |
| `BinderDeathLosses.LostForGood` | driver/binder/binder.c:2498-2513 | no further run ever sends a lost notice |
| `BinderDeathLosses.OwnNoticeOnlyByAsk` | driver/binder/binder.c:2031-2038 | a notice comes into a thread's own list if and only if that thread is a looper and asks for the death of a node that is already dead |
| `BinderDeathLosses.LostMeansLateAndExited` | driver/binder/binder.c:2031-2038 | over every run a notice is lost only by such a late request followed by the exit of the same thread |
| `BinderDeathLosses.ThreadExitLosesNotice` | driver/binder/binder.c:2031-2038 | a concrete run that loses a notice |
| `BinderDeathLosses.ConfirmationLostOnlyByExit` | driver/binder/binder.c:2498-2508 | an accepted clear is never confirmed if and only if its record is freed by the exit of the thread that has it in its own list, or with its process |
| `BinderDeathLosses.ThreadExitLosesConfirmation` | driver/binder/binder.c:2498-2508 | a concrete run in which an accepted clear is never confirmed |
| `BinderDeath.AcceptedMeansInOrder` | driver/binder/binder.c:2334-2369 | the automaton over a record's events accepts exactly the ordered histories |
| `BinderDeath.LinkedAtClearIsDead` | driver/binder/binder.c:2063-2066 | a record found linked at a clear is a death notice: the BUG_ON never fires |
| `BinderDeath.PendingIsUnlinked` | driver/binder/binder.c:3047-3053 | a record found at node death is linked nowhere: the BUG never fires |
| `BinderDeath.RequestKeeps` | driver/binder/binder.c:2013-2039 | a request keeps the invariant, on a node already dead too |
| `BinderDeath.ClearKeeps` | driver/binder/binder.c:2040-2067 | a clear keeps the invariant in all its outcomes |
| `BinderDeath.AcknowledgeKeeps` | driver/binder/binder.c:2069-2106 | BC_DEAD_BINDER_DONE keeps the invariant; BinderDeathLists.StepQueues says what it moves, AnswerIsConfirmed that the clear is confirmed |
| `BinderDeath.DeliverKeeps` | driver/binder/binder.c:2334-2369 | delivery of death work keeps the invariant |
| `BinderDeath.NodeDies` | driver/binder/binder.c:3019-3061 | the records of the node's refs become notices, each appended to the list of its own process in the order of the refs; no other record, list or history changes, and the invariant is kept |
| `BinderDeath.ReleaseWork` | driver/binder/binder.c:2468-2516 | the list is emptied; exactly its cleared records are freed, its other records are only unlinked, and nothing else changes; the invariant is kept |
| `BinderDeath.CloseProcKeeps` | driver/binder/binder.c:3112-3113 | closing a process without threads, nodes and refs leaves none of its records |
| `BinderDeathDriver.Driver.RequestDeath` | driver/binder/binder.c:2013-2039 | as specified; refused exactly when one is set |
| `BinderDeathDriver.Driver.ClearDeathNotification` | driver/binder/binder.c:2040-2067 | as specified; refused exactly when none is set or the cookie differs |
| `BinderDeathDriver.Driver.DeadBinderDone` | driver/binder/binder.c:2069-2106 | finds the first delivered record with the cookie and takes the specified step, which BinderDeathLists.StepQueues pins; true exactly when there is one |
| `BinderDeathDriver.Driver.ReadDeath` | driver/binder/binder.c:2334-2369 | as specified; CLEAR_DONE is sent exactly when the first record to read is a confirmation, DEAD_BINDER when it is a notice, nothing when there is none |
| `BinderDeathDriver.Driver.NodeRelease` | driver/binder/binder.c:3039-3054 | the loop over the node's refs, BUG() proved unreachable |
| `BinderDeathDriver.Driver.DeferredRelease` | driver/binder/binder.c:3063-3113 | a process release is a run of exits of its own threads, deaths of its own nodes and losses of its own refs that ends with the process closed; nothing of the process is left |
| `BinderAsyncResults.DeliveredInSendOrder` | driver/binder/binder.c:1693-1703 | over every run the one-way calls delivered to a node are the first ones sent to it, in order, each once |
| `BinderAsyncLists.ReadInSendOrder` | driver/binder/binder.c:1693-1703 | from the making of a node on, in every run the calls read for it are the first ones sent to it, in that order, as the steps of the run send and read them |
| `BinderAsyncLists.StepQueues` | driver/binder/binder.c:1693-1705 | every step takes at most one one-way call off the head of one list and appends exactly the one it is to at a tail: to an idle node's process, or the next waiting one to the thread that freed the buffer |
| `BinderAsyncLists.StepHistories` | driver/binder/binder.c:2428-2445 | a step sends and delivers exactly those calls |
| `BinderAsyncResults.OneInFlight` | driver/binder/binder.c:1905-1930 | in every reachable state at most one call of a node is queued, delivered and unfreed, or dropped, and has_async_transaction is set exactly when one is |
| `BinderAsync.DeliveredMeansFlag` | driver/binder/binder.c:1920-1921 | a delivered call has its node's turn and the flag set: the BUG_ON never fires |
| `BinderAsyncResults.StalledForGood` | driver/binder/binder.c:2468-2488 | once an exiting thread has dropped the current call, no run delivers another call to the node as long as it exists |
| `BinderAsyncResults.StallsOnlyByExit` | driver/binder/binder.c:2468-2488 | a step stalls a node exactly when it is the exit of the thread whose own list holds the node's current call |
| `BinderAsyncResults.UnstalledMovesOn` | driver/binder/binder.c:1920-1926 | a node that is not stalled and has a serving thread with no transaction on its stack can always deliver its first waiting call |
| `BinderAsyncResults.ThreadExitStalls` | driver/binder/binder.c:1920-1926 | a concrete run that stalls a node |
| `BinderAsync.SendKeeps` | driver/binder/binder.c:1693-1705 | a one-way send keeps the invariant |
| `BinderAsync.DeliverKeeps` | driver/binder/binder.c:2428-2445 | a delivery keeps the invariant |
| `BinderAsync.FreeKeeps` | driver/binder/binder.c:1900-1930 | freeing a buffer hands the turn to the next waiting call and keeps the invariant |
| `BinderAsyncDriver.Driver.SendOneWay` | driver/binder/binder.c:1693-1705 | as specified |
| `BinderAsyncDriver.Driver.ReadCall` | driver/binder/binder.c:2428-2445 | as specified; the call returned is the first of the list that is read, none when it is empty |
| `BinderAsyncDriver.Driver.FreeBuf` | driver/binder/binder.c:1893-1931 | as specified; refused exactly for an address that is no delivered call of the process; BUG_ON proved |
| `BinderAsyncDriver.Driver.FreeThread` | driver/binder/binder.c:2468-2488 | every one-way call in an exiting thread's list is dropped |
| `RefBaseResults.CountsAreExact` | libs/utils/RefBase.cpp:322-357 | in every state of a run in which the first strong reference is fixed up once mStrong is the number of strong references, 2^28 more before that; mWeak counts the references and operations that hold a weak count |
| `RefBaseFirst.CountsAreExactIff` | libs/utils/RefBase.cpp:322-339 | for every run of a new object: the strong count is right if and only if no promotion fixed it up between the two steps of the first incStrong; otherwise it is 2^28 too low |
| `RefBaseFirst.DeletedIff` | libs/utils/RefBase.cpp:506-531 | when all references of a new object have been given back it has been deleted if and only if that did not happen |
| `RefBaseFirst.PromotionsAreRefused` | libs/utils/RefBase.cpp:432-475 | after it did, promotions fail however many strong references there are |
| `RefBaseFirst.TwoThreadsLoseTheCount` | libs/utils/RefBase.cpp:516-531 | a run of two threads after which the object has two strong references and its count is 2 - 2^28 |
| `RefBaseResults.DeletedExactlyOnce` | libs/utils/RefBase.cpp:341-428 | in such a run the object is deleted at most once, weakref_impl at most once and not before it; both are gone exactly when no reference is left, also if there never was a strong one |
| `RefBaseResults.ZeroIsForever` | libs/utils/RefBase.cpp:432-534 | once mStrong is zero no attemptIncStrong succeeds and no strong reference ever exists again |
| `RefBaseResults.NoUseAfterDelete` | libs/utils/RefBase.cpp:322-430 | no step of any operation uses a deleted weakref_impl, none of a strong reference and no incStrong of a client that keeps to the rules a deleted object |
| `RefBaseResults.PromotionSucceedsOnlyWhileAlive` | libs/utils/RefBase.cpp:442-490 | a compare-and-swap of a promotion, the first strong reference included, succeeds exactly when the count is unchanged, then it was positive and the object alive |
| `RefBaseResults.PromotionIsGivenUpOnlyAtZero` | libs/utils/RefBase.cpp:432-490 | a promotion is given up only at a step of its own that reads a strong count of zero; a swap that fails reads again |
| `RefBaseResults.PromotionEnds` | libs/utils/RefBase.cpp:432-534 | over every run a promotion that is over has succeeded on a live object or read zero |
| `RefBaseResults.WeakPromotionSucceeds` | libs/utils/RefBase.cpp:536-555 | attemptIncWeak from a held reference is never given up |
| `RefBaseResults.OperationsEnd` | libs/utils/RefBase.cpp:322-555 | every operation that runs alone ends within five steps: incStrong with a strong reference, a promotion with one exactly if the count was not zero, attemptIncWeak with a weak one, the releases with none |
| `RefBaseResults.StrongKeepsAlive` | libs/utils/RefBase.cpp:322-339 | while somebody holds a strong reference the object is there, and incStrong on it is as it should be |
| `RefBaseResults.CountWrapsAtInitial` | libs/utils/RefBase.cpp:322-339 | the bound on the number of references is needed: exactly at INITIAL_STRONG_VALUE incStrong takes the count for the first one |
| `RefBase.StepKeeps` | libs/utils/RefBase.cpp:322-555 | every atomic step keeps the invariant, but for that fix-up |
| `RefBaseCounts.WeakrefImpl.IncStrongSecond` | libs/utils/RefBase.cpp:322-339 | the increment of mStrong; its assertion holds, and it has to fix the count up exactly if there is no other strong reference |
| `RefBaseCounts.WeakrefImpl.FixFirst` | libs/utils/RefBase.cpp:334-338 | the first incStrong takes INITIAL_STRONG_VALUE off |
| `RefBaseCounts.WeakrefImpl.DecStrong` | libs/utils/RefBase.cpp:341-350 | the decrement of mStrong; its assertion holds |
| `RefBaseCounts.WeakrefImpl.DeleteObject` | libs/utils/RefBase.cpp:350-355 | the object is deleted by the one token that took the count to zero |
| `RefBaseCounts.WeakrefImpl.DecWeak` | libs/utils/RefBase.cpp:400-406 | the decrement of mWeak; its assertion holds |
| `RefBaseCounts.WeakrefImpl.DeleteImpl` | libs/utils/RefBase.cpp:408-420 | weakref_impl is deleted once, with no reference left, after the object or, if there never was a strong reference, with it |
| `RefBaseCounts.WeakrefImpl.TryRead` | libs/utils/RefBase.cpp:432-451 | a read of mStrong and where the loop goes |
| `RefBaseCounts.WeakrefImpl.TrySwap` | libs/utils/RefBase.cpp:442-451 | one turn of the compare-and-swap loop; when the swap fails it reads again, as PromotionIsGivenUpOnlyAtZero says |
| `RefBaseCounts.WeakrefImpl.TryFirst` | libs/utils/RefBase.cpp:470-480 | one turn of the loop for an object that never had a strong reference |
| `RefBaseCounts.WeakrefImpl.TryFirstRead` | libs/utils/RefBase.cpp:478-488 | the read after it, and whether the loop goes on |
| `RefBaseCounts.WeakrefImpl.FixRead` | libs/utils/RefBase.cpp:516-524 | whether the count is to be fixed up; the assertion holds |
| `RefBaseCounts.WeakrefImpl.FixSwap` | libs/utils/RefBase.cpp:524-531 | one turn of the fix-up loop; the invariant is kept if and only if it swaps nothing or no first incStrong is between its steps |
| `RefBaseCounts.WeakrefImpl.TryWeakRead` | libs/utils/RefBase.cpp:536-546 | attemptIncWeak reads a count that is not zero |
| `RefBaseCounts.WeakrefImpl.TryWeakSwap` | libs/utils/RefBase.cpp:543-548 | one turn of its loop |
| `Ashmem.UnpinWorks` | driver/ashmem/ashmem.c:645-672 | the restart loop ends and unpins exactly the union; the early return never follows a deletion; what touches the interval counts as purged exactly if anything touching it did |
| `Ashmem.PinWorks` | driver/ashmem/ashmem.c:579-638 | pin leaves exactly the difference and returns WAS_PURGED exactly when a page of the interval lies in a purged range |
| `Ashmem.UnpinKeeps` | driver/ashmem/ashmem.c:645-672 | unpin keeps sorted disjoint lists, the lru accounting and the purge history |
| `Ashmem.PinKeeps` | driver/ashmem/ashmem.c:579-638 | pin keeps the same |
| `AshmemResults.PinUndoesUnpin` | driver/ashmem/ashmem.c:579-672 | pin after unpin leaves exactly the other pages unpinned, and unpin again restores the union |
| `AshmemResults.LruIsExact` | driver/ashmem/ashmem.c:133-150 | in every run over all areas the lru list holds exactly the ranges not purged, each once, and lru_count is the number of their pages |
| `AshmemLru.LruIsByAge` | driver/ashmem/ashmem.c:133-137 | in every run over all areas the lru list is in the order in which its ranges were made |
| `AshmemLru.OlderGoFirst` | driver/ashmem/ashmem.c:434-461 | in every run a scan that purges a range has purged every range that was there before that one was made |
| `AshmemLru.ScanTakesPrefix` | driver/ashmem/ashmem.c:434-461 | a scan takes ranges off the head of the list and nothing else |
| `AshmemResults.NoPurgeIsLost` | driver/ashmem/ashmem.c:604-633 | in every run a pin of an interval with a page purged since it was unpinned returns WAS_PURGED |
| `AshmemResults.PinReportsIff` | driver/ashmem/ashmem.c:604-633 | in every run a pin returns WAS_PURGED if and only if a page of the interval was purged since it was unpinned or shares that status; sharing is defined by recursion over the run: it begins when an unpin takes the page into one range with a page that has the status, and ends when the page is pinned or its area released |
| `AshmemResults.SpreadOnlyByUnpin` | driver/ashmem/ashmem.c:662-671 | a page that was not purged comes to count as purged if and only if an unpin takes it into one range with a page that does |
| `AshmemResults.SpreadEndsIff` | driver/ashmem/ashmem.c:604-633 | it stops to count as purged if and only if it is pinned or its area is released; no scan and no unpin changes it |
| `AshmemResults.SharesIsSpread` | driver/ashmem/ashmem.c:604-671 | in every run the pages that share the status are exactly those that count as purged and were not |
| `AshmemResults.UnpinSpreadsPurge` | driver/ashmem/ashmem.c:662-671 | a pin reports any page that was unpinned together with a purged one, whether it was purged itself or not |
| `AshmemResults.PinReportsTooMuch` | driver/ashmem/ashmem.c:662-671 | a run of four steps after which pinning page 1 alone reports a purge although page 1 was never purged |
| `Ashmem.ScanTakesOldest` | driver/ashmem/ashmem.c:434-461 | a scan purges ranges off the head of the lru list, as many as asked for; LruIsByAge says that these are the oldest |
| `Ashmem.ScanFrom` | driver/ashmem/ashmem.c:434-461 | a scan keeps the invariant and returns exactly the number of pages by which lru_count drops |
| `Ashmem.PunchHole` | driver/ashmem/ashmem.c:625-633 | a hole in a range: upper half allocated, lower half shrunk, exactly the hole's pages gone |
| `Ashmem.AllocLru` | driver/ashmem/ashmem.c:164-185 | range_alloc keeps the lru accounting; LruIsByAge says at which end the new range goes |
| `Ashmem.DelLru` | driver/ashmem/ashmem.c:191-197 | range_del keeps the lru accounting |
| `Ashmem.ShrinkLru` | driver/ashmem/ashmem.c:211-221 | range_shrink keeps the lru accounting |
| `Ashmem.CloseAreaKeeps` | driver/ashmem/ashmem.c:262-277 | releasing an area removes all its ranges and keeps the invariant |
| `AshmemDriver.Driver.UnpinPages` | driver/ashmem/ashmem.c:645-672 | the loop with its restart, in place |
| `AshmemDriver.Driver.PinPages` | driver/ashmem/ashmem.c:579-638 | the loop with its four cases, in place; the result and the pages left unpinned |
| `AshmemDriver.Driver.PinStatus` | driver/ashmem/ashmem.c:680-696 | true exactly when some page of the interval is unpinned |
| `AshmemDriver.Driver.ShrinkScan` | driver/ashmem/ashmem.c:434-461 | the scan loop in place; returns the pages freed |
| `BestFit.RunKeeps` | libs/binder/MemoryDealer.cpp:310-406 | after any sequence of requests the chunks tile the heap without empty chunks and no two neighbours are free |
| `BestFit.AllocateWorks` | libs/binder/MemoryDealer.cpp:310-365 | a fresh, large enough, suitably aligned block of the best chunk; failure exactly when no chunk fits; a request of no bytes succeeds and takes nothing |
| `BestFit.SearchFindsBest` | libs/binder/MemoryDealer.cpp:316-335 | the search returns the first of the smallest fitting chunks, or there is none |
| `BestFit.DeallocateWorks` | libs/binder/MemoryDealer.cpp:367-406 | exactly the live chunk at the offset goes; a free chunk or an offset where none starts changes nothing |
| `BestFit.MergeLoopFrees` | libs/binder/MemoryDealer.cpp:378-390 | the merge loop joins the freed chunk with its free neighbours and nothing else |
| `BestFit.FreeKeeps` | libs/binder/MemoryDealer.cpp:372-402 | freeing keeps the heap tiled and fully coalesced |
| `BestFit.CarveKeeps` | libs/binder/MemoryDealer.cpp:337-363 | carving keeps the heap tiled and coalesced |
| `BestFit.FreeUndoesCarve` | libs/binder/MemoryDealer.cpp:310-406 | freeing what was just allocated gives the heap back |
| `BestFit.LiveChunksAreApart` | libs/binder/MemoryDealer.cpp:310-406 | live chunks lie in the heap and do not overlap |
| `BestFit.UnitsWrap` | libs/binder/MemoryDealer.cpp:312-315 | the request size wraps exactly for the last 31 sizes of a size_t; otherwise it is rounded up |
| `BestFit.WrappedRequestBreaksHeap` | libs/binder/MemoryDealer.cpp:312-340 | the heap stays tiled exactly for requests that do not wrap |
| `MemoryDealer.Allocator.InsertAfter` | libs/binder/MemoryDealer.cpp:62-68 | links a node behind another |
| `MemoryDealer.Allocator.InsertBefore` | libs/binder/MemoryDealer.cpp:70-76 | links a node before another |
| `MemoryDealer.Allocator.Remove` | libs/binder/MemoryDealer.cpp:101-107 | unlinks a node |
| `MemoryDealer.Allocator.constructor` | libs/binder/MemoryDealer.cpp:272-279 | one free chunk over the heap, whose size is the bytes asked for rounded up to pages |
| `MemoryDealer.Allocator.FindBest` | libs/binder/MemoryDealer.cpp:316-335 | the search loop over the linked list |
| `MemoryDealer.Allocator.Allocate` | libs/binder/MemoryDealer.cpp:310-365 | alloc in place on the linked list, as specified |
| `MemoryDealer.Allocator.MergeFreed` | libs/binder/MemoryDealer.cpp:378-390 | the merge loop in place; no size leaves its 28 bits |
| `MemoryDealer.Allocator.Deallocate` | libs/binder/MemoryDealer.cpp:367-406 | dealloc in place on the linked list, as specified |
| `LinearTransform.ScaleU64` | libs/utils/LinearTransform.cpp:29-110 | the exact floor or ceiling of val * N / D, failure exactly when that exceeds 64 bits |
| `LinearTransform.LongDivision` | libs/utils/LinearTransform.cpp:71-100 | dividing 64 bits and then the remainder with the lower 32 divides all 96 bits |
| `LinearTransform.AddBasis` | libs/utils/LinearTransform.cpp:147-184 | adding the basis succeeds exactly when the sum fits, except at two edges it rejects, and is then exact |
| `LinearTransform.TransformS64` | libs/utils/LinearTransform.cpp:112-185 | on success basis2 plus the exact floor of the scaled difference; success exactly as stated |
| `LinearTransform.EdgesAreRejected` | libs/utils/LinearTransform.cpp:150-158 | one result of each rejected kind that is in range: the least value itself, and one computed from the least value as basis |
| `LinearTransform.DoForward` | libs/utils/LinearTransform.cpp:187-198 | succeeds if and only if the denominator is not zero and the exact image is in range and not at a rejected edge; it is then the exact image |
| `LinearTransform.DoReverse` | libs/utils/LinearTransform.cpp:200-211 | succeeds if and only if the numerator is not zero and the exact pre-image is in range and not at a rejected edge; it is then the exact pre-image |
| `LinearTransform.RoundTrip` | libs/utils/LinearTransform.cpp:187-211 | for a positive ratio forward and back gives a' with a - ceil((denom - 1) / numer) <= a' <= a |
| `LinearTransform.ForwardAndBack` | libs/utils/LinearTransform.cpp:187-211 | both calls one after the other: when they succeed, and for a positive ratio the bound of RoundTrip on the result |
| `LinearTransform.Reduce` | libs/utils/LinearTransform.cpp:213-248 | the same ratio in lowest terms; 0/1 for zero; nothing changes for a zero denominator |
| `LinearTransform.ReduceSigned` | libs/utils/LinearTransform.cpp:253-263 | the same for every signed numerator, INT32_MIN included although its negation wraps |
| `Unicode.RoundTrip16` | libs/utils/Unicode.cpp:327-352 | UTF-16 to UTF-8 and back is the identity on well-formed strings, and the UTF-8 is well-formed |
| `Unicode.RoundTrip8` | libs/utils/Unicode.cpp:540-569 | UTF-8 to UTF-16 and back is the identity on well-formed strings, and the UTF-16 is well-formed |
| `Unicode.DecodesBack` | libs/utils/Unicode.cpp:484-512 | a scalar value is decoded from its encoded bytes |
| `Unicode.EncodesBack` | libs/utils/Unicode.cpp:73-109 | a well-formed sequence is what the encoder makes of the character it decodes to |
| `UnicodeBits.SequenceLengthIs` | libs/utils/Unicode.cpp:431-434 | the table packed into one word gives 1, 2, 3 or 4 by the leading bits |
| `UnicodeBits.SplitJoins` | libs/utils/Unicode.cpp:555-559 | the surrogates of a code point join to it again |
| `UnicodeValues.BytesAreDefined` | libs/utils/Unicode.cpp:73-109 | the bytes written for a scalar value are those of section 3 of RFC 3629, bit by bit and in the shortest form |
| `UnicodeValues.UnitsAreDefined` | libs/utils/Unicode.cpp:555-563 | the units written for it are those of section 2 of RFC 2781 |
| `UnicodeValues.AnyBytesAreJoined` | libs/utils/Unicode.cpp:484-512 | any bytes, well-formed or not, are decoded to the low bits of the first joined with the low six of each that follows |
| `Unicode.Measure16IsExact` | libs/utils/Unicode.cpp:514-538 | for every input the UTF-16 length is the number of units written, -1 exactly when the last sequence runs over the end |
| `Unicode.Measure8IsExact` | libs/utils/Unicode.cpp:401-420 | the UTF-8 length never exceeds the bytes written and equals them exactly when no low surrogate follows an even, positive number of high ones |
| `Unicode.UnpairedIsNotMeasured` | libs/utils/Unicode.cpp:401-420 | two high surrogates and a low one: four bytes are written and none is measured |
| `Unicode.WellFormedIsMeasured` | libs/utils/Unicode.cpp:401-420 | a well-formed string is measured exactly |
| `UnicodeConverters.Utf16ToUtf8` | libs/utils/Unicode.cpp:327-352 | writes exactly the encoding and a terminator, nothing for an empty string |
| `UnicodeConverters.Utf16ToUtf8Length` | libs/utils/Unicode.cpp:401-420 | the loop computes that measure |
| `UnicodeConverters.Utf8ToUtf16` | libs/utils/Unicode.cpp:540-569 | writes exactly the units and returns their number |
| `UnicodeConverters.Utf8ToUtf16Length` | libs/utils/Unicode.cpp:514-538 | the loop computes that measure |
| `Parcel.RoundTrip` | libs/binder/Parcel.cpp:647-751 | any sequence of typed values is read back unchanged from its bytes, to the end and no further |
| `Parcel.ItemBack` | libs/binder/Parcel.cpp:1093-1166 | each kind of value is read back from its padded bytes |
| `Parcel.String8Back` | libs/binder/Parcel.cpp:1304-1313 | a String8 is read back |
| `Parcel.String16Back` | libs/binder/Parcel.cpp:1315-1337 | a String16, null included, is read back |
| `Layouts.NumberBytes` | libs/binder/Parcel.cpp:842-875 | numbers are stored in two's complement with the lowest byte first |
| `Layouts.BlockBytes` | libs/binder/Parcel.cpp:707-751 | a block is its bytes and zeros up to a multiple of four |
| `Layouts.String8Bytes` | libs/binder/Parcel.cpp:845-857 | a String8 is its length, its characters and a terminator, padded with zeros; an empty one is a zero |
| `Layouts.String16Bytes` | libs/binder/Parcel.cpp:859-875 | a String16 is its length, its units with the lower byte first and a terminator, padded with zeros; a null one is -1 |
| `Layouts.BlockIsReadIff` | libs/binder/Parcel.cpp:1111-1127 | raw bytes are read exactly if they are at most 2^31 - 1 and the data holds them with their padding |
| `Parcel.HintDoesNotMatter` | libs/binder/Parcel.cpp:1495-1534 | in a table that starts with its least offset, ends with its greatest and has no step up over another offset, an object is found exactly when its position is there, for any hint |
| `Parcel.ObjectIsFoundIff` | libs/binder/Parcel.cpp:1495-1534 | an object of any table is found from every hint if and only if its offset is not below the first, not above the last, and not passed over by a step up; what is not in the table is never found |
| `Parcel.SearchIsExactIff` | libs/binder/Parcel.cpp:1495-1534 | for every table the search is exact for every hint and every position below a given end if and only if all its offsets below that end are such |
| `Parcel.AscendingIsSearchable` | libs/binder/Parcel.cpp:1495-1534 | an ascending table is such a one, and a table that repeats nothing is one only if it ascends |
| `Parcel.RepeatedTableIsSearchable` | libs/binder/Parcel.cpp:1594-1603 | an accepted table that goes back and is searched rightly for all that |
| `Parcel.AcceptedAscends` | libs/binder/Parcel.cpp:1594-1603 | a table accepted by ipcSetDataReference ascends and repeats nothing as long as its objects end within 64 bits |
| `Parcel.AcceptedIsSpaced` | libs/binder/Parcel.cpp:1594-1603 | without wrap-around a table is accepted exactly when its objects ascend and do not overlap |
| `Parcel.WrappedTableHidesObject` | libs/binder/Parcel.cpp:1594-1603 | an accepted table whose first object ends beyond the 64-bit range hides the next one |
| `ParcelWrites.WrittenIff` | libs/binder/Parcel.cpp:691-751 | a value is stored exactly when its field and its block fit; NO_ERROR is returned exactly when its field fits; so it is reported as written and is not exactly when there is no room for its block and the parcel is too large to grow for it |
| `ParcelWrites.AllWrittenIff` | libs/binder/Parcel.cpp:691-875 | a sequence of writes stores its values to the last byte if and only if every field and every block fits, and reports NO_ERROR if and only if every field fits |
| `ParcelWrites.LargeBlockIsDropped` | libs/binder/Parcel.cpp:691-705 | 1.5e9 bytes written to a fresh parcel: NO_ERROR, and nothing is stored |
| `ParcelWrites.FreshBlockIsStoredIff` | libs/binder/Parcel.cpp:691-751 | a block written to a fresh parcel is stored if and only if it has at most 1431655764 bytes; a longer one is dropped with NO_ERROR |
| `ParcelBuffer.ParcelData.GrowData` | libs/binder/Parcel.cpp:1688-1700 | grows to one and a half times the size with the contents kept, exactly when that is in the int32 range |
| `ParcelBuffer.ParcelData.WriteAligned` | libs/binder/Parcel.cpp:1154-1166 | the bytes of a number overwrite the contents at the position, or BAD_VALUE; position, size and capacity |
| `ParcelBuffer.ParcelData.WriteInplace` | libs/binder/Parcel.cpp:707-751 | room at the position with the padding of the last word zero, exactly when the padded length fits |
| `ParcelBuffer.ParcelData.WriteBlock` | libs/binder/Parcel.cpp:691-705 | a block and its zero padding overwrite the contents if they fit, and NO_ERROR if they do not |
| `ParcelBuffer.ParcelData.WriteItem` | libs/binder/Parcel.cpp:842-875 | each typed write has the specified outcome: status, bytes stored, position, size and capacity |
| `ParcelBuffer.ParcelData.WriteAll` | libs/binder/Parcel.cpp:753-875 | the contents grow by what the specified outcome stores |
| `ParcelBuffer.ParcelData.ReadInplace` | libs/binder/Parcel.cpp:1111-1127 | succeeds exactly when the padded bytes are there |
| `ParcelBuffer.ParcelData.ReadAligned` | libs/binder/Parcel.cpp:1130-1151 | the number at the position, or not enough data |
| `ParcelBuffer.ParcelData.ReadString` | libs/binder/Parcel.cpp:1304-1313 | as specified |
| `ParcelBuffer.ParcelData.ReadWideString` | libs/binder/Parcel.cpp:1324-1337 | as specified |
| `ParcelBuffer.ParcelData.ReadTyped` | libs/binder/Parcel.cpp:1093-1151 | each typed read, as specified; one that fails leaves the position |
| `ParcelBuffer.ParcelData.ReadEach` | libs/binder/Parcel.cpp:1093-1337 | typed reads one after the other, as specified |
| `ParcelBuffer.ParcelData.SetReference` | libs/binder/Parcel.cpp:1578-1605 | the table is kept exactly when it is accepted |
| `ParcelBuffer.ParcelData.ReadObject` | libs/binder/Parcel.cpp:1480-1539 | succeeds exactly when the object is in bounds and found by the search, or is null and need not be; an object that meets the condition above is found whatever the hint; where the position is left; the hint moves behind the object found, and only then |
| `ParcelBuffer.CopyThroughParcel` | libs/binder/Parcel.cpp:647-875 | values written to a fresh parcel and read back by the reading methods are the same values if every write fits; the status is the one of the writes |
| `BlobCache.GetIsLastAccepted` | libs/utils/BlobCache.cpp:57-163 | in every run from a fresh cache no clean takes a number modulo zero, the total is the sum of the stored sizes and within the limit, and get returns the last value accepted for the key or nothing |
| `BlobCache.SetMeans` | libs/utils/BlobCache.cpp:57-134 | for any cache: an accepted pair is readable at once, a refused one leaves no trace, any other key keeps its value or is evicted by a cleaning |
| `BlobCache.SetKeeps` | libs/utils/BlobCache.cpp:57-134 | set keeps the invariant and what the total counts beyond the stored sizes; on a proper cache it never comes to modulo zero |
| `BlobCache.OneCleanIsEnough` | libs/utils/BlobCache.cpp:298-311 | a cleaned cache is not cleanable again |
| `BlobCache.CanBreakIff` | libs/utils/BlobCache.cpp:57-134 | from a cache without entries that counts some bytes all the same, some sequence of sets ends in clean taking a random number modulo zero if and only if more than half the limit is counted and all the keys there are, each with its longest value, exceed the rest |
| `BlobCache.FlattenedSizeSuffices` | libs/utils/BlobCache.cpp:169-179 | the advertised size is enough for every build id |
| `Layouts.VersionBytes` | libs/utils/BlobCache.cpp:32-39 | the magic number, version and device version, byte by byte |
| `Layouts.HeaderBytes` | libs/utils/BlobCache.cpp:189-206 | where each field of a serialized cache lies |
| `Layouts.EntryIs` | libs/utils/BlobCache.cpp:208-228 | an entry is the two sizes in eight bytes each, the key, the value and zeros up to a multiple of four |
| `BlobCache.SilentOverrunIff` | libs/utils/BlobCache.cpp:181-198 | flatten writes behind the end of the buffer and still returns OK if and only if the cache is empty and the buffer has room for the header but not for the build id; never with the advertised size |
| `BlobCache.OverrunExample` | libs/utils/BlobCache.cpp:181-198 | an empty cache, 32 bytes and a build id of ten letters: six of them land behind the buffer |
| `BlobCache.EntryHeld` | libs/utils/BlobCache.cpp:268-284 | what unflatten finds at the position of a written entry is that entry; it passes the tests for room and the walk goes on behind it |
| `BlobCache.NothingStrays` | libs/utils/BlobCache.cpp:268-282 | an entry whose sizes wrap around and that set would not turn down needs limits of about the size of the address space |
| `BlobCache.EntryIsStored` | libs/utils/BlobCache.cpp:261-285 | unflattening entry after entry with room for all of them stores each and evicts none |
| `BlobCacheUnflatten.FailureIsEmptyIff` | libs/utils/BlobCache.cpp:233-288 | for any cache and any buffer, with the size sums taken in 64 bits: exactly when unflatten returns OK, returns BAD_VALUE, reads outside the buffer, or comes to modulo zero; an error leaves the empty cache its comment promises if and only if nothing was counted before and no entry that is read can be stored; on OK the total counts the new entries and still all that was counted before |
| `BlobCacheUnflatten.UnflattenReturns` | libs/utils/BlobCache.cpp:233-288 | with no more than half the limit counted, and limits and buffer well below the address space, unflatten returns OK or BAD_VALUE |
| `BlobCacheUnflatten.CutShortKeepsTotal` | libs/utils/BlobCache.cpp:261-279 | every buffer that announces two entries and holds one, with limits that admit the pair: no entry is left, its size stays in mTotalSize, and setting the pair again sends clean to a cache without entries |
| `BlobCacheUnflatten.CutShortExample` | libs/utils/BlobCache.cpp:261-279 | the smallest such buffers, 52 bytes |
| `BlobCacheUnflatten.WrappedEntryKeepsTotal` | libs/utils/BlobCache.cpp:268-284 | every buffer whose first entry has sizes that add up to more than a size_t: it passes and is turned down, the walk goes on; with the count 3 the pair behind it is stored, the failure comes later, and its size stays in mTotalSize; with the count 1 the result is OK |
| `BlobCacheUnflatten.WrappedEntryExample` | libs/utils/BlobCache.cpp:268-284 | the smallest such buffers, 84 bytes |
| `BlobCacheUnflatten.HugeLimitsReadOutside` | libs/utils/BlobCache.cpp:268-282 | with limits of the size of the address space such an entry is read from outside the buffer |
| `BlobCacheUnflatten.ReloadBreaks` | libs/utils/BlobCache.cpp:233-288 | a full cache that is given its own serialized form comes to modulo zero |
| `BlobCacheUnflatten.CleansNothingIff` | libs/utils/BlobCache.cpp:298-307 | after an error the next set sends clean to a cache without entries for some pair if and only if more than half the limit is counted and a pair may be larger than the rest |
| `BlobCacheUnflatten.BreaksAfterErrorIff` | libs/utils/BlobCache.cpp:298-307 | after an error some sequence of sets comes to modulo zero if and only if more than half the limit is counted and all the keys there are, each with its longest value, exceed the rest |
| `BlobCacheUnflatten.StorableFills` | libs/utils/BlobCache.cpp:57-134 | setting a pair that is not too large leaves a total above zero, whatever is evicted |
| `BlobCacheUnflatten.MatchNeedsPastIff` | libs/utils/BlobCache.cpp:248-255 | whether the header matches depends on what lies behind the buffer if and only if the buffer is too short for the build id and all of the header in it matches |
| `BlobCacheUnflatten.RestoresIff` | libs/utils/BlobCache.cpp:233-288 | unflattening a serialized cache gives exactly its entries, whatever clean would evict, if and only if they have room beside what was counted before |
| `BlobCacheUnflatten.UnflattenRestores` | libs/utils/BlobCache.cpp:233-288 | with that room, in particular into a fresh cache, the entries and their total come back without eviction |
| `BlobCacheStore.Store.Clean` | libs/utils/BlobCache.cpp:298-307 | evicts until at most half the limit is left, and no longer than needed; comes to modulo zero exactly when more than half is counted beyond the stored sizes |
| `BlobCacheStore.Store.SetValue` | libs/utils/BlobCache.cpp:57-134 | the retry loop: as specified, with at most one cleaning, and modulo zero exactly as specified |
| `BlobCacheStore.Store.GetValue` | libs/utils/BlobCache.cpp:136-163 | the size of the value, and the value if the buffer is large enough |
| `BlobCacheStore.Store.Flatten` | libs/utils/BlobCache.cpp:181-231 | returns OK exactly when the header fits and the entries do if there are any; with room for all the buffer holds the serialized cache; how many bytes of the build id land behind the end of the buffer; a buffer with room for the header gets it whatever happens then |
| `BlobCacheStore.Store.Unflatten` | libs/utils/BlobCache.cpp:233-288 | into any cache, as specified; ends exactly as stated above; on an error no entry is left, and the total is zero exactly when it was before and nothing could be stored; a serialized cache is restored exactly when there is room |
| `BlobCacheStore.CopyThroughBuffer` | libs/utils/BlobCache.cpp:165-288 | flatten, then unflatten into a fresh cache with the same limits, is the same cache without eviction |

## Left out

- Self-calls of a process and overlapping object offsets in the driver: outside the hypotheses.
- Faulting copies to and from user memory, signals, wait queues, priorities, file descriptor passing, security hooks, debugfs, statistics.
- Rebalancing of the kernel's red-black trees: every search is proved for ordered trees of any shape.
- The bytes of a transaction and the translation of its objects: only the counts they take and give back.
- Read buffers that are too small for the next item: the read loop then stops before the item.
- Allocation failures of nodes, refs, transactions and death records: they change nothing the model describes.
- Liveness beyond UnstalledMovesOn and NoCallIsStuck: scheduling is not modelled.
- ashmem with failing range allocations: a hole punched without memory for its upper half pins that half; mmap, naming, protection masks and file handling.
- RefBase with the weak or forever lifetime, forceIncStrong, the callbacks onFirstRef and onLastStrongRef, and the debug tracking.
- Parcel: shrinking writes, data owned by someone else, file descriptors, binders as values, native handles, positions past the size.
- Unicode: UTF-32 strings, comparison functions, bounded conversion, and UTF-16 writers of malformed UTF-8 beyond their lengths.
- BlobCache: a total that overflows a size_t while set adds to it, which takes more memory than there is; the ordering inside the sorted vector; what is stored from outside the buffer.
- MemoryDealer: giving pages back to the kernel when an allocation is dropped, and the dump functions.
- LinearTransform: signed overflow in the subtraction of the bases is taken to wrap, as the code's cast to an unsigned word expects.
- Looper, IPCThreadState, ProcessState, sockets, properties, containers and strings: plumbing or easier members beside the cores above.
