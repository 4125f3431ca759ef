# Verified models of the concurrent and stateful parts of this repository

A Dafny 4 project that models six files and proves what they keep. `dafny verify dfyconfig.toml`
checks all of it.

| files | models |
|---|---|
| `PipeRing.dfy`, `PipeProtocol.dfy`, `PipeCalls.dfy` | the blocking pipe, `protect/pipe.c`: ring arithmetic and the buffer in place; any number of threads reading, writing and resetting, one step at a time; whole calls |
| `UsbDevice.dfy`, `UsbSystem.dfy`, `UsbCalls.dfy`, `UsbReadCache.dfy` | the USB skeleton driver, `usb/usb-skeleton.c`: calls on any number of files, URB completions, disconnect, flush and reset; whole calls; the read cache in place |
| `JournalWalk.dfy`, `JournalPage.dfy`, `JournalSafety.dfy`, `JournalRuns.dfy`, `JournalResults.dfy` | the journalled page write path, `fs/journal/address_mapping.c` |
| `Numbers.dfy`, `MountOptions.dfy`, `MountResults.dfy`, `PtyAllocator.dfy` | pty mount options and index allocation, `fs/inode_orig.c` |
| `RadixWalk.dfy` | the page cache walk, `memory/list_buffer.c` |
| `Common.dfy` | a few definitions the models share |
| `KeyQueue.dfy`, `KeyCalls.dfy` | the keyboard queue between interrupt handler and readers, `protect/my_spin.c` |

## What is proved

**Pipe.** For a buffer of any size N >= 2 and any set of threads, a state maps each thread to a
program counter; each of the two loads of an unlocked test (in either order), each store of a reset,
and each of copy, advance, wrap, release and wake is a step of its own. Over every run (`PipeIsSafe`): bytes
delivered followed by the queue are the bytes accepted since the last reset; the semaphore's count
and the number of threads inside add up to one; a reader sleeps on a pipe that looks non-empty only
while a writer is still about to wake it, or a reset is half done; and without resets the same holds
for writers. With resets the writers' half is false, because PIPE_RESET wakes nobody:
`ResetCanStrandAWriter` reaches such a state. A reset can end with a writer asleep on free space,
now or in some continuation before the next reset, exactly when no reader is about to wake the
writers and some writer is asleep, or is between the two loads of its test with an `rp` other than
the reset one or a `wp` that makes the emptied ring look full (`ResetStrandsWriters`,
`WritersAwakeExactly`). And every thread's calls return, in order, exactly what the thread moved
(`CallsReturnWhatTheyMoved`). `PipeCalls` follows single calls from beginning to end, in any state
the other threads have left: what is returned, what becomes of the queue, who is woken.

**USB.** Over every interleaving: free permits, permits held by calls and write URBs in flight make
eight; every DMA buffer is freed at most once, and has been freed exactly when neither a call nor a
URB has it; bytes consumed followed by what is left in the read buffer are the bytes received; a
read call goes round its retry loop at most once more than its own submissions came back failed or
empty; the reference count is open files plus one until disconnect's put, and the device is deleted
once, when nothing is under way; no submission happens during a reset or after disconnect. The bytes
received are those that completions delivered (`StreamIsDelivered`). `UsbCalls` follows single calls
and the USB core's operations from beginning to end.

**Journalled pages.** `walk_page_buffers` is proved against a description of the whole walk. On top
of it: which buffers get write access and which are dirtied, the credits, when write_end may mark a
page uptodate, what becomes of the file size, and over runs when a page is written in place and when
a handle stays open. Several promises hold only under a condition, which is given exactly (and `JournalResults` says, block by block, what each operation leaves
behind and returns):

- writepage makes its dirtying pass even when its access pass failed (`WritePageGuards`,
  `WritePageDirtiesUngranted`);
- a writepage that gets a handle for a dirty page and is then refused a block, or whose
  `__block_write_begin` fails (and writepage returns 0), leaves the page to be written in place by the
  next one without having been journalled (`InPlaceIsJournaledExactly`, `UnjournaledInPlaceWrite`);
- a write_begin that is refused access after it started a handle returns the error and leaves the
  handle open; until a write_end nothing starts one, and the next write uses the leaked one
  (`HandlesLeakExactly`, `OpenHandleBlocks`, `LeakedHandleIsUsed`);
- a walk that stops early can hide a stale buffer from write_end (`WriteEndUptodate`,
  `EarlyStopHidesAStaleBuffer`);
- a short copy dirties new buffers outside the journal, and some of them before they are handed to it
  (`ShortCopyDirties`, `WriteEndGuards`); and a write of which nothing arrived still dirties the block
  around `pos` unless it starts there (`EmptyWriteTouches`).

**Pty.** Options parse as a left-to-right fold in which the last occurrence wins, a remount keeps
`newinstance`, and remounting with the printed options restores the record exactly when no uid or
gid beyond INT_MAX was set (`ParsePrintParse`; `BigUid` is a mount that sets one). `MountResults` says
which texts each option accepts and what it sets. The allocator's
count, limit and reserve hold over every run with any number of instances.

**Radix walk.** Looking up every index by its base-64 digits finds the same pages as the structural
fold, for trees of height up to 5. `max_index` is an unsigned int, so for higher trees this holds
exactly if no page has an index of 2^32 or more (`WalkIsFoldExactly`, `WalkMissesHighPage`).

**Keyboard queue.** On any number of CPUs: first in, first out; the count is the list's length
whenever the lock is free; no handler ever spins on a lock its own CPU holds, exit included. Every key
taken from the port goes on the list, in order, and every key taken off it to a reader (`NoKeyIsLost`).

Where the code and its comments disagree the model follows the code: the wait in `protect/pipe.c`
line 104 is for a buffer that is not full; a remount with bogus options does fail
(`fs/inode_orig.c` line 288), after resetting the options.

## Model

| member | source | states |
|---|---|---|
| PipeRing.SpacePlusOccupancy | protect/pipe.c:86-94 | spacefree plus occupancy is N - 1 for every pair of pointers, also while one is at `end` |
| PipeRing.TransientAgreesWithWrapped | protect/pipe.c:77-79 | an unlocked test sees the same free space before and after a wrap; `wp != rp` is never spuriously false |
| PipeRing.ReadFits | protect/pipe.c:66-79 | a read past its guard moves at least one byte, stays within buffer and queue, and stops short only at the end of one of them |
| PipeRing.ReadDequeues | protect/pipe.c:66-79 | a read takes a non-empty prefix of the queue and leaves both pointers inside the buffer |
| PipeRing.WriteFits | protect/pipe.c:113-126 | a write past its guard stores at least one byte, never fills the last slot nor reaches the read pointer |
| PipeRing.WriteEnqueues | protect/pipe.c:113-126 | a write appends a non-empty prefix of its bytes to the queue |
| PipeRing.FreeAreaIsNotContents | protect/pipe.c:119-122 | bytes stored by a copy that then faults do not disturb the queue |
| PipeRing.PipeBuffer.FreeSpace | protect/pipe.c:86-94 | the result and the queue's length make N - 1 |
| PipeRing.PipeBuffer.Read | protect/pipe.c:57-83 | blocks exactly on an empty queue and faults exactly if the copy does; otherwise returns its front, as many bytes as the clipped count, and leaves the rest; a fault changes nothing |
| PipeRing.PipeBuffer.Write | protect/pipe.c:104-130 | blocks exactly on a full queue and faults exactly if the copy does; otherwise appends what it accepts, as many bytes as the clipped count; a fault leaves pointers and queue |
| PipeRing.PipeBuffer.CopyIn | protect/pipe.c:119-119 | the bytes land at the write pointer and nowhere else |
| PipeRing.PipeBuffer.Reset | protect/pipe.c:141-144 | empties the queue |
| PipeProtocol.SemaphoreBalance | protect/pipe.c:54-81 | no step of a call changes count plus holders: every path releases as often as it took |
| PipeProtocol.StepKeepsPointers | protect/pipe.c:66-79 | each step inside the critical section leaves what the next one relies on, and a settled ring on the way out |
| PipeProtocol.StepKeepsCore | protect/pipe.c:51-151 | mutual exclusion and pointer ranges survive every step of every thread |
| PipeProtocol.StepRefinesQueue | protect/pipe.c:51-151 | every step is a dequeue, an enqueue, a clear or nothing on an abstract byte queue; faults and interruptions are nothing |
| PipeProtocol.StepKeepsFifo | protect/pipe.c:51-151 | delivered bytes, then the queue, stay equal to the bytes accepted |
| PipeProtocol.StepKeepsReadersSafe | protect/pipe.c:57-64 | no step makes a reader sleep on data nobody is about to announce, given that it enqueues before testing |
| PipeProtocol.StepKeepsWritersSafe | protect/pipe.c:104-111 | the same for writers and free space, for every step but a reset's |
| PipeProtocol.ResetStrandsWriters | protect/pipe.c:141-150 | after a reset no continuation up to the next reset has a writer asleep on free space without a reader about to wake it, if and only if a reader is about to wake the writers, or none is asleep or between its loads with an `rp` other than the reset one or a `wp` that makes the emptied ring look full |
| PipeCalls.QuiescentExactly | protect/pipe.c:51-151 | nothing can move without a signal or a new call exactly when every thread is between calls, asleep and not woken, or waiting for a semaphore that is taken |
| PipeProtocol.RestIsJustified | protect/pipe.c:51-131 | in such a state sleeping readers find the pipe empty, sleeping writers find it full, never both |
| PipeCalls.ReadAlone | protect/pipe.c:51-84 | a read that finds bytes, from call to return: the front of the queue, as much as asked for up to the end of the queue or the buffer, the semaphore free again, all waiting writers woken |
| PipeCalls.WriteAlone | protect/pipe.c:96-131 | the same for a write that finds room |
| PipeCalls.WaitAlone | protect/pipe.c:57-64 | a call with nothing to do gives the semaphore back and sleeps, or returns -ERESTARTSYS on a signal; nothing changes for the others |
| PipeCalls.FirstTestAlone | protect/pipe.c:60-60 | the test before queueing skips it if there is something to do |
| PipeCalls.WakeAlone | protect/pipe.c:60-63 | a woken or signalled sleeper goes for the semaphore if there is something to do, else back to sleep or away with -ERESTARTSYS |
| PipeCalls.WokenReaderReads | protect/pipe.c:57-84 | a reader woken while there are bytes, on its own, returns them |
| PipeCalls.WokenWriterWrites | protect/pipe.c:104-131 | a writer woken while there is room, on its own, writes |
| PipeCalls.WakeUpExactly | protect/pipe.c:82-129 | a wake-up lets every thread queued on that side run on, and touches nobody else |
| PipeCalls.FaultAlone | protect/pipe.c:72-75 | a faulting copy: -EFAULT, semaphore free, queue and pointers as before, nobody woken |
| PipeCalls.ResetAlone | protect/pipe.c:141-150 | a reset empties the queue, returns 0, wakes nobody |
| PipeCalls.SemaphoreTaken | protect/pipe.c:54-55 | with the semaphore taken a call waits, or returns -ERESTARTSYS on a signal |
| PipeProtocol.RunsAreFifo | protect/pipe.c:51-151 | first in first out, and no lost wakeup of readers, over every run |
| PipeProtocol.HarmlessIsSafe | protect/pipe.c:141-150 | that condition is also exactly when the writers' invariant survives the reset |
| PipeProtocol.WritersSafeExactly | protect/pipe.c:96-151 | the writers' invariant holds at every point of a run if and only if all resets in it are harmless |
| PipeProtocol.WritersAwakeExactly | protect/pipe.c:96-151 | at no point of a run outside a reset can it go on, up to the next reset, to a writer asleep on free space that nobody is about to wake, if and only if all resets in it are harmless |
| PipeProtocol.ResetFreeIsHarmless | protect/pipe.c:96-131 | a run without resets is one of those |
| PipeProtocol.PipeIsSafe | protect/pipe.c:51-151 | all of the pipe's promises over every run from a fresh device |
| PipeProtocol.CallsReturnWhatTheyMoved | protect/pipe.c:51-151 | in every run each thread's successful results are, in order, those of what it moved, but for one still due; a call that fails moved nothing |
| PipeProtocol.HistoriesAreLogged | protect/pipe.c:77-126 | the bytes accepted and delivered since the last reset are those moved, in the order in which the semaphore was held |
| PipeProtocol.MovedIsReturned | protect/pipe.c:77-83 | in every run, a call that moved a pointer stays under way with just those bytes until it returns them, or their number |
| PipeProtocol.ResetCanStrandAWriter | protect/pipe.c:141-150 | a reachable state at rest with an empty pipe and a writer asleep |
| UsbSystem.ThreadPermits | usb/usb-skeleton.c:375-463 | each step of a call moves permits between semaphore, call and URB, and loses or makes none |
| UsbSystem.ThreadBuffers | usb/usb-skeleton.c:403-463 | each step passes a DMA buffer on to one owner or frees it |
| UsbSystem.BufferKeepsStream | usb/usb-skeleton.c:287-328 | handing out a chunk and starting the next read keeps the read stream whole |
| UsbSystem.ReadReturnsItsChunk | usb/usb-skeleton.c:287-328 | a read returns as many bytes as it consumed; a faulting copy consumes a chunk and returns -EFAULT |
| UsbSystem.CompletionDelivers | usb/usb-skeleton.c:166-190 | a successful completion delivers its payload and nothing else, a failing one nothing; the URB is idle |
| UsbSystem.CompletionKeepsStream | usb/usb-skeleton.c:166-190 | either keeps the stream whole |
| UsbSystem.AnchorGrowsOnlyBySubmit | usb/usb-skeleton.c:422-439 | a write URB is anchored or put in flight only by a submission with the interface present |
| UsbSystem.KillKeepsInv | usb/usb-skeleton.c:612-620 | cancelling a URB in flight frees its buffer for the first time and returns its permit; one whose submission failed only leaves the anchor; the invariant is kept |
| UsbSystem.StepKeepsInv | usb/usb-skeleton.c:75-656 | every step of calls, completions and USB core keeps the whole invariant |
| UsbSystem.ResourcesAreConserved | usb/usb-skeleton.c:166-467 | permits make eight, no buffer is freed twice or lost, the read stream is whole, at most one read is uncompleted, and retries are bounded, over every run |
| UsbSystem.LifetimeIsSafe | usb/usb-skeleton.c:75-140 | the reference count is right, and the device is deleted once, when disconnected, closed and without write URBs in flight |
| UsbSystem.ResetIsQuiet | usb/usb-skeleton.c:637-656 | from the end of pre_reset to post_reset's unlock nothing is in flight and no call is inside `io_mutex` |
| UsbSystem.SubmissionsAreGuarded | usb/usb-skeleton.c:192-227 | URBs are submitted one at a time, only inside `io_mutex` with the interface present and no reset; a read URB only when all earlier ones have completed |
| UsbSystem.DisconnectIsFinal | usb/usb-skeleton.c:588-610 | after disconnect cleared `interface` no run submits a URB of either kind, and nothing new comes in flight |
| UsbCalls.CallBegins | usb/usb-skeleton.c:469-477 | a thread between calls starts just the call it is asked for, on an open file |
| UsbCalls.CallIsARun | usb/usb-skeleton.c:229-467 | a call that runs alone is a run of the whole system |
| UsbCalls.WriteCompletes | usb/usb-skeleton.c:334-358 | a write URB that completes gives back its buffer and its permit |
| UsbCalls.ReceivedIsDelivered | usb/usb-skeleton.c:166-190 | over every run the bytes received are the payloads of the successful completions, in order |
| UsbCalls.StreamIsDelivered | usb/usb-skeleton.c:166-328 | and so are the bytes consumed followed by those left in the buffer |
| UsbCalls.WriteAlone | usb/usb-skeleton.c:360-454 | a write that gets what it needs puts one URB in flight with a buffer of its own, takes one permit, and returns the size or 3584, whichever is less |
| UsbCalls.PrepareAlone | usb/usb-skeleton.c:391-420 | with a permit: a pending error is reported and cleared, a failed allocation -ENOMEM, a failed copy -EFAULT, each with permit and buffer given back |
| UsbCalls.SubmitAlone | usb/usb-skeleton.c:422-463 | nothing is submitted without the interface; a failing submission leaves nothing anchored and its buffer freed |
| UsbCalls.WriteWithoutPermit | usb/usb-skeleton.c:371-389 | a write of nothing returns 0; without a permit it waits, or returns -EAGAIN or -ERESTARTSYS |
| UsbCalls.FailedWriteLeavesNothing | usb/usb-skeleton.c:360-467 | a failing write leaves permits, anchor and URBs as they were and no buffer unfreed |
| UsbCalls.ReadAlone | usb/usb-skeleton.c:229-331 | a read with data in the buffer returns as many bytes as asked for and there, the next of the stream, and starts a read for the rest; or loses them with -EFAULT |
| UsbCalls.ReadStarts | usb/usb-skeleton.c:253-328 | without data it puts a read URB of the length asked for in flight and waits, or returns -EAGAIN |
| UsbCalls.ReadBegins | usb/usb-skeleton.c:236-269 | the ways a read ends before it comes to the buffer |
| UsbCalls.ReadFromIdle | usb/usb-skeleton.c:271-328 | with the URB idle: pending errors are reported and cleared, data handed out, failed submissions reported |
| UsbCalls.ReadWaiting | usb/usb-skeleton.c:258-269 | a waiting read goes on when the URB has completed, or returns -ERESTARTSYS on a signal |
| UsbCalls.MutexTaken | usb/usb-skeleton.c:243-245 | with `io_mutex` taken every call waits; only a read gives up on a signal |
| UsbCalls.FlushAlone | usb/usb-skeleton.c:142-164 | a flush with no writes left cancels the read and reports and clears what is pending; for the read it cancels itself, -EIO |
| UsbCalls.FlushDrains | usb/usb-skeleton.c:612-620 | until then it cancels writes one by one, or waits |
| UsbCalls.ReleaseAlone | usb/usb-skeleton.c:123-140 | a release closes the file and drops its reference; the last one deletes the device |
| UsbCalls.OpenExactly | usb/usb-skeleton.c:85-121 | an open succeeds exactly on a registered device, and takes a reference |
| UsbCalls.ErrorsAreKept | usb/usb-skeleton.c:166-358 | the pending error is the last failure, cancellation or reset, until a read, write or flush that reports it |
| UsbCalls.ResetAlone | usb/usb-skeleton.c:637-656 | a reset cancels the read, leaves `io_mutex` free and -EPIPE pending |
| UsbCalls.DisconnectAlone | usb/usb-skeleton.c:588-610 | a disconnect takes device and interface away and drops the core's reference |
| UsbCalls.CoreWaits | usb/usb-skeleton.c:599-641 | both wait for `io_mutex` and for the writes to be gone |
| UsbReadCache.ReadCache.StartRead | usb/usb-skeleton.c:192-227 | starts a read on a used-up buffer; a failing submission leaves it empty and idle |
| UsbReadCache.ReadCache.Complete | usb/usb-skeleton.c:166-190 | success makes the payload, and nothing else, available and received, failure nothing; the stream stays whole |
| UsbReadCache.ReadCache.HandOut | usb/usb-skeleton.c:287-328 | returns the next bytes of the stream, as many as asked for and there; retries exactly if there are none |
| JournalWalk.WalkReturns | fs/journal/address_mapping.c:98-130 | the walk returns the first failure of its callback, or 0 |
| JournalWalk.WalkCalls | fs/journal/address_mapping.c:112-128 | the callback is called on the in-range buffers up to and including the first failure |
| JournalWalk.CalledInOrder | fs/journal/address_mapping.c:112-128 | those are called in ring order, each once |
| JournalWalk.WalkBuffers | fs/journal/address_mapping.c:112-128 | exactly those buffers change, each as the callback changes it |
| JournalWalk.WalkPartial | fs/journal/address_mapping.c:120-124 | `partial` is set if and only if a visited out-of-range buffer is not uptodate |
| JournalWalk.AccessLedger | fs/journal/address_mapping.c:143-176 | the access callback grants exactly the journalable in-range buffers before the failure |
| JournalWalk.DirtyLedger | fs/journal/address_mapping.c:132-142 | the dirtying callback dirties exactly the journalable ones reached, one credit each at most |
| JournalPage.JournalledPage.Call | fs/journal/address_mapping.c:132-176 | either callback on one buffer: skipped if unmapped or freed, else cleaned and granted, or marked uptodate and dirtied |
| JournalPage.JournalledPage.WalkPageBuffers | fs/journal/address_mapping.c:98-130 | the loop round the ring, which stops on coming back to the head, does one pass of the described walk |
| JournalPage.JournalledPage.DoWritePage | fs/journal/address_mapping.c:178-256 | buffers, ledger, flags, history and result of writepage on every path |
| JournalPage.JournalledPage.DoWriteBegin | fs/journal/address_mapping.c:257-314 | the same for write_begin |
| JournalPage.JournalledPage.ZeroNewBuffers | fs/journal/address_mapping.c:365-370 | on a short copy the new buffers of the part that did not arrive, and only they, become old, dirty and uptodate |
| JournalPage.JournalledPage.DoWriteEnd | fs/journal/address_mapping.c:350-386 | the same for write_end, short copies included |
| JournalSafety.AccessGrants | fs/journal/address_mapping.c:237-239 | the access pass grants and cleans the buffers before its failure, and dirties none |
| JournalSafety.WritePageGuards | fs/journal/address_mapping.c:237-245 | writepage dirties only buffers it has access to if and only if its access pass succeeds or its second pass stops before the failing buffer |
| JournalSafety.WritePageDirtiesUngranted | fs/journal/address_mapping.c:237-245 | on any page, a writepage that dirties a buffer it was refused |
| JournalSafety.WhenAPassFails | fs/journal/address_mapping.c:237-245 | a pass of writepage fails exactly if the library refuses access to, or the dirtying of, some mapped buffer |
| JournalSafety.WritePageCredits | fs/journal/address_mapping.c:222-245 | one credit a dirtied buffer; four suffice for blocks of 1024 bytes or more |
| JournalSafety.WriteEndGuards | fs/journal/address_mapping.c:295-373 | after a write_begin with a fresh handle, what write_end dirties was granted, in range, paid for, and left clean; it is clean still exactly unless it is new and the copy fell short in it |
| JournalSafety.WriteEndUptodate | fs/journal/address_mapping.c:362-375 | exactly when write_end leaves no page uptodate over a stale buffer |
| JournalSafety.WriteEndUptodateOnSuccess | fs/journal/address_mapping.c:372-375 | if the walk returns 0 over mapped buffers the page is uptodate if and only if all its buffers are |
| JournalSafety.EarlyStopHidesAStaleBuffer | fs/journal/address_mapping.c:372-375 | for any page, a write_begin that succeeds and a write_end after it that marks the page uptodate over a stale buffer |
| JournalSafety.ShortCopyDirties | fs/journal/address_mapping.c:365-373 | write_end leaves a clean buffer dirty exactly if it is new and the copy fell short in it; those that got no byte are not handed to the journal |
| JournalSafety.WriteEndSize | fs/journal/address_mapping.c:362-386 | write_end succeeds exactly if its walk and journal_stop do, and then the file reaches to the end of what it reports; the size grows on failures too |
| JournalSafety.EmptyWriteTouches | fs/journal/address_mapping.c:362-373 | a write of which nothing counts as copied hands one block to the journal, the one around `pos`, unless `pos` starts a block; if mapped it becomes uptodate and dirtied, and nothing else does |
| JournalResults.WriteEndBlocks | fs/journal/address_mapping.c:362-373 | block by block: handed to the journal and uptodate are exactly the mapped blocks of the part that arrived, up to the first error; new blocks of the rest are no longer new, and dirty |
| JournalResults.WriteEndPage | fs/journal/address_mapping.c:372-386 | write_end returns the first block's error, else journal_stop's, else how much arrived; the file reaches at least that far |
| JournalResults.WriteEndMarks | fs/journal/address_mapping.c:372-375 | the page becomes uptodate exactly unless the walk passes a block outside the part that arrived which is not |
| JournalResults.AccessBlocks | fs/journal/address_mapping.c:237-239 | access to, and clean, are the mapped blocks before, and up to, the first refusal |
| JournalResults.DirtyBlocks | fs/journal/address_mapping.c:241-243 | dirtied and uptodate are the mapped blocks up to the first refusal of the second pass |
| JournalResults.WritePageResult | fs/journal/address_mapping.c:178-252 | what writepage returns and does to the page on each path: the first pass's error before the second's before journal_stop's, 0 if `__block_write_begin` failed |
| JournalResults.WritePageInFull | fs/journal/address_mapping.c:219-252 | when nothing fails every mapped block has access and is clean, uptodate and in the journal |
| JournalResults.WriteBeginResult | fs/journal/address_mapping.c:257-314 | the same for write_begin |
| JournalRuns.ApplyKeeps | fs/journal/address_mapping.c:178-404 | PageChecked means dirtied with no handle started since, handles alternate, and what the page and the handle are up to follows from the operations, after every operation |
| JournalRuns.InPlaceIsGuarded | fs/journal/address_mapping.c:185-227 | over every run, no in-place write between set_page_dirty and the next writepage that started a handle |
| JournalRuns.InPlaceIsJournaledExactly | fs/journal/address_mapping.c:185-252 | every in-place write was journalled first if and only if no writepage follows, with no set_page_dirty in between, one that got a handle for the dirty page and was then refused a block |
| JournalRuns.WhenAStartIsInVain | fs/journal/address_mapping.c:222-252 | exactly when a writepage of a dirty page leaves it dirty and unseen |
| JournalRuns.UnjournaledInPlaceWrite | fs/journal/address_mapping.c:227-236 | the run that writes in place without journalling |
| JournalRuns.DirtiedPageGetsAHandle | fs/journal/address_mapping.c:398-404 | after set_page_dirty the next writepage does not go in place, and PageChecked stays set exactly until one starts a handle |
| JournalRuns.HandlesAreStopped | fs/journal/address_mapping.c:178-380 | over every run each handle is stopped once before the next starts, and nothing else is stopped; writepages leave open just what was open |
| JournalRuns.HandlesLeakExactly | fs/journal/address_mapping.c:295-313 | no handle is ever left open without a write in progress, if and only if no write_begin is refused access after it started a handle |
| JournalRuns.OpenHandleBlocks | fs/journal/address_mapping.c:205-211 | while a handle is open no operation starts one, until a write_end |
| JournalRuns.LeakedHandleIsUsed | fs/journal/address_mapping.c:279-313 | for any page, a write that leaks its handle and a next one that dirties a buffer under it without access |
| Numbers.DecimalReadsBack | fs/inode_orig.c:147-159 | printed decimal text reads back as the number, or is refused beyond INT_MAX |
| Numbers.OctalReadsBack | fs/inode_orig.c:166-174 | text printed with %03o reads back as the number |
| Numbers.IntText | fs/inode_orig.c:147-159 | digits are decimal, behind 0 octal, behind 0x or 0X hexadecimal, and read as what a long keeps of them if that is an int |
| Numbers.NegativeText | fs/inode_orig.c:182-184 | a minus sign negates; `%u` takes none |
| Numbers.NoNumber | fs/inode_orig.c:147-184 | no text with another character in it, and not the empty one, is a number |
| Numbers.OctalText | fs/inode_orig.c:166-174 | an octal number reads as what a long keeps of it if that is an int |
| Numbers.OctalWidth | fs/inode_orig.c:302-304 | %03o gives three digits at least, and no more zeros than that takes |
| MountOptions.PtsFsInfo.ParseMountOptions | fs/inode_orig.c:119-195 | the strsep loop leaves the record and error of the parse, defaults first, `newinstance` kept on a remount |
| MountOptions.PtsFsInfo.Remount | fs/inode_orig.c:271-289 | returns the parse's error, and the ptmx inode's mode follows the options even then |
| MountOptions.PtsFsInfo.ShowOptions | fs/inode_orig.c:291-310 | appends the shown text to the output and nothing else |
| MountOptions.ParseProduces | fs/inode_orig.c:119-195 | whatever the text, ids and modes are in range, an unset id is 0, and a remount never changes `newinstance` |
| MountOptions.ParseIsFold | fs/inode_orig.c:137-192 | parsing comma-separated options, leading comma included, is applying them in order |
| MountOptions.ParseIsApplyAll | fs/inode_orig.c:137-192 | any text parses as the fold over its non-empty options |
| MountOptions.ParsedFields | fs/inode_orig.c:119-195 | in any text each field is what its last option says, or the default |
| MountOptions.LastOptionWins | fs/inode_orig.c:145-187 | duplicated options resolve to the last occurrence |
| MountOptions.StopsAtFirstBogus | fs/inode_orig.c:188-191 | a failing parse leaves what the options before the first bogus one say |
| MountOptions.ShowIsCommas | fs/inode_orig.c:296-306 | the shown text is the flag-guarded options in order, each behind a comma |
| MountOptions.ShowThenRemount | fs/inode_orig.c:271-310 | remounting with the shown text restores the record if and only if uid and gid are at most INT_MAX, else fails |
| MountOptions.BigUid | fs/inode_orig.c:147-155 | a mount text that sets a uid beyond INT_MAX |
| MountOptions.ParsePrintParse | fs/inode_orig.c:119-310 | parse, print, parse again gives the same record, with the same exact condition |
| MountResults.IdOptions | fs/inode_orig.c:147-164 | which texts set a uid or gid, and to what: every int but -1, as 32 bits |
| MountResults.ModeOptions | fs/inode_orig.c:165-175 | octal modes, masked to twelve bits |
| MountResults.MaxOption | fs/inode_orig.c:181-186 | a maximum from 0 to 2^20, all else refused |
| MountResults.NewinstanceOption | fs/inode_orig.c:176-180 | newinstance counts on a mount, is ignored on a remount |
| MountResults.OtherOptions | fs/inode_orig.c:188-190 | nothing else is an option |
| MountResults.NoOptions | fs/inode_orig.c:125-135 | the defaults; newinstance survives a remount |
| MountResults.OneOptionMount | fs/inode_orig.c:119-195 | a text of one option does what that option does to the defaults, or fails with -EINVAL |
| MountResults.ShownOptions | fs/inode_orig.c:296-306 | an id is shown only if set, a maximum only below the default, the modes always |
| PtyAllocator.FreeFrom | fs/inode_orig.c:504-504 | the id allocator's lowest free id |
| PtyAllocator.PtyTable.NewIndex | fs/inode_orig.c:485-520 | the retry loop gives the lowest free index below `max`, or fails and changes nothing |
| PtyAllocator.KillUndoesNew | fs/inode_orig.c:522-528 | freeing an index just allocated restores the table |
| PtyAllocator.NewUndoesKill | fs/inode_orig.c:485-528 | a freed index below all other free ones is the next one given, which restores the table, unless the ceiling or `max` came down |
| PtyAllocator.FreeKeepsInv | fs/inode_orig.c:522-528 | freeing a live index keeps the accounts |
| PtyAllocator.NewIndexExactly | fs/inode_orig.c:497-519 | -ENOSPC if and only if the ceiling is reached or all of 0..max-1 are taken |
| PtyAllocator.FailureChangesNothing | fs/inode_orig.c:494-516 | -ENOMEM without memory, -ENOSPC at the ceiling whatever the id allocator would do, -EIO for its other failures, a retry when it asks; none changes any state |
| PtyAllocator.RetriesEnd | fs/inode_orig.c:493-510 | the retry loop ends with the first attempt that does not ask for a retry |
| PtyAllocator.RemountKeepsInv | fs/inode_orig.c:271-289 | a remount changes only this instance's options, to those parsed, keeps its `newinstance`, and keeps the accounts |
| PtyAllocator.MountKeepsInv | fs/inode_orig.c:404-448 | a mount whose options parse adds an empty instance with just those options, another changes nothing; the accounts are kept |
| PtyAllocator.Accounting | fs/inode_orig.c:485-528 | over every run the count is the total of all id sets and within pty_limit, newinstance mounts within pty_limit - pty_reserve |
| PtyAllocator.AccountingFromBoot | fs/inode_orig.c:45-49 | the same from boot |
| PtyAllocator.InodesAreDistinct | fs/inode_orig.c:584-584 | root, ptmx and live ptys have pairwise different inode numbers |
| PtyAllocator.InodeNumbers | fs/inode_orig.c:239-584 | they are 1, 2, and index + 3 |
| RadixWalk.MaxIndexIs | memory/list_buffer.c:81-91 | the table entry for height h is 64^h - 1, or all ones where that does not fit |
| RadixWalk.LookupInSlot | memory/list_buffer.c:181-199 | shift and mask find, in slot k, what index minus k * 64^(h-1) finds in the subtree |
| RadixWalk.ScanIsLeaves | memory/list_buffer.c:179-213 | looking up all indices of a tree finds its leaves, each once, left to right |
| RadixWalk.ScanFinds | memory/list_buffer.c:179-213 | what the scan finds are the pages at indices below its bound, in increasing order |
| RadixWalk.LastIndexIs | memory/list_buffer.c:151-171 | the 32-bit loop bound: 64^h - 1 up to height 5, 2^32 - 1 above |
| RadixWalk.RadixNodeHasBuffer | memory/list_buffer.c:22-48 | going round the ring counts its buffers |
| RadixWalk.InitMaxIndex | memory/list_buffer.c:93-98 | fills the table |
| RadixWalk.Find | memory/list_buffer.c:181-199 | the descent by shifts finds what the digits say |
| RadixWalk.WalkThrough | memory/list_buffer.c:142-213 | page and buffer counts are those of the indices up to the bound; up to height 5, of all leaves |
| RadixWalk.WalkIsFold | memory/list_buffer.c:167-213 | up to height 5 the walk visits exactly the leaves |
| RadixWalk.WalkIsFoldExactly | memory/list_buffer.c:151-179 | at any height, if and only if no page has an index of 2^32 or more |
| RadixWalk.WalkMissesHighPage | memory/list_buffer.c:151-179 | a tree of height 6 whose page the walk misses |
| KeyQueue.StepKeepsInv | protect/my_spin.c:36-141 | every step of a process or handler on any CPU keeps exclusion, order and count |
| KeyQueue.QueueIsSafe | protect/my_spin.c:36-141 | over every run: first in first out, the count right when the lock is free, a read holding just the keys it dequeued, no handler spinning under its own CPU's lock |
| KeyQueue.HolderReleases | protect/my_spin.c:43-63 | a lock holder comes closer to releasing with every step of its CPU |
| KeyCalls.HandlerAlone | protect/my_spin.c:82-98 | an interrupt that gets memory and the lock puts its own key at the end of the list |
| KeyCalls.HandlerWithout | protect/my_spin.c:86-92 | without memory it drops the key and changes nothing; with the lock taken it spins |
| KeyCalls.ReadAlone | protect/my_spin.c:36-72 | a read takes the oldest keys, as many as asked for and there, and returns their number, interrupts as before; or loses them with -EFAULT |
| KeyCalls.ReadNothing | protect/my_spin.c:45-54 | of nothing, or of an empty queue, 0; without memory -ENOMEM; nothing taken |
| KeyCalls.ReadSpins | protect/my_spin.c:43-43 | a read spins while the lock is taken |
| KeyCalls.ExitAlone | protect/my_spin.c:125-141 | unloading ends the interrupts and frees every key left |
| KeyCalls.ExitWaits | protect/my_spin.c:128-128 | and waits until nothing is active |
| KeyCalls.NoKeyIsLost | protect/my_spin.c:36-98 | over every run, on every CPU: the keys taken from the port are, in order, those put on the list and the one in hand; the keys removed are those handed over and those still held |
| KeyCalls.HistoriesAreTraffic | protect/my_spin.c:56-94 | over every run the keys enqueued and dequeued are those, in the order in which the lock was held |
| KeyQueue.KeyDevice.Enqueue | protect/my_spin.c:86-97 | appends the key, or nothing if the allocation fails |
| KeyQueue.KeyDevice.Dequeue | protect/my_spin.c:45-62 | takes the oldest keys, as many as asked for and there; a failed allocation takes none |

## Left out

- Pipe: `nreaders`/`nwriters`, device registration and proc output; a user copy only succeeds or fails. Memory is sequentially consistent, and an unlocked test loads each pointer once. Pointers are offsets from `start`.
- PipeProtocol.PipeIsSafe: says when a sleeper is owed a wake-up, not that the scheduler eventually runs whoever owes it.
- PipeProtocol.ResetStrandsWriters: the two stores of a reset are modelled in the order `wp`, then `rp`.
- USB: suspend and autosuspend, probe and its error path, the read URB at the time the device is freed, reads of `interface` for a log message after it was cleared, and the payload of write URBs. A give-back (unanchoring and callback) is one step, fields protected by `io_mutex` that no completion touches change in one step, and the core never overlaps reset with disconnect.
- UsbSystem.ResourcesAreConserved: `errors` is part of the state but nothing is said about an error being reported once, since skel_read clears it without `err_lock`.
- UsbSystem.LifetimeIsSafe: opens are excluded from the moment disconnect gives back the minor.
- UsbReadCache.ReadCache: only the read cache is also modelled in place; the rest of the driver is a transition system over values.
- Journal library: a ledger of one handle; what it returns for each buffer is an input. `__block_write_begin` may leave any buffers.
- JournalPage.JournalledPage.DoWriteBegin: write_begin's paths that return 0 without a handle of their own are modelled, but not a write_end after them, which would stop another's handle or none.
- JournalPage.JournalledPage.DoWriteEnd: page contents, page locks and references are not modelled. `page_zero_new_buffers` is the kernel's and not part of this repository; its effect on the buffers' flags is a small function here.
- JournalRuns.HandlesAreStopped: one task on one page; handles of other code of the task are open around single calls.
- JournalPage.JournalledPage.WalkPageBuffers: the ring is a sequence with successor (i + 1) mod n, and n times the block size fits 32 bits.
- `example_journalled_write_end111` (unused), releasepage, fsync and commits; `fs/jbd2/address_mapping.c`, an earlier copy with one credit.
- Pty: super blocks, dentries, ptmx creation, user namespaces other than the initial one, sysctl changes of the limits, and the destruction of an instance. `match_token`, `match_int`, `match_octal`, `strsep` and the id allocator belong to the kernel and are not part of this repository; they are small functions here, as are NR_UNIX98_PTY_MAX (2^20) and the error numbers.
- PtyAllocator.Accounting: an index is freed only while it is live.
- Radix walk: a root that is a page itself, RCU, concurrent changes to the tree, text output, and overflow of the `int` counters; shifts and masks are division and remainder.
- Keyboard queue: the list is a sequence; `free_irq` and the module's reference count are a wait until no call and no handler is active; after `my_exit` emptied the list the count is stale, and the device is freed.
- The other directories (char, time, io, interrupt, pci, net, debug, platform) would only add easy members or device I/O.
