# Verified models of Twili's queues, pipes, codecs and launch machinery

Twili is a debug monitor for the Nintendo Switch. It runs on the console (`twili/`), and is driven from a PC by a daemon
(`twib/daemon/`) and a tool (`twib/tool/`). This project models the state machines that data and ownership pass through
between them, and proves what each is for. `dafny verify dfyconfig.toml` checks everything.

* **The dispatch queue of the daemon** (`FreeList`, `Circular`, `DequeueCounters`, `BlockIndex`, `Semaphore`, `Dispatch`):
  interleaving models with one atomic load, store, fetch-and-add or compare-exchange a step, for any number of threads.
  `FreeListCalls`, `DequeueCalls`, `BlockIndexCalls`, `SemaphoreCalls` and `DispatchCalls` say what a whole call returns when
  nobody disturbs it, `FreeListProgress` and `SemaphoreProgress` that a call that was interrupted anywhere can end.
  The main results hold for every schedule.
* **Buffer and pipe** (`Buffer`, `PipeSpec`, `Pipe`, `PipeRuns`, `PipeEnds`): the compacting buffer over an array, refined to a byte
  queue; the pipe over it, refined to functions on values; and theorems over whole runs of those functions.
* **Argument and response codecs** (`Arguments`, `Requests`, `RequestHandler`, `Responses`, `Responder`, `HostReader`): the
  device's resumable unpacking against the host's packing, and the device's packing against the host's unpacking.
* **Message framing** (`LittleEndian`, `Framing`, `MessageConnection`) and **the GDB packet layer** (`HexCodec`,
  `GdbPackets`, `GdbFrames`, `GdbConnection`), which follows the GDB Remote Serial Protocol (GDB manual, appendix E, section E.1).
* **Daemon routing and ownership** (`Daemons`, `DaemonRequests`, `DaemonLoop`) and **the USB transfer machine** (`UsbMachine`,
  `UsbProgress`, `UsbDevice`).
* **The ELF core writer** (`ElfCore`, `ElfText`, `CrashReport`), see the System V gABI, chapters 4 and 5.
* **Shell process launch** (`ShellLaunch`, `ShellRuns`, `ShellOutcomes`, `ShellTracker`).

`Common` and `ModArith` hold sums over threads, finite ranges and facts about remainders.

Where the source updates fields, a class with those fields has methods that are proved equal to functions on the abstract
state; the theorems are then about all runs of those functions. The concurrent parts are state machines on values, since
their steps belong to different threads.

## Where the code differs from its intent

* `FlushWritePendingState` copies into reserved room but never commits (`twili/TwibPipe.cpp:260-277`). The pipe model has
  both versions, by the flag `commits`. `PipeRuns.PipeConserves` is about a flush that commits, or any flush with limit 0;
  `AsWrittenConservesExactly`, `AsWrittenReadKeepsBytes` and `AsWrittenLosesBytes` are about the code as written.
* `message_buffer.Write(ch ^ 0x20)` writes an `int` (`twib/tool/GdbConnection.cpp:75`). The packet layer has both versions,
  by the flag `wide`; `GdbPackets.StoredExactly` and `FramesRoundtrip` say when each is right.
* A comment at `twib/common/concurrentqueue.h:2870-2872` expects a signed division in the block-index lookup. The divisor
  is a `size_t`, so the division is unsigned; the model follows the code, and the lookup is right because the capacity
  divides the number of blocks a word can count.
* A read callback that closes the reader while a write is pending returns before the bytes it took are marked as read
  (`twili/TwibPipe.cpp:124-134`). A later read gets them again exactly when the pipe has a buffer and the callback took
  something (`PipeRuns.ClosingReadRepeatsExactly`, `ClosingInsideRepeats`); `PipeConserves` covers every other run.
* A close request for a device that is gone is answered before the object is disowned
  (`twib/daemon/Daemon.cpp:158-170` before `183-192`). The object stays owned and is closed once by its destructor.
* Disowning compares object ids only (`twib/daemon/Daemon.cpp:185`). It is right exactly when the client owns no object of
  another device with the same id (`Daemons.DisownsExactly`); ownership over whole runs is stated for one device.
* Client ids are random and only differ from those in the daemon's map (`twib/daemon/Daemon.cpp:99-109`), so a response in
  flight to a client that left reaches a new client given the same id (`Daemons.ReusedIdReceives`, `DeliveredUnlessReused`).
* A request whose payload ends before its arguments gets no response (`twili/bridge/RequestHandler.hpp:118-123`);
  `Requests.SilentExactly` says exactly when.
* A process in `ShimSuspended` keeps that state when it is killed (`twili/process/MonitoredProcess.cpp:106-111`), so a
  second kill calls an empty callback; `ShellLaunch.CrashesExactly`, `ShellRuns.KilledTwice`.
* A launch request is not always answered: a process whose preparation fails is dropped from the queue without an answer
  (`twili/process/ShellTracker.cpp:159`). `ShellRuns.DroppedRequest` is such a run, `DropsExactly` says which launch attempt
  drops which process, `OwingExactly` that no other request stays open, and `DroppedNeverAnswered` that these do for good.
* A process that exits while it is in limbo is attached all the same when its kernel process shows up, and is not tracked any
  more (`twili/process/ShellTracker.cpp:62-70`, `169-185`), so it never exits again; `ShellOutcomes.ExitedExactly`,
  `ExitsInLimbo`.
* Two requests of the daemon under the same random tag lose the first promise (`twib/daemon/LocalClient.cpp:36-47`);
  `DaemonRequests.SameTagLoses`.
* A pending write that is flushed whole after the writer was closed is reported as done, not as refused
  (`twili/TwibPipe.cpp:279-288`); `PipeEnds.PendingOutlivesClose` is such a run, `PipeEnds.WriteReports` says
  exactly which writes are refused.
* Note names are stored without a terminating null counted in their size (`twili/ELFCrashReport.cpp:53`); a reader is
  modelled by the sizes in the notes.

## Model

| member | source | states |
|---|---|---|
| `FreeList.StepPreserves` | twib/common/concurrentqueue.h:1375-1466 | every atomic step of `add`, `try_get` or `add_knowing_refcount_is_zero`, by any of any number of threads, keeps the list a finite chain without repetition and keeps each block in one place with a matching reference word |
| `FreeList.EveryBlockHasOnePlace` | twib/common/concurrentqueue.h:1375-1466 | in every interleaving each block is with its caller, on the chain, flagged to be added with a live reference, or in the hands of exactly one adding thread; the chain from the head is acyclic |
| `FreeList.QuiescentListIsComplete` | twib/common/concurrentqueue.h:1387-1454 | when every call has finished no block is lost: each is with a caller or reachable from the head |
| `FreeList.TakenBlockIsUnflagged` | twib/common/concurrentqueue.h:1404-1413 | after a winning compare-exchange on the head the taken block does not have the should-be-on-list flag, so the assertion there holds |
| `FreeList.NoDoubleHandOut` | twib/common/concurrentqueue.h:1375-1454 | in every interleaving, between two hand-outs of the same block it was added back |
| `FreeList.GivenWasNotHeld` | twib/common/concurrentqueue.h:1398-1437 | `try_get` returns only blocks no caller has |
| `FreeListCalls.UndisturbedAdd` | twib/common/concurrentqueue.h:1375-1387 | an `add` that no other thread disturbs puts its block at the front of the list |
| `FreeListCalls.UndisturbedGet` | twib/common/concurrentqueue.h:1389-1429 | a `try_get` that no other thread disturbs hands out the block at the front of a list that is not empty |
| `FreeListCalls.UndisturbedGetNone` | twib/common/concurrentqueue.h:1389-1429 | and none if the list is empty |
| `FreeListCalls.QuietBetweenCalls` | twib/common/concurrentqueue.h:1375-1454 | in every reachable state with all threads idle the list is in the state the two laws above begin in |
| `FreeListProgress.AloneEnds` | twib/common/concurrentqueue.h:1389-1466 | from every reachable state, a thread in the middle of a call that runs alone ends it, whichever retry it is in |
| `Circular.WordSub` | twib/common/concurrentqueue.h:405-417 | unsigned subtraction of stored indices is the difference of the indices modulo the word |
| `Circular.CircularIsOrder` | twib/common/concurrentqueue.h:405-417 | within half the range, `circular_less_than` on wrapped words is the order of the unbounded indices |
| `Circular.CircularIsOrderExactly` | twib/common/concurrentqueue.h:405-417 | at distance up to half the range it agrees with the order if and only if the indices are not exactly half the range apart in one direction |
| `DequeueCounters.HeadWithinTail` | twib/common/concurrentqueue.h:2474-2543 | the head, with the wins not yet advanced added, never exceeds the tail |
| `DequeueCounters.WinnersExact` | twib/common/concurrentqueue.h:2479-2486 | the word comparisons of single and bulk consumers count exactly the tickets below the tail corrected by the overcommit that was read |
| `DequeueCounters.DecisionCovered` | twib/common/concurrentqueue.h:2474-2543 | a decision made with a stale overcommit value never lets more tickets win than there are published elements |
| `DequeueCounters.DecideCounts` | twib/common/concurrentqueue.h:2696-2713 | deciding a batch of tickets adds exactly its winners and its losers |
| `DequeueCounters.ProducerPreserves` | twib/common/concurrentqueue.h:2409-2471 | every step of the enqueuer keeps the counters consistent and head and tail within half the range |
| `DequeueCounters.ConsumerPreserves` | twib/common/concurrentqueue.h:2474-2543 | every step of any consumer, single or bulk, keeps the counters consistent |
| `DequeueCounters.ConsumersShareTheQueue` | twib/common/concurrentqueue.h:2409-2796 | in every run with one producer and any number of single and bulk consumers, the indices won are pairwise disjoint, already published, and in order spell the front of what was enqueued |
| `DequeueCounters.QuiescentCountersExact` | twib/common/concurrentqueue.h:2474-2543 | when all calls have finished, head is the optimistic count minus the overcommit |
| `DequeueCalls.UndisturbedDequeue` | twib/common/concurrentqueue.h:2474-2796 | from every reachable state with all consumers idle, a single or bulk dequeue that nobody disturbs returns, and takes the elements at the head, as many as it wants and there are, in one claim; none exactly from an empty queue |
| `DequeueCalls.UndisturbedEnqueue` | twib/common/concurrentqueue.h:2409-2471 | an enqueue that nobody disturbs appends its element, unless a new block would reach half the range from the head |
| `DequeueCalls.ClaimsTake` | twib/common/concurrentqueue.h:2479-2543 | in every run in which every call wants something, every claim takes something: a consumer that lost makes none |
| `Semaphore.StepBalances` | twib/common/blockingconcurrentqueue.h:266-415 | each atomic step moves tokens between count, kernel, waiters and signallers without creating or losing any |
| `Semaphore.StepPreserves` | twib/common/blockingconcurrentqueue.h:266-415 | every step of every thread keeps both conservation laws |
| `Semaphore.SemaphoreConserves` | twib/common/blockingconcurrentqueue.h:266-415 | in every run, with timeouts: acquired + committed waiters + count = initial + signalled, and committed waiters = kernel count + releases to be posted + the negative part of the count |
| `Semaphore.TimedOutWaiterIsServed` | twib/common/blockingconcurrentqueue.h:285-307 | a timed-out waiter that faces a non-negative count has a kernel token present or on its way |
| `Semaphore.TimedOutRetryEnds` | twib/common/blockingconcurrentqueue.h:296-307 | once pending releases are posted, an undisturbed retry of a timed-out waiter ends in two steps: with a token if the count is not negative, and otherwise with its decrement taken back |
| `Semaphore.NobodySleepsOnTokens` | twib/common/blockingconcurrentqueue.h:364-415 | if a waiter sleeps while no kernel token is present and no release is pending, everything put in has been granted |
| `Semaphore.ActsAsCounter` | twib/common/blockingconcurrentqueue.h:353-415 | the tokens put in and not yet granted grow by exactly what a signal adds, shrink by exactly what is granted, and never go below zero |
| `SemaphoreCalls.UndisturbedTryWait` | twib/common/blockingconcurrentqueue.h:353-362 | an undisturbed `tryWait` takes as many tokens as it wants and the count has |
| `SemaphoreCalls.UndisturbedWait` | twib/common/blockingconcurrentqueue.h:364-400 | an undisturbed `wait` takes tokens from a positive count; otherwise it sleeps on the kernel semaphore with the count one lower |
| `SemaphoreCalls.UndisturbedWake` | twib/common/blockingconcurrentqueue.h:286-346 | a sleeping waiter with a kernel token wakes with it and takes what else it wants and the count has |
| `SemaphoreCalls.SleepsOn` | twib/common/blockingconcurrentqueue.h:286-307 | a sleeping waiter without a kernel token stays asleep unless its wait is timed and the time is over |
| `SemaphoreCalls.UndisturbedSignal` | twib/common/blockingconcurrentqueue.h:406-415 | a signal adds its tokens and posts one to the kernel for each waiter it finds, as far as they go |
| `SemaphoreProgress.AloneEnds` | twib/common/blockingconcurrentqueue.h:266-415 | from every reachable state with no release to be posted, a thread that runs alone ends its call, or sleeps on a kernel semaphore without tokens |
| `BlockIndex.LookupSlotExact` | twib/common/concurrentqueue.h:2860-2876 | from the tail slot and its wrapped key the slot of any block is found, whatever the size of the index |
| `BlockIndex.CopySlots` | twib/common/concurrentqueue.h:2878-2908 | the copying loop of `new_block_index` lists the old slots in order from the one after the tail |
| `BlockIndex.DoubledOk` | twib/common/concurrentqueue.h:2878-2916 | the doubled index is well formed and its fresh entries follow the old ones |
| `BlockIndex.ProducerPreserves` | twib/common/concurrentqueue.h:2817-2854 | insertion, slot reuse, doubling and rewind of the index keep every live block at its entry |
| `BlockIndex.ConsumerPreserves` | twib/common/concurrentqueue.h:2855-2876 | the loads of a lookup, emptying and clearing by any number of consumers keep every live block at its entry |
| `BlockIndex.CountFull` | twib/common/concurrentqueue.h:1511-1550 | the counter of emptied elements reaches the block size exactly when every element of the block is done |
| `BlockIndex.LookupFindsBlock` | twib/common/concurrentqueue.h:2817-2920 | in every interleaving, for every element not yet dequeued the lookup finds the entry keyed by its block's base and holding its block |
| `BlockIndex.SlowLookupFindsBlock` | twib/common/concurrentqueue.h:2855-2876 | so does a lookup whose loads are separated by any steps of other threads |
| `BlockIndex.ClearedOnceWhenEmpty` | twib/common/concurrentqueue.h:2505-2531 | a block's entry is cleared by exactly one consumer, after all its elements are done |
| `BlockIndexCalls.LiveExactly` | twib/common/concurrentqueue.h:2488-2530 | in every reachable state with all threads idle the blocks in the index are exactly those with an element that is not done |
| `BlockIndexCalls.UndisturbedEnqueue` | twib/common/concurrentqueue.h:2409-2471 | an undisturbed enqueue adds its element, with its block in the index, always in the middle of a block and otherwise if there is memory; without memory nothing changes |
| `BlockIndexCalls.UndisturbedDequeue` | twib/common/concurrentqueue.h:2488-2530 | an undisturbed dequeue marks its element done and takes the block out of the index exactly if it was the last one |
| `Dispatch.TokenMeansElement` | twib/common/blockingconcurrentqueue.h:529-550 | a token in the consumer's hand means that some listed producer has an element |
| `Dispatch.PostPreserves` | twib/common/concurrentqueue.h:3160-3173 | each step of a posting thread (publish, list the producer, signal) keeps tokens, elements and the producer list in balance |
| `Dispatch.ScanPreserves` | twib/common/concurrentqueue.h:1040-1072 | each step of the scored scan keeps an element ahead of it until one is found |
| `Dispatch.TakeStep` | twib/common/concurrentqueue.h:2474-2490 | with one dequeuing thread both comparisons of the dequeue succeed for the best-scored producer |
| `Dispatch.TakePreserves` | twib/common/concurrentqueue.h:2474-2543 | taking an element keeps the balance |
| `Dispatch.SizeApproxExact` | twib/common/concurrentqueue.h:1666-1671 | `size_approx` is exact for a tail not older than the head |
| `Dispatch.AbortUnreachable` | twib/common/blockingconcurrentqueue.h:764-772 | in every interleaving of any number of posting threads with the single dispatching thread of `Daemon::Process`, the abort in `wait_dequeue` is unreachable and no dequeue misses; the jobs published are as many as were returned, await a token or a signal, or are being dequeued, and the heads count exactly the jobs returned |
| `DispatchCalls.UndisturbedPost` | twib/common/blockingconcurrentqueue.h:529-550 | an undisturbed post publishes one job and gives one token, unless a new block would reach half the range from the head |
| `DispatchCalls.UndisturbedDispatch` | twib/common/concurrentqueue.h:1040-1072 | with a token there, an undisturbed `wait_dequeue` returns one job, of the producer that has most of the first three that have any |
| `DispatchCalls.AloneEnds` | twib/common/blockingconcurrentqueue.h:764-772 | from every reachable state, a thread in the middle of a post, or of `wait_dequeue` with its token, ends it if it runs alone |
| `Buffers.Buffer.constructor` | common/Buffer.cpp:29-31 | an empty unlimited buffer |
| `Buffers.Buffer.Limited` | common/Buffer.cpp:33-36 | an empty buffer whose vector is within its limit |
| `Buffers.Buffer.FromBytes` | common/Buffer.cpp:38-40 | a buffer with exactly these unread bytes |
| `Buffers.Buffer.Compact` | common/Buffer.cpp:142-146 | the in-place move keeps the unread bytes, now at the front |
| `Buffers.Buffer.Grow` | common/Buffer.cpp:124 | growing the vector keeps the unread bytes |
| `Buffers.Buffer.EnsureSpace` | common/Buffer.cpp:116-127 | room is made exactly when unread plus size is within the limit; the unread bytes stay |
| `Buffers.Buffer.TryEnsureSpace` | common/Buffer.cpp:129-140 | room for the size, or else for all the limit leaves; the unread bytes stay |
| `Buffers.Buffer.Write` | common/Buffer.cpp:45-52 | appends all the bytes or changes nothing, failing exactly when they would exceed the limit |
| `Buffers.Buffer.Reserve` | common/Buffer.cpp:68-71 | offers at least the smaller of the size and what the limit leaves, and never more than the limit leaves |
| `Buffers.Buffer.Fill` | common/Buffer.hpp:41-48 | copying into reserved room leaves the unread bytes alone |
| `Buffers.Buffer.MarkWritten` | common/Buffer.cpp:73-75 | commits the bytes that were copied into reserved room |
| `Buffers.Buffer.Read` | common/Buffer.cpp:77-84 | takes exactly the bytes asked for from the front, or nothing when there are fewer |
| `Buffers.Buffer.ReadInto` | common/Buffer.hpp:91-97 | moves exactly the bytes asked for to the end of the other buffer, which must have room for them, or nothing when fewer are unread |
| `Buffers.Buffer.MarkRead` | common/Buffer.cpp:99-101 | drops bytes from the front |
| `Buffers.Buffer.Clear` | common/Buffer.cpp:103-106 | drops all bytes |
| `Buffers.Buffer.ReadAvailable` | common/Buffer.cpp:108-110 | the number of unread bytes |
| `Buffers.Buffer.GetData` | common/Buffer.cpp:148-150 | a copy of the unread bytes |
| `Buffers.Buffer.Peek` | common/Buffer.cpp:95-97 | the first unread byte |
| `PipeSpec.FlushValid` | twili/TwibPipe.cpp:260-277 | after a flush a write is pending only if bytes of it are left |
| `PipeSpec.ReadValid` | twili/TwibPipe.cpp:84-178 | a read keeps the phases consistent: a waiting read faces an empty buffer before the end, a pending write has bytes left |
| `Pipes.TwibPipe.constructor` | twili/TwibPipe.cpp:37-40 | an idle, empty, open pipe |
| `Pipes.TwibPipe.CopyToBuffer` | twili/TwibPipe.cpp:260-263 | copies what the limit leaves room for; the bytes join the buffer only if they are committed |
| `Pipes.TwibPipe.FlushWritePendingState` | twili/TwibPipe.cpp:260-288 | the flush over the real buffer is the flush of the specification, in both versions |
| `Pipes.TwibPipe.ReadIdleState` | twili/TwibPipe.cpp:88-108 | an idle read delivers the buffered bytes, reports the end, or waits |
| `Pipes.TwibPipe.Read` | twili/TwibPipe.cpp:84-178 | a read does what the specification says in every state it is allowed in |
| `Pipes.TwibPipe.ReadPastPendingWrite` | twili/TwibPipe.cpp:118-173 | a read while a write stays pending: buffered bytes first, then bytes of the write, unless its callback closed the reader |
| `Pipes.TwibPipe.CloseInside` | twili/TwibPipe.cpp:124-134 | a close from inside the read callback leaves the pending state only for a closed reader |
| `Pipes.TwibPipe.Write` | twili/TwibPipe.cpp:180-224 | a write is buffered, made pending, or handed to the waiting reader, as the specification says |
| `Pipes.TwibPipe.CloseReader` | twili/TwibPipe.cpp:226-241 | ends the pipe and calls whichever callback waits |
| `Pipes.TwibPipe.CloseWriter` | twili/TwibPipe.cpp:243-258 | ends the pipe; a waiting reader is told, a pending write stays |
| `PipeRuns.FlushLoses` | twili/TwibPipe.cpp:260-277 | a flush loses bytes exactly when it does not commit and there is room: min(pending, limit - buffered) of them |
| `PipeRuns.ApplyConserves` | twili/TwibPipe.cpp:84-288 | every operation conserves bytes, but for those a flush lost or a reader close discarded, and always conserves callbacks |
| `PipeRuns.ApplyValid` | twili/TwibPipe.cpp:84-288 | every operation keeps the phases consistent; the end of file stays set |
| `PipeRuns.StepPreserves` | twili/TwibPipe.cpp:84-288 | every operation keeps the accounts of a whole run |
| `PipeRuns.PipeConserves` | twili/TwibPipe.cpp:84-288 | over every run, with a committing flush or limit 0 as written: delivered + buffered + pending bytes are, in order, the bytes accepted, up to a reader close; after one they are a front part of them, unless a read callback that closed the reader had taken buffered bytes |
| `PipeRuns.AsWrittenConservesExactly` | twili/TwibPipe.cpp:260-277 | as written, for any limit: a run without a discarding close keeps its bytes if and only if each of its reads that faces a pending write finds the buffer full, and the pipe has no buffer or the callback takes nothing |
| `PipeRuns.LosesExactly` | twili/TwibPipe.cpp:84-288 | an operation loses bytes if and only if it is a read that fails that test |
| `PipeRuns.ClosingReadRepeatsExactly` | twili/TwibPipe.cpp:114-134 | a read callback that closes the reader leaves the bytes it took to be read again if and only if the pipe has a buffer and it took something |
| `PipeRuns.CutKeepsFront` | twili/TwibPipe.cpp:114-134 | any other close of the reader leaves a front part of the bytes held |
| `PipeRuns.ClosingInsideRepeats` | twili/TwibPipe.cpp:114-134 | a run of a committing pipe of limit one whose reader gets its first byte twice |
| `PipeRuns.AsWrittenReadKeepsBytes` | twili/TwibPipe.cpp:110-173 | as written, a read facing a pending write keeps every byte if and only if the buffer is full and the pipe is synchronous or the reader takes nothing or closes |
| `PipeRuns.AsWrittenLosesBytes` | twili/TwibPipe.cpp:260-277 | as written, a two byte write to a pipe of limit one reaches the reader without its first byte |
| `PipeRuns.CallbacksOnce` | twili/TwibPipe.cpp:84-288 | each read and write issued has had its callback called exactly once or is still owed it |
| `PipeRuns.EndOfFileMeansDrained` | twili/TwibPipe.cpp:98-103 | end of file is reported only when it is set and nothing is buffered or pending, and then everything accepted was delivered |
| `PipeRuns.EndIsSticky` | twili/TwibPipe.cpp:180-187 | once the end is set it stays set and no write is accepted |
| `PipeEnds.EndExactly` | twili/TwibPipe.cpp:226-258 | in every run the end of file is set exactly when some operation closed the reader or the writer, from outside or from a read callback |
| `PipeEnds.ReadAnswers` | twili/TwibPipe.cpp:84-178 | a read of a pipe that holds bytes is offered all of them, or as many as the buffer holds, at once; an empty pipe answers with the end of file if it is set and makes the read wait otherwise |
| `PipeEnds.ClosedReadEnds` | twili/TwibPipe.cpp:98-103 | in every run a read of a closed pipe that holds nothing is told the end of file |
| `PipeEnds.WaitingReadAnswered` | twili/TwibPipe.cpp:203-258 | a waiting read is offered all that is written, or told the end of file by either close |
| `PipeEnds.WriteReports` | twili/TwibPipe.cpp:180-241 | a write is reported as refused if and only if it came after the end or the reader was closed while it was pending |
| `PipeEnds.PendingOutlivesClose` | twili/TwibPipe.cpp:243-288 | a run in which a write that is pending when the writer is closed is still reported as done |
| `PipeEnds.WriteAnswers` | twili/TwibPipe.cpp:180-224 | a write is done at once if and only if it is empty, refused, fits into the buffer, or is taken whole by a waiting read; the rest is pending otherwise |
| `PipeEnds.ReadEndsWrite` | twili/TwibPipe.cpp:110-178 | a read ends a pending write if and only if the bytes still held fit into the buffer before or after it |
| `LittleEndian.ValueOfBytes` | common/Buffer.hpp:65-69 | storing a number in some bytes keeps its remainder modulo their range |
| `LittleEndian.BytesOfValue` | common/Buffer.hpp:79-83 | reading bytes as a number and storing it gives the bytes back |
| `LittleEndian.DigitIs` | common/Buffer.hpp:65-69 | byte `i` of a stored number counts powers of 256: the least significant byte comes first |
| `Framing.HeaderRoundtrip` | common/Protocol.hpp:28-41 | a message header is recovered from its 32 bytes |
| `Framing.HeaderRoundtripBack` | common/Protocol.hpp:28-41 | any 32 bytes are recovered from the header read from them |
| `Framing.IdsRoundtrip` | twib/common/MessageConnection.cpp:58-61 | object ids are recovered from their bytes |
| `Framing.HeaderLayout` | common/Protocol.hpp:28-41 | the offsets of the fields of a header: peer, object, command or result, tag, payload size, object count |
| `Framing.MessageLayout` | twib/common/MessageConnection.cpp:62-79 | a message is 32 header bytes, the payload, and four bytes for each object id, in order |
| `Framing.FirstOfEncoded` | twib/common/MessageConnection.cpp:33-79 | a message followed by anything is found complete at the front, and what follows is left |
| `Framing.EncodedFirst` | twib/common/MessageConnection.cpp:33-69 | a complete front is the encoding of the message read from it |
| `Framing.BatchOfSent` | twib/common/MessageConnection.cpp:33-79 | parsing what was sent gives the messages sent and leaves an unfinished one untouched |
| `Framing.BatchSpellsInput` | twib/common/MessageConnection.cpp:33-69 | what was parsed and what is left spell out the input: nothing is invented or lost |
| `Framing.BatchInstalments` | twib/common/MessageConnection.cpp:33-69 | parsing in two instalments is parsing at once |
| `Framing.ReceiveIsBatch` | twib/common/MessageConnection.cpp:33-69 | how the bytes are cut into pieces does not matter |
| `Framing.AnyChunkingDelivers` | twib/common/MessageConnection.cpp:33-79 | any pieces of the bytes of any list of messages with true sizes yield exactly those headers, payloads and ids, in order |
| `Framing.NothingEarlyOrStuck` | twib/common/MessageConnection.cpp:33-69 | at any point exactly the messages whose last byte has arrived have been emitted |
| `MessageConnections.Connection.constructor` | twib/common/MessageConnection.cpp:27-28 | a connection with nothing received |
| `MessageConnections.Connection.Receive` | twib/common/SocketMessageConnection.cpp:75-78 | bytes stored between calls join what is pending |
| `MessageConnections.Connection.RequestInput` | twib/common/MessageConnection.cpp:34 | a transport that has input hands it over in order |
| `MessageConnections.Connection.TakeHeader` | twib/common/MessageConnection.cpp:36-43 | reads a whole header or nothing |
| `MessageConnections.Connection.TakePayload` | twib/common/MessageConnection.cpp:47-55 | reads the whole payload or nothing |
| `MessageConnections.Connection.TakeIds` | twib/common/MessageConnection.cpp:58-65 | reads all object ids or nothing, and then starts afresh |
| `MessageConnections.Connection.Advance` | twib/common/MessageConnection.cpp:35-66 | one pass of the loop body emits a message that accounts for the bytes consumed, or finds that none is complete and loses nothing |
| `MessageConnections.Connection.Finish` | twib/common/MessageConnection.cpp:58-66 | the last part of a message completes its encoding |
| `MessageConnections.Connection.HaveInput` | twib/common/MessageConnection.cpp:34 | the loop ends only when no whole message is pending |
| `MessageConnections.Connection.Turn` | twib/common/MessageConnection.cpp:34-66 | one turn of the loop |
| `MessageConnections.Connection.Process` | twib/common/MessageConnection.cpp:33-69 | returns a message whose encoding heads the stream, or consumes all input and leaves no whole message |
| `MessageConnections.Connection.SendMessage` | twib/common/MessageConnection.cpp:71-79 | appends exactly the encoding of the message |
| `MessageConnections.Connection.ProcessAll` | twib/daemon/SocketFrontend.cpp:119-132 | taking messages until there is none is the batch parse of everything that arrived |
| `HexCodec.BytesRoundtrip` | twib/tool/GdbConnection.cpp:235-301 | hex digits of any bytes decode to the bytes |
| `HexCodec.TextRoundtrip` | twib/tool/GdbConnection.cpp:235-301 | conversely a text is recovered from its decoding if and only if it is pairs of lower case digits |
| `HexCodec.IntRoundtrip` | twib/tool/GdbConnection.cpp:226-293 | for sizes 1 to 8 a number is read back modulo 256 to the size |
| `HexCodec.SizeZeroRoundtrip` | twib/tool/GdbConnection.cpp:286-293 | as size 0 writes it a number is read back if and only if no byte below its top byte that is not zero is zero |
| `HexCodec.SeparatedRoundtrip` | twib/tool/GdbConnection.cpp:214-224 | a number before a separator is read back and the rest of the packet is left |
| `HexCodec.Encode` | twib/tool/GdbConnection.cpp:286-293 | the loop writes the specified digits |
| `HexCodec.EncodeData` | twib/tool/GdbConnection.cpp:295-301 | the loop writes two digits a byte |
| `HexCodec.DecodeWithSeparator` | twib/tool/GdbConnection.cpp:214-224 | the loop reads up to the separator, which it consumes |
| `HexCodec.Decode` | twib/tool/GdbConnection.cpp:226-233 | the loop reads the number the packet denotes |
| `HexCodec.DecodeData` | twib/tool/GdbConnection.cpp:235-249 | the loop reads pairs of digits and drops a single last one |
| `GdbFrames.DigitsAreHex` | twib/tool/GdbConnection.cpp:195-208 | digits are written in lower case and read in either case; what is no digit reads as zero |
| `GdbPackets.ScanIsRun` | twib/tool/GdbConnection.cpp:36-106 | calling `Process` again and again amounts to handling the bytes one after the other |
| `GdbPackets.RunConcat` | twib/tool/GdbConnection.cpp:36-106 | the input may be split anywhere |
| `GdbPackets.RunBody` | twib/tool/GdbConnection.cpp:55-78 | reading an escaped payload stores the payload, as that version stores it, and sums what was read |
| `GdbPackets.RunFrame` | twib/tool/GdbConnection.cpp:41-103 | a frame yields its payload when the checksum is right, and is dropped with a negative acknowledgement or refused when it is not |
| `GdbPackets.SessionDecodes` | twib/tool/GdbConnection.cpp:36-106 | any sequence of acknowledgements, breaks, good frames and bad frames decodes to its good payloads in order with the right acknowledgements; a good frame after a bad one still decodes |
| `GdbPackets.FrameIsGood` | twib/tool/GdbConnection.cpp:108-125 | the checksum digits `Respond` writes are accepted |
| `GdbPackets.StoredExactly` | twib/tool/GdbConnection.cpp:73-77 | storing an unescaped byte as an `int`, as written, recovers a payload if and only if it has no byte that is escaped; storing one byte always does |
| `GdbPackets.FramesRoundtrip` | twib/tool/GdbConnection.cpp:36-135 | payloads framed by `Respond`, with acknowledgements between them, come out as the same payloads: always with a one byte store, as written if and only if no payload has an escaped byte |
| `GdbFrames.SumIsByteSum` | twib/tool/GdbConnection.cpp:57-74 | the checksum is the sum of the bytes of the body as naturals, modulo 256 |
| `GdbFrames.FlipIsXor` | twib/tool/GdbConnection.cpp:74-75 | escaping is the exclusive-or with 0x20 |
| `GdbFrames.EscapedText` | twib/tool/GdbConnection.cpp:113-121 | exactly the four special characters are escaped, with a closing brace |
| `GdbFrames.FrameText` | twib/tool/GdbConnection.cpp:108-125 | a frame is a dollar sign, the escaped payload, a number sign and the two lower case digits of the byte sum |
| `GdbFrames.WidenedIsInt` | common/Buffer.hpp:65-69 | an unescaped byte stored as an `int` takes four bytes, sign-extended |
| `GdbFrames.AcceptedExactly` | twib/tool/GdbConnection.cpp:57-103 | any body is accepted if and only if its digits are its byte sum; otherwise it is refused with a minus, or reported without acknowledgements |
| `GdbFrames.ChangedFrameRefused` | twib/tool/GdbConnection.cpp:83-103 | a good frame with one byte of its body changed is refused |
| `GdbFrames.BetweenFrames` | twib/tool/GdbConnection.cpp:41-56 | between frames a plus is passed over, 3 is a break, and anything else is an error |
| `GdbConnections.GdbConnection.constructor` | twib/tool/GdbConnection.cpp:29-34 | waiting for a packet with acknowledgements on |
| `GdbConnections.GdbConnection.StartNoAckMode` | twib/tool/GdbConnection.cpp:157-159 | switches acknowledgements off |
| `GdbConnections.GdbConnection.Handle` | twib/tool/GdbConnection.cpp:41-103 | one byte does what the specification of the packet layer says |
| `GdbConnections.GdbConnection.Process` | twib/tool/GdbConnection.cpp:36-106 | consumes input up to the first packet, interrupt or error |
| `GdbConnections.GdbConnection.Consume` | twib/tool/GdbConnection.cpp:40-104 | one turn of the loop |
| `GdbConnections.GdbConnection.ProcessAll` | twib/tool/GdbConnection.cpp:36-106 | all calls together give the events of the whole input |
| `GdbConnections.GdbConnection.WriteEscaped` | twib/tool/GdbConnection.cpp:113-120 | writes one byte, escaped if special, and sums what was written |
| `GdbConnections.GdbConnection.WriteBody` | twib/tool/GdbConnection.cpp:110-121 | writes the opening and the escaped payload |
| `GdbConnections.GdbConnection.WriteOut` | twib/tool/GdbConnection.cpp:125-134 | partial writes and errors lose and reorder nothing |
| `GdbConnections.GdbConnection.Respond` | twib/tool/GdbConnection.cpp:108-135 | what was sent and what is still buffered grow by exactly the frame |
| `Arguments.ArgResumes` | twili/bridge/Unpacking.hpp:42-59 | one argument may stop anywhere for want of bytes and go on when more arrive |
| `Arguments.UnpackResumes` | twili/bridge/Unpacking.hpp:182-192 | so may all of them |
| `Arguments.ArgRoundtrip` | twili/bridge/Unpacking.hpp:42-59 | a packed argument is unpacked and what follows it is left |
| `Arguments.UnpackPacked` | twib/tool/Packing.hpp:67-146 | packed arguments are unpacked and what follows them is left |
| `Arguments.UnpackSpells` | twili/bridge/Unpacking.hpp:182-192 | a finished unpacking has read exactly the packed form of its values |
| `Arguments.UnpackExactly` | twili/bridge/Unpacking.hpp:119-220 | a payload unpacks to some values with some rest if and only if it is those values packed, followed by that rest |
| `Arguments.PackText` | twib/tool/Packing.hpp:67-146 | a vector is its count in eight bytes and its elements; a stream announces its size in eight bytes |
| `Arguments.PackedInOrder` | twib/tool/RemoteObject.hpp:44-48 | each argument follows those before it |
| `Requests.ChunkingIsInvisible` | twili/bridge/RequestHandler.hpp:74-123 | calls, stream contents, end of stream and refusals depend on the payload alone, not on its pieces |
| `Requests.InvokedExactly` | twili/bridge/RequestHandler.hpp:74-123 | for any pieces the handler is invoked, once, with some values, its stream seeing some data, if and only if the payload is those values packed followed by data of the announced length |
| `Requests.RefusedExactly` | twili/bridge/RequestHandler.hpp:87-102 | a request is refused, once, if and only if its arguments are complete and what follows has another length than announced; never both invoked and refused |
| `Requests.SilentExactly` | twili/bridge/RequestHandler.hpp:118-123 | a request gets neither if and only if the payload ends before the arguments do |
| `Requests.HostToDevice` | twib/tool/Packing.hpp:67-146 | what the host packs invokes the device's handler with the same values in any pieces, a trailing byte vector becoming the contents of the device's stream |
| `Requests.FlushKeeps` | twili/bridge/RequestHandler.hpp:74-116 | flushing any further piece keeps the standing of a request consistent with the bytes that arrived |
| `RequestHandlers.SmartRequestHandler.constructor` | twili/bridge/RequestHandler.hpp:68-72 | a request with no argument read |
| `RequestHandlers.SmartRequestHandler.UnpackOne` | twili/bridge/Unpacking.hpp:42-59 | one resumable argument over the buffer |
| `RequestHandlers.SmartRequestHandler.Unpack` | twili/bridge/Unpacking.hpp:182-192 | all arguments, where they stopped |
| `RequestHandlers.SmartRequestHandler.SignalBadRequest` | twili/bridge/RequestHandler.hpp:140-144 | refuses once |
| `RequestHandlers.SmartRequestHandler.Decide` | twili/bridge/RequestHandler.hpp:87-105 | invokes or refuses by the sizes |
| `RequestHandlers.SmartRequestHandler.ReadArguments` | twili/bridge/RequestHandler.hpp:82-106 | reads arguments and decides when all have arrived |
| `RequestHandlers.SmartRequestHandler.FlushReceiveBuffer` | twili/bridge/RequestHandler.hpp:74-116 | does what the specification of a request says |
| `RequestHandlers.SmartRequestHandler.Finalize` | twili/bridge/RequestHandler.hpp:118-123 | flushes and ends the stream |
| `RequestHandlers.PackArguments` | twib/tool/RemoteObject.hpp:44-48 | the host writes the packed arguments one after the other |
| `Responses.PackEmits` | twili/bridge/Packing.hpp:41-168 | packing a value emits exactly `GetSize` bytes and `GetObjectCount` objects, the objects in order and numbered one after the other |
| `Responses.UnpackWire` | twib/tool/Packing.hpp:67-188 | the host reads back any nested value with its objects |
| `Responses.UnpackWireArgs` | twib/tool/RemoteObject.hpp:52-55 | and a list of out parameters |
| `Responses.ResponseRoundtrip` | twili/bridge/ResponseOpener.hpp:45-52 | a whole response: announced sizes are met, object indices are 0 to n - 1 in order, the host recovers values and objects |
| `Responses.WireText` | twili/bridge/Packing.hpp:41-168 | a vector is its count in eight bytes and its elements; an object is the number of objects before it, in four bytes |
| `Responses.WireInOrder` | twili/bridge/ResponseOpener.hpp:45-52 | each value follows those before it, and its objects are numbered after theirs |
| `Responses.UnpackSound` | twib/tool/Packing.hpp:67-188 | what the host reads is of the type it asked for, from exactly the bytes of that value |
| `Responses.ObjectReads` | twib/tool/Packing.hpp:150-188 | an object is read if and only if its index is that of an object that came with the response |
| `Responders.SizesOf` | twili/bridge/Packing.hpp:96-102 | the size loop |
| `Responders.CountsOf` | twili/bridge/Packing.hpp:104-110 | the object count loop |
| `Responders.Response.BeginError` | twili/bridge/ResponseOpener.cpp:35-57 | a response begins once, with a header of what is announced, and only if its ids fit a transfer |
| `Responders.Response.SendData` | twili/bridge/usb/ResponseState.cpp:57-70 | bytes go out whole, in order, in transfers of limited size |
| `Responders.Response.Object` | twili/bridge/ResponseWriter.cpp:42-46 | objects are numbered in order |
| `Responders.Response.PackValue` | twili/bridge/Packing.hpp:112-134 | packs one value through the writer |
| `Responders.Response.PackValues` | twili/bridge/Packing.hpp:112-117 | packs values in order |
| `Responders.Response.Finalize` | twili/bridge/usb/ResponseState.cpp:72-89 | accepts exactly a response that kept what it announced, and sends its ids |
| `Responders.Response.RespondOk` | twili/bridge/ResponseOpener.hpp:45-52 | aborts only for a response already begun or with too many objects, never for wrong sizes; otherwise header, bytes and ids are those of the values |
| `Responders.Response.RespondError` | twili/bridge/ResponseOpener.cpp:63-65 | an error response once |
| `HostReader.UnpackValue` | twib/tool/Packing.hpp:67-146 | reads one value, or fails, as specified |
| `HostReader.UnpackElements` | twib/tool/Packing.hpp:88-101 | reads the elements of a vector |
| `HostReader.UnpackParameters` | twib/tool/RemoteObject.hpp:52-55 | reads out parameters up to the first that fails |
| `Daemons.ReleaseAccounts` | twib/daemon/BridgeObject.cpp:36-49 | destructors add one close request for each object without another holder and change nothing else |
| `Daemons.RequestKeeps` | twib/daemon/Daemon.cpp:151-203 | dispatching a request keeps the accounts of every object; a close request disowns before it is sent |
| `Daemons.ResponseKeeps` | twib/daemon/Daemon.cpp:204-228 | dispatching a response keeps the accounts: its objects pass to the client it names or are released |
| `Daemons.DestroyKeeps` | twib/daemon/Messages.hpp:49-55 | destroying a client releases what it owns |
| `Daemons.StepKeeps` | twib/daemon/Daemon.cpp:84-229 | whatever happens next, the accounts of every object hold again |
| `Daemons.ClosedAtMostOnce` | twib/daemon/Daemon.cpp:143-229 | in every run each carried object has exactly one of a holder, a queued destructor close, or one close sent or answered for want of a device; at most one close request reaches the device |
| `Daemons.ProcessSound` | twib/daemon/LocalClient.cpp:32-65 | dispatching keeps promises single-use and deliveries to the client named |
| `Daemons.DeliveredAsNamed` | twib/daemon/Daemon.cpp:204-228 | in every run responses reach only the client they name and each local promise is resolved at most once |
| `Daemons.DeliveredUnlessReused` | twib/daemon/Daemon.cpp:99-109 | in every run a response naming a client now in the map goes to that client if and only if the client is still there and alive when it is dispatched, and to another only if the first left and the other joined with the same id since |
| `Daemons.ReusedIdReceives` | twib/daemon/Daemon.cpp:99-109 | a run in which a response in flight reaches the new client that was given the id of the one that left |
| `Daemons.DisownsExactly` | twib/daemon/Daemon.cpp:183-191 | disowning by object id alone disowns the closed object and nothing else if and only if the client owns no object of another device with that id |
| `DaemonRequests.RequestDispatched` | twib/daemon/Daemon.cpp:151-203 | a dispatched request is handed to the device unchanged, or answered once with its tag for its client: the former exactly if it is for a device that is there, and well only if the daemon itself understands it |
| `DaemonRequests.RequestsAccounted` | twib/daemon/Daemon.cpp:143-203 | in every run the requests posted are, in order, those dispatched and those queued; the device got exactly the forwarded ones in order, and the others were answered once each, in order |
| `DaemonRequests.PostedExactly` | twib/daemon/Daemon.cpp:84-121 | what each event posts |
| `DaemonRequests.ResponseDispatched` | twib/daemon/Daemon.cpp:204-228 | a response reaches the client found for its id with its objects, or nobody; one for the daemon resolves the promise of its tag |
| `DaemonRequests.PromisesKept` | twib/daemon/LocalClient.cpp:32-65 | if the random tags differ, in every run each promise waits under its tag or was resolved by a delivered response with its tag |
| `DaemonRequests.SameTagLoses` | twib/daemon/LocalClient.cpp:36-47 | a second request with the same tag loses the promise of the first |
| `DaemonRequests.ClientsSeen` | twib/daemon/Daemon.cpp:84-132 | clients and the device come and go as the events say, and others stay |
| `DaemonRequests.RemovedGetsNothing` | twib/daemon/Daemon.cpp:295-315 | a client that was removed, marked for deletion or destroyed gets no response any more |
| `DaemonLoop.Daemon.constructor` | twib/daemon/Daemon.cpp:58-78 | an empty queue and the local client |
| `DaemonLoop.Daemon.PostRequest` | twib/daemon/Daemon.cpp:116-118 | appends a request to the queue |
| `DaemonLoop.Daemon.PostResponse` | twib/daemon/Daemon.cpp:120-122 | appends a response to the queue |
| `DaemonLoop.Daemon.LocalSendRequest` | twib/daemon/LocalClient.cpp:32-50 | a promise under a random tag, and the request |
| `DaemonLoop.Daemon.LocalPostResponse` | twib/daemon/LocalClient.cpp:52-65 | resolves and forgets the promise of the tag |
| `DaemonLoop.Daemon.HandleMeta` | twib/daemon/Daemon.cpp:231-278 | the daemon's own object answers well exactly the commands it knows |
| `DaemonLoop.Daemon.ReleaseObjects` | twib/daemon/BridgeObject.cpp:36-49 | the last reference to an object sends its close request |
| `DaemonLoop.Daemon.DisownObject` | twib/daemon/Daemon.cpp:183-192 | erases every owned object with the id |
| `DaemonLoop.Daemon.FindClient` | twib/daemon/Daemon.cpp:295-315 | the listed client with the id unless it expired or is being deleted |
| `DaemonLoop.Daemon.HandleRequest` | twib/daemon/Daemon.cpp:151-203 | answers, refuses or forwards a request |
| `DaemonLoop.Daemon.HandleResponse` | twib/daemon/Daemon.cpp:204-228 | delivers or drops a response |
| `DaemonLoop.Daemon.Process` | twib/daemon/Daemon.cpp:143-229 | dispatches the item at the head of the queue |
| `DaemonLoop.Daemon.DestroyClient` | twib/daemon/Messages.hpp:49-55 | releases what the client owned |
| `DaemonLoop.Daemon.AddDevice` | twib/daemon/Daemon.cpp:84-97 | resets the objects of a new device |
| `UsbMachine.DataOutKeeps` | twib/daemon/USBBackend.cpp:209-239 | a finished piece extends what is on the endpoint and the next one starts where it ends |
| `UsbMachine.DataInKeeps` | twib/daemon/USBBackend.cpp:281-312 | a received piece extends the payload; the response is dispatched when it is whole |
| `UsbMachine.MetaInKeeps` | twib/daemon/USBBackend.cpp:241-279 | a header opens exactly one response |
| `UsbMachine.ObjectInKeeps` | twib/daemon/USBBackend.cpp:314-322 | object ids arrive in one transfer of the right size or the device is given up |
| `UsbMachine.DispatchKeepsPending` | twib/daemon/USBBackend.cpp:332-335 | a dispatched response answers the pending request of its tag |
| `UsbMachine.StepKeeps` | twib/daemon/USBBackend.cpp:130-395 | every handler keeps the invariants of both chains and of the pending requests |
| `UsbMachine.RequestsGoOutWhole` | twib/daemon/USBBackend.cpp:130-239 | however transfers are cut, each request but the current one is on the data endpoint whole in pieces of at most 0x10000 bytes, the current one up to some point; while the device is available all are |
| `UsbMachine.ResponsesAreWhatArrived` | twib/daemon/USBBackend.cpp:241-344 | each header leads to one response with exactly the payload and ids that arrived, before the next header is asked for |
| `UsbMachine.AnsweredOrFailed` | twib/daemon/USBBackend.cpp:93-98 | when the device is gone each recorded request was answered by it or gets one transfer error, not both |
| `UsbProgress.GivesUpExactly` | twib/daemon/USBBackend.cpp:175-387 | an event marks the device for deletion if and only if a transfer failed, the next could not be submitted, object ids had the wrong size, or the identification response reports an error |
| `UsbProgress.DeletedExactly` | twib/daemon/USBBackend.cpp:175-387 | in every run the device is marked for deletion if and only if some event gave it up |
| `UsbProgress.HeaderThen` | twib/daemon/USBBackend.cpp:241-279 | after a header the next transfer asks for what is missing, and with nothing missing the response is handed on and the next header asked for |
| `UsbProgress.BytesThen` | twib/daemon/USBBackend.cpp:281-312 | the same after a part of the payload |
| `UsbProgress.IdsThen` | twib/daemon/USBBackend.cpp:314-344 | the same after the object ids |
| `UsbProgress.AlwaysListening` | twib/daemon/USBBackend.cpp:368-376 | in every run, until the device is given up an incoming transfer is submitted |
| `UsbProgress.RequestThen` | twib/daemon/USBBackend.cpp:130-165 | a request is recorded and its header submitted |
| `UsbProgress.HeaderSentThen` | twib/daemon/USBBackend.cpp:185-207 | after the header the payload is begun, or the device is available again |
| `UsbProgress.PieceSentThen` | twib/daemon/USBBackend.cpp:209-239 | after a piece the next one begins where it ended, or the device is available again |
| `UsbProgress.FailedThen` | twib/daemon/USBBackend.cpp:378-387 | a failed transfer and those after it in its chain are not submitted any more |
| `UsbProgress.CanBeDestroyed` | twib/daemon/USBBackend.cpp:93-106 | once the device is given up, its last transfers end and it is destroyed |
| `UsbProgress.AlwaysSending` | twib/daemon/USBBackend.cpp:130-239 | in every run, until the device is given up a request that is not sent whole has a transfer submitted |
| `UsbDevices.UsbDevice.SendRequest` | twib/daemon/USBBackend.cpp:130-165 | records and submits the request |
| `UsbDevices.UsbDevice.MetaOutTransferCompleted` | twib/daemon/USBBackend.cpp:185-207 | goes on with the payload or becomes available |
| `UsbDevices.UsbDevice.DataOutTransferCompleted` | twib/daemon/USBBackend.cpp:209-239 | submits the next piece or becomes available |
| `UsbDevices.UsbDevice.MetaInTransferCompleted` | twib/daemon/USBBackend.cpp:241-279 | sizes the response and submits what comes next |
| `UsbDevices.UsbDevice.DataInTransferCompleted` | twib/daemon/USBBackend.cpp:281-312 | submits the next piece, the ids, or dispatches |
| `UsbDevices.UsbDevice.ObjectInTransferCompleted` | twib/daemon/USBBackend.cpp:314-322 | dispatches or gives up |
| `UsbDevices.UsbDevice.DispatchResponse` | twib/daemon/USBBackend.cpp:324-344 | posts the response, forgets its request, asks for the next header |
| `UsbDevices.UsbDevice.RemovePending` | twib/daemon/USBBackend.cpp:332-335 | removes every pending request of the tag |
| `UsbDevices.UsbDevice.Errors` | twib/daemon/USBBackend.cpp:93-98 | the transfer errors of the destructor |
| `ElfCore.NotesRoundtrip` | twili/ELFCrashReport.cpp:284-303 | the note section parses back to the notes that were added |
| `ElfCore.FileSize` | twili/ELFCrashReport.cpp:232-251 | the emitted file has the size that was laid out |
| `ElfCore.ReadHeader` | twili/ELFCrashReport.cpp:252-271 | the file header says where the program headers start and how many there are |
| `ElfCore.NoteWindow` | twili/ELFCrashReport.cpp:305-317 | following the table, the first program header's window parses back to the notes |
| `ElfCore.LoadWindow` | twili/ELFCrashReport.cpp:318-331 | and the window of each load header holds exactly the memory of its region, with its address and flags |
| `ElfCore.KeptExactly` | twili/ELFCrashReport.cpp:208-226 | a report keeps exactly the readable regions that are not I/O memory, ascending and disjoint |
| `ElfText.HeaderText` | twili/Elf.hpp:113-136 | the fields of the file header at their offsets: magic, class, byte order, core file, machine, table offset and counts |
| `ElfText.LoadText` | twili/ELFCrashReport.cpp:318-332 | the fields of a load entry at their offsets, and the memory at the offset it gives |
| `ElfText.NoteText` | twili/ELFCrashReport.cpp:308-317 | the fields of the note entry, and the notes at the offset it gives |
| `ElfText.NoteEntryText` | twili/ELFCrashReport.cpp:43-54 | a note at its offsets: sizes without padding, kind, name and descriptor padded with zeros |
| `ElfText.FlagsText` | twili/ELFCrashReport.cpp:218-220 | executable, writable and readable are the flags 1, 2 and 4 |
| `ElfText.KeptText` | twili/ELFCrashReport.cpp:208-226 | the regions kept are exactly the readable ones that are not I/O memory, with their addresses, sizes and rights |
| `CrashReports.CrashReport.Pad` | twili/ELFCrashReport.cpp:45-47 | pads with zeros to a multiple of four |
| `CrashReports.CrashReport.AddNote` | twili/ELFCrashReport.cpp:43-54 | stores a note with its sizes before padding |
| `CrashReports.CrashReport.AddVma` | twili/ELFCrashReport.cpp:39-41 | stores a region |
| `CrashReports.CrashReport.WalkMemory` | twili/ELFCrashReport.cpp:208-226 | the walk over a tiling of the address space terminates and keeps the regions to keep, in order |
| `CrashReports.CrashReport.LayOut` | twili/ELFCrashReport.cpp:232-251 | the two loops compute the layout |
| `CrashReports.CrashReport.WriteRegion` | twili/ELFCrashReport.cpp:276-284 | memory of a region goes out whole for any transfer size |
| `CrashReports.CrashReport.WriteRegions` | twili/ELFCrashReport.cpp:274-284 | and that of all regions in order |
| `CrashReports.CrashReport.Generate` | twili/ELFCrashReport.cpp:232-333 | what is sent is the announced size and the file, as many bytes as announced, so that the response is not aborted |
| `ShellLaunch.LaunchKeeps` | twili/process/TrackedProcess.hpp:82-88 | a launch goes to the end of the queue |
| `ShellLaunch.PopKeeps` | twili/process/ShellTracker.cpp:152-167 | popping skips killed processes and puts at most one in limbo, with nothing installed before |
| `ShellLaunch.TryKeeps` | twili/process/ShellTracker.cpp:187-214 | a launch attempt, successful or not, keeps queue, limbo and content source consistent |
| `ShellLaunch.AttachKeeps` | twili/process/ShellTracker.cpp:169-185 | the process in limbo was not attached before; attaching uses its content source up |
| `ShellLaunch.ExitKeeps` | twili/process/ECSProcess.cpp:49-62 | a live process that exits clears only its own content source |
| `ShellLaunch.StepKeeps` | twili/process/ShellTracker.cpp:115-214 | every event keeps queue, limbo and content source consistent |
| `ShellLaunch.StepBooks` | twili/process/TrackedProcess.cpp:43-78 | every event keeps the books of launch requests and callbacks |
| `ShellLaunch.OneAtATime` | twili/process/ShellTracker.cpp:115-214 | at every point of every run at most one process is in limbo, no content source was installed over another or cleared by the wrong process, and processes attached in queue order |
| `ShellRuns.AnsweredOnce` | twili/process/MonitoredProcess.cpp:172-224 | at every point of every run each launch request was answered once or is owed by one process; it is unanswered if and only if that process is queued, is in limbo and has not exited, or was dropped; each suspended-start callback was called at most once |
| `ShellRuns.DropsExactly` | twili/process/ShellTracker.cpp:152-167 | a launch attempt drops a queued process if and only if nothing is in limbo, the process is the first not marked to exit, and it does not have exactly one module or is refused its content source |
| `ShellRuns.OwingExactly` | twili/process/ShellTracker.cpp:115-214 | at every point of every run a process owes its answer if and only if it is queued, is in limbo and has not exited, or was dropped by an earlier launch attempt |
| `ShellRuns.DroppedNeverAnswered` | twili/process/ShellTracker.cpp:159 | whatever happens later, a dropped process keeps its request and the request is never answered |
| `ShellRuns.DroppedRequest` | twili/process/ECSProcess.cpp:64-69 | a run in which a process without code is launched and its request dropped |
| `ShellRuns.StepFate` | twili/process/ShellTracker.cpp:115-214 | every event keeps lost processes lost with their requests, and only a launch attempt that drops a process loses it |
| `ShellRuns.KilledTwice` | twili/process/MonitoredProcess.cpp:101-129 | a run from the start in which the second kill of a suspended process calls a callback that is gone |
| `ShellOutcomes.ExitSeen` | twili/process/ShellTracker.cpp:62-70 | after the exit event of a tracked process it is exited, its request answered, its callback called, its content source not installed, its pid forgotten, and nothing else changed |
| `ShellOutcomes.ExitedExactly` | twili/process/ShellTracker.cpp:62-70 | in every run a process whose exit event came is exited at every later point if and only if no kernel process was attached to it since |
| `ShellOutcomes.ExitsInLimbo` | twili/process/ShellTracker.cpp:169-185 | a run in which a process exits in limbo, is attached all the same, and is not tracked any more |
| `ShellOutcomes.LaunchesExactly` | twili/process/ShellTracker.cpp:152-214 | a launch attempt puts a process in limbo if and only if nothing is in limbo, it is the first queued one not killed, it has one module and its content source, and the kernel launches it; its pid is then tracked |
| `ShellOutcomes.NotLaunched` | twili/process/ShellTracker.cpp:152-214 | a process that left the queue without being launched or dropped has exited with its request answered |
| `ShellOutcomes.AttachSeen` | twili/process/ShellTracker.cpp:169-185 | attaching answers the request of the process in limbo and uses its content source up |
| `ShellOutcomes.WaitSeen` | twili/process/MonitoredProcess.cpp:216-224 | a waiting shim is let go at once unless its process is to be suspended |
| `ShellOutcomes.SuspendExactly` | twili/process/MonitoredProcess.cpp:61-64 | in every run a process is to be suspended if and only if it was launched suspended and not continued since, other than out of a suspension |
| `ShellOutcomes.ContinueSeen` | twili/process/MonitoredProcess.cpp:118-129 | continuing lets a suspended shim go or cancels its suspension |
| `ShellOutcomes.KillSeen` | twili/process/TrackedProcess.cpp:80-104 | killing and terminating, state by state |
| `ShellOutcomes.KilledNeverLaunched` | twili/process/TrackedProcess.cpp:86-92 | in every run a process killed while it is queued is never in limbo or attached: it waits in the queue or has exited |
| `ShellOutcomes.SourceMoves` | twili/process/ECSProcess.cpp:49-85 | a content source is installed only when there is none, for the process put in limbo, and goes away only when that process is attached or exits |
| `ShellOutcomes.LaunchSeen` | twili/process/TrackedProcess.hpp:82-88 | a launch keeps its request, queues the process, and suspends it only if asked to |
| `ShellLaunch.CrashesExactly` | twili/process/MonitoredProcess.cpp:101-129 | killing or continuing a suspended process calls a callback that is gone exactly when none is held, which a second kill reaches |
| `ShellTrackers.ShellTracker.constructor` | twili/process/ShellTracker.cpp:38-39 | nothing queued or created |
| `ShellTrackers.ShellTracker.MonitoredChangeState` | twili/process/MonitoredProcess.cpp:172-191 | an exit lets go of a suspended shim |
| `ShellTrackers.ShellTracker.EcsChangeState` | twili/process/ECSProcess.cpp:49-62 | the content source is used up or cleared |
| `ShellTrackers.ShellTracker.ChangeState` | twili/process/TrackedProcess.cpp:43-78 | attaching and exiting answer the launch request |
| `ShellTrackers.ShellTracker.CallSuspended` | twili/process/MonitoredProcess.cpp:106-111 | moves the callback out and calls it |
| `ShellTrackers.ShellTracker.Continue` | twili/process/MonitoredProcess.cpp:118-129 | releases a suspended process |
| `ShellTrackers.ShellTracker.WaitToStart` | twili/process/MonitoredProcess.cpp:216-224 | keeps the callback or calls it |
| `ShellTrackers.ShellTracker.Terminate` | twili/process/MonitoredProcess.cpp:81-99 | ends a process that has not started, or releases its shim |
| `ShellTrackers.ShellTracker.Kill` | twili/process/TrackedProcess.cpp:80-104 | ends, marks or releases a process by its state |
| `ShellTrackers.ShellTracker.Launch` | twili/process/TrackedProcess.hpp:82-88 | keeps the request and queues the process |
| `ShellTrackers.ShellTracker.PrepareForLaunch` | twili/process/ECSProcess.cpp:64-85 | installs the content source of a process with one module |
| `ShellTrackers.ShellTracker.PopQueuedProcess` | twili/process/ShellTracker.cpp:152-167 | the loop over the queue |
| `ShellTrackers.ShellTracker.TryToLaunch` | twili/process/ShellTracker.cpp:187-214 | launches when nothing is in limbo |
| `ShellTrackers.ShellTracker.AttachHostProcess` | twili/process/ShellTracker.cpp:169-185 | attaches the process in limbo |
| `ShellTrackers.ShellTracker.ProcessExited` | twili/process/ShellTracker.cpp:62-70 | an exit event of a tracked process |

## Left out

* C++ memory ordering: every atomic access is one step of a sequentially consistent interleaving.
* Indices and counters of the queue are unbounded integers stored as 64-bit words; a consumer's comparison must not be
  delayed by half the range of the counters (`DequeueCounters.TimelyRun`).
- DequeueCounters.ConsumersShareTheQueue: assumes that no comparison is delayed while the counters advance by half the word range, because beyond that the wrapped comparison cannot be right.
- DequeueCounters.ProducerPreserves: models a fixed block size of 32 and no limit on the size of a sub-queue, as the daemon's queue has by default.
- BlockIndex.ProducerPreserves: does not model the several rewinds after a failed bulk enqueue, which the daemon never issues.
- Semaphore.SemaphoreConserves: models `wait` and `tryWait` as `waitMany(1)` and `tryWaitMany(1)`, leaves the truncation of counts to `int` in the kernel semaphore out, and bounds spinning by its own constant.
- Dispatch.AbortUnreachable: gives each posting thread one producer record instead of the implicit-producer hash table, and leaves recycling of records of ended threads out.
- Buffers.Buffer.Write: does not model sizes whose sums wrap a 64-bit word.
- BlockIndexCalls.UndisturbedEnqueue: the index has fewer than 2^59 entries.
- DispatchCalls.UndisturbedPost: memory does not run out and compare-exchanges do not fail spuriously, as in the other laws about undisturbed calls.
- PipeRuns.PipeConserves: callbacks do not re-enter the pipe, but for closing it from inside a read callback while a write is pending.
- Pipes.TwibPipe.Read: aborts for a second reader, a second writer or a callback that takes more than it is offered are preconditions.
- MessageConnections.Connection.Process: the request keeps its payload and ids as byte lists rather than as buffers, so that what a user leaves unread in them is not modelled.
- GdbConnections.GdbConnection.Respond: a write loop that never ends because the file accepts nothing is cut off by the list of results.
- HexCodec.DecodeData: models the vector form; the form that decodes into a buffer does the same.
- Arguments.UnpackExactly: vectors of elements that are not plain are left out on the device's side, where the code does not pass the element on.
- Requests.InvokedExactly: memory exhaustion for hostile vector sizes is left out; a stream's receiver takes all it is offered.
- Responses.ResponseRoundtrip: sizes are unbounded integers; serialised messages are byte vectors, their parser is not part of this model.
- Daemons.ClosedAtMostOnce: clients close objects they own, once each; each object id is carried by one response; one device.
- DaemonLoop.Daemon.ReleaseObjects: counts references over the queue and the clients instead of keeping them in shared pointers.
- UsbMachine.AnsweredOrFailed: request tags are unique; a request that waits while the device is deleted is never recorded and not claimed.
- UsbDevices.UsbDevice.DispatchResponse: what the identification response says of the device is left out.
- ElfCore.LoadWindow: fewer than 65535 regions and sizes that fit their fields.
- CrashReports.CrashReport.WalkMemory: debug events, threads and their registers are notes with any contents.
- ShellRuns.DroppedNeverAnswered: processes are not destroyed; a dropped process whose last reference goes away takes its request with it, unanswered.
- ShellLaunch.OneAtATime: the kernel's pids are new and a shim waits only while its process lives; counting code regions on attach is left out.
* libusb, sockets, named pipes, event loops and kernel calls are replaced by any completions, results and pieces.
* `USBKBackend`, `TCPBackend`, `GdbStub`, `AppletTracker`, explicit producers and consumer tokens, configuration, logging and
  the command line are not modelled.
