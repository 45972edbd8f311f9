# Verified models of libzillians-common

This project models the concurrent queues, the wake-up protocols, the two allocators, the byte
buffer, the codecs and the dependency search of libzillians-common in Dafny, and proves what they
are for. `dafny verify dfyconfig.toml` checks all of it.

Concurrent code is modelled as a state machine: a state, one step function for each atomic access
or locked section, an invariant kept by every step, and theorems about every state reached by any
schedule. Beside it stands a class that performs the same accesses in place. Linked structures have
explicit memory, a map from addresses to records: what is not in the map cannot be read or written,
so a proof about such a step is also a proof that it follows no stale pointer.

| part | files |
|---|---|
| bounded queue of many producers and consumers; where calls end, and that they do | `BoundedQueue`, `BoundedQueueCalls` (with `Modular`, `Bits`) |
| pipe of one writer and one reader: by positions, its chunk queue, by pointers, in place; what its calls come to | `Pipe`, `ChunkQueue`, `PipeMemory`, `AtomicPipe`, `PipeCalls` |
| dispatcher: one destination with all its sources; that what is accepted is delivered; its signal word, alone and with many threads at it; its signaler and reading loop in place | `Dispatcher`, `DispatcherDelivery`, `SignalWord`, `SignalRace`, `ThreadContext` |
| event count: the protocol, what each call does, the intrusive list, both together by pointers, in place | `EventCount`, `EventCountCalls`, `NodeList`, `EventCountMemory`, `DList` |
| fragment allocator: lists in memory, layout and compaction, what clients have, pointer surgery, in place | `FragmentBlocks`, `FragmentLayout`, `FragmentAnswers`, `FragmentHeap`, `FragmentAllocator` |
| scalable pool allocator: freeing across threads and that every free takes effect, one block in place, bin lookup, large chunks, what requests are answered, their free list in place | `MailBox`, `MailBoxCalls`, `SmallBlock`, `BinTable`, `LargeChunks`, `LargeAnswers`, `LargeList` |
| byte buffer: rounding, plain and circular store in place, typed values | `BitTrick`, `ByteBuffer`, `Serializer` |
| UTF-8 (section 2 of RFC 2279), Base64 (section 4 of RFC 4648), rolling-offset cipher | `Utf8`, `Base64`, `Cipher` |
| dependency closure | `DependencySolver` |

Where the code and its documentation disagree, or the code does not do what it is for, the model
follows the code and says exactly when it does:

- Compaction moves bytes from the addresses kept in the pointer wrappers and does not write the new
  ones back, although the header says it does. `FragmentLayout.AddressesStayRightIff` says when the
  kept addresses are right afterwards, `CompactionKeepsIff` when the bytes of the blocks survive;
  `StaleAddressExample` and `SecondCompactionExample` are pools in which they are not and do not.
- A large request is subtracted from the bump pointer in 64-bit arithmetic, which wraps.
  `LargeChunks.AllocateKeepsIff` and `LargeRunsSoundIff` say when the pool stays in order;
  `WrappedGrant` is a request of 2^64 - 16 bytes that is granted.
- A failed reservation of a stretch for small blocks leaves the block pointer advanced.
  `LargeChunks.EndsStayApartIff` says that the ends of the pool stay apart exactly if there is room
  for each, `MistakenIff` and `AllKnownIff` which large chunks are otherwise taken for small ones.
- A table of bins may make large chunks of less than 16 bytes, which have no room for the record
  they hold when they are free: `LargeChunks.RecordStaysClearIff`, `RecordOverNextChunk`.
- The first chunk of a block is handed out without a look at the header. `MailBoxes.SafeBinSizes`
  says that chunks lie behind it exactly for bins of at most 16304 bytes; a table with a larger bin
  is accepted, and `ChunkBeforeItsBlock` shows what comes of it.
- Appending one buffer to another reads the source in one stretch. `ByteBuffers.StretchIsFrontIff`
  says that this is right exactly if the bytes do not go round its end. Skipping in a plain buffer
  is not checked against the write position; `Buffer.Rskip` says when its positions stay in order.
- The size probe takes every element of a container to be as large as the first unless the element
  type is in the list of variable types; `Serializer.ProbeIsRightIff` says for which types it is
  right.
- Lengths are cut to 32 bits before they are checked and written. `Serializer.ComesBackIff` says
  that what passes the checks comes back exactly if no length is cut, `LongText` is a text that does
  not; `Cipher.EncryptionGoesRoundIff` says the same of encrypted data.
- The list of free large chunks is kept by ascending address, not size, and a header records the
  size asked for, so a chunk granted whole loses up to 24 bytes for good.
- Rounding a request to whole chunks wraps to zero above 2^64 - 1024.

## Model

| member | source | states |
|---|---|---|
| `BoundedQueue.FifoByPosition` | include/core/AtomicBoundedQueue.h:50-100 | In every interleaving of any number of producers and consumers, with spurious failures of the weak compare-exchange, each position is claimed by exactly one push and at most one pop, in counter order; what a pop hands out is what the push of the same position stored; nothing is handed out twice; at most one lap is outstanding |
| `BoundedQueue.CellsAreExclusive` | include/core/AtomicBoundedQueue.h:56-71 | No two threads stand between claim and sequence store of the same cell, and what a consumer is about to read is in place |
| `BoundedQueue.ClaimsFollowCallOrder` | include/core/AtomicBoundedQueue.h:53-68 | Over every run, with the runs of all other threads in between: the claims made before a call began all have earlier positions than the one that call claims, and no claim is ever taken back |
| `BoundedQueue.PushFailsIffLapBehind` | include/core/AtomicBoundedQueue.h:57-67 | At its sequence load a push gives up if and only if the counter still stands at its position and the cell is still serving the position one lap earlier; that it gives up nowhere else is `BoundedQueueCalls.PushGivesUpIff` |
| `BoundedQueue.PopFailsIffUnpublished` | include/core/AtomicBoundedQueue.h:83-93 | At its sequence load a pop gives up if and only if the counter still stands at its position and that position is not published |
| `BoundedQueueCalls.PushGivesUpIff` | include/core/AtomicBoundedQueue.h:53-68 | Whatever the other threads do, a push that has claimed nothing comes to its end exactly at its sequence load with the counter still at its position and the cell a lap behind; a lost exchange is never the end |
| `BoundedQueueCalls.PopGivesUpIff` | include/core/AtomicBoundedQueue.h:79-94 | The same for pop: it gives up exactly at its sequence load with the counter still at its position and nothing published there |
| `BoundedQueueCalls.ExchangeClaimsOrLost` | include/core/AtomicBoundedQueue.h:61-67 | An exchange that does not fail without cause claims the position for the value of its own call, or was lost to another claim of that position and the call goes on with its value |
| `BoundedQueueCalls.CallBegins` | include/core/AtomicBoundedQueue.h:50-54 | A call of an idle thread begins as asked for and disturbs nothing |
| `BoundedQueueCalls.SoloPush` | include/core/AtomicBoundedQueue.h:50-74 | From every reached state, wherever the others stand: a push left to itself is over after at most six steps, with its value published at the position it had claimed or at the next one, unless at that moment the next cell is a lap behind |
| `BoundedQueueCalls.SoloPop` | include/core/AtomicBoundedQueue.h:76-100 | The same for pop: it hands out the value of the position it had claimed, or of the next one, unless at that moment nothing is there |
| `BoundedQueue.QuiescentConservation` | include/core/AtomicBoundedQueue.h:70-71 | With no call in progress every popped position was delivered and the cells hold exactly the others |
| `BoundedQueue.AloneFalseMeansFullOrEmpty` | include/core/AtomicBoundedQueue.h:64-65 | With no other call in progress false means exactly full, or exactly empty |
| `BoundedQueue.InvStep` | include/core/AtomicBoundedQueue.h:50-100 | Every load, compare-exchange and store of every thread keeps the cell and ownership invariant; where calls end, and that they do, is in `BoundedQueueCalls` |
| `BoundedQueue.AtomicBoundedQueue.constructor` | include/core/AtomicBoundedQueue.h:35-42 | The new queue is empty, of a power-of-two size, each cell waiting for its first position |
| `BoundedQueue.AtomicBoundedQueue.Locate` | include/core/AtomicBoundedQueue.h:56 | Masking finds the cell of a position |
| `BoundedQueue.AtomicBoundedQueue.Push` | include/core/AtomicBoundedQueue.h:50-74 | Run alone a push fails exactly when the queue is full, else appends the value, however often the weak compare-exchange fails without cause |
| `BoundedQueue.AtomicBoundedQueue.Pop` | include/core/AtomicBoundedQueue.h:76-100 | Run alone a pop fails exactly when the queue is empty, else takes the oldest value |
| `Bits.MaskIsRemainder` | include/core/AtomicBoundedQueue.h:56 | Masking with 2^k - 1 is the remainder by 2^k |
| `Pipe.ReadIsPrefixOfFlushed` | include/core/AtomicQueue.h:383-438 | For one writer and one reader in any interleaving, what was read is, in order, a prefix of what was flushed, and flushed values never change later |
| `Pipe.BoundaryEndsBatch` | include/core/AtomicQueue.h:383-438 | The shared word and the private bound of the reader only ever stand at the end of a complete batch, so incomplete and taken-back items are never read |
| `Pipe.FlushFalseIffAsleep` | include/core/AtomicQueue.h:401-415 | A flush returns false if and only if there is something to publish and the reader had put the pipe to sleep; it then wakes it with everything readable |
| `Pipe.LookFindsFlushed` | include/core/AtomicQueue.h:417-428 | A look finds something exactly when a flushed value is unread; a look that finds nothing leaves the pipe asleep |
| `Pipe.InvStep` | include/core/AtomicQueue.h:383-438 | Every step keeps the invariant and leaves the flushed past as it is |
| `Pipe.BatchAddsOneEnd` | include/threading/DispatcherDestination.h:57-62 | A batch adds exactly one place where a boundary may stand, its end: a reader sees all of it or nothing |
| `PipeCalls.UnwriteUndoesWrite` | include/core/AtomicQueue.h:392-399 | Taking back undoes an incomplete write and returns what it wrote, the last item; a complete one is not taken back |
| `PipeCalls.TakeBackUndoes` | include/core/AtomicQueue.h:392-399 | Taking back until there is nothing returns all incomplete values, the last written first, and restores the pipe up to the last complete one |
| `PipeCalls.ReadAllTakesAll` | include/core/AtomicQueue.h:417-438 | Reading until there is nothing returns everything flushed and not yet read, in order, leaves the pipe asleep and what the writer has as it was |
| `PipeCalls.FlushedIsDelivered` | include/core/AtomicQueue.h:401-438 | After every interleaving: once the writer has flushed, reading until there is nothing has delivered every value up to the last complete one, each once and in order |
| `PipeCalls.BatchIsDelivered` | include/threading/DispatcherDestination.h:57-62 | A batch that was written and flushed is exactly what a reader gets that had read everything before |
| `Pipe.WriteMessages` | include/threading/DispatcherDestination.h:57-62 | The loop writes a batch: all but the last message as incomplete |
| `ChunkQueue.AddressIsPosition` | include/core/AtomicQueue.h:401-424 | Among the slots of linked chunks equal addresses are equal positions, in spite of recycled chunks |
| `ChunkQueue.InvPush` | include/core/AtomicQueue.h:289-308 | A push moves the back slot to the old end and the end on by one; at a chunk border exactly the spare chunk, or if there is none the one from malloc, is linked, and no spare is left; otherwise memory, links and spare are untouched |
| `ChunkQueue.InvUnpush` | include/core/AtomicQueue.h:310-329 | An unpush takes back slot and end back by one; exactly the chunk that the end leaves is freed and unlinked, and the spare chunk stays |
| `ChunkQueue.InvPop` | include/core/AtomicQueue.h:331-344 | A pop moves the front on by one; a chunk that is used up is unlinked and becomes the spare one, and exactly the old spare chunk is freed |
| `ChunkQueue.InvTake` | include/core/AtomicQueue.h:296-304 | The exchange of the spare chunk for null: the writer has the spare chunk, or only if there was none the one from malloc, which is in no list |
| `ChunkQueue.InvLink` | include/core/AtomicQueue.h:297-307 | Linking the chunk that the writer has puts it at the end of the chain; no other chunk changes hands |
| `ChunkQueue.InvStepFront` | include/core/AtomicQueue.h:333-338 | Before its exchange a pop has moved the front on by one; a chunk that is used up is unlinked and in the hands of the reader, still in memory |
| `ChunkQueue.InvCreate` | include/core/AtomicQueue.h:248-258 | A new queue owns exactly the chunks it obtained: two if a chunk holds one value, else one |
| `ChunkQueue.DestructorFreesAll` | include/core/AtomicQueue.h:260-277 | With no operation in progress the loop leaves the spare chunk in memory and the last free leaves nothing: every chunk is freed, each once |
| `ChunkQueue.LoopFreesLinked` | include/core/AtomicQueue.h:262-272 | The loop of the destructor frees exactly the linked chunks |
| `PipeMemory.MemoryDeliversInOrder` | include/core/AtomicQueue.h:289-438 | From creation, for every interleaving of writer and reader in which each push and pop is cut at its exchange of the spare chunk, given only that malloc returns memory not in use: the reader gets a prefix of what was flushed; w, r and c, and f between writes, point into the live window; and whenever both are between operations the destructor leaves nothing |
| `PipeMemory.RunStands` | include/core/AtomicQueue.h:289-438 | After every such interleaving the memory stands for the abstract pipe after the same calls |
| `PipeMemory.StepStands` | include/core/AtomicQueue.h:289-438 | Each step by pointers, the two exchanges of the spare chunk and what follows them included, does to memory what the call it belongs to does to the abstract pipe, or nothing |
| `PipeMemory.EveryScheduleIsServable` | include/core/AtomicQueue.h:296-304 | No interleaving is ruled out by what is asked of malloc |
| `PipeMemory.SomethingIsEnabled` | include/core/AtomicQueue.h:289-438 | Each side may always go on: with any call it likes, or with the step of the call it is in the middle of |
| `PipeMemory.WriterFinishes` | include/core/AtomicQueue.h:296-307 | A write that has to link a chunk is at its end two steps of the writer later, and these do nothing to the abstract pipe |
| `PipeMemory.ReaderFinishes` | include/core/AtomicQueue.h:333-343 | A read that uses up a chunk is at its end two steps of the reader later |
| `PipeMemory.WriteStands` | include/core/AtomicQueue.h:383-390 | The pointer operations of a whole write do to memory what the abstract write does |
| `PipeMemory.UnwriteStands` | include/core/AtomicQueue.h:392-399 | Taking back by pointers does what the abstract unwrite does, and returns the same item or the same refusal |
| `PipeMemory.FlushStands` | include/core/AtomicQueue.h:401-415 | Both steps of a flush by pointers do what the abstract ones do: comparing pointers is comparing positions |
| `PipeMemory.CheckReadStands` | include/core/AtomicQueue.h:417-428 | A look by pointers does what the abstract look does and has the same answer |
| `PipeMemory.ReadStands` | include/core/AtomicQueue.h:430-438 | A read by pointers does what the abstract read does; the value taken is the one at the front position |
| `AtomicPipe.AtomicQueue.Push` | include/core/AtomicQueue.h:289-308 | The statements of a push leave the queue that the memory-level push specifies: back slot at the old end, end advanced, the spare chunk or a new one linked at a chunk border |
| `AtomicPipe.AtomicQueue.Unpush` | include/core/AtomicQueue.h:310-329 | The statements of an unpush leave the queue that the memory-level unpush specifies: back and end one slot earlier, a chunk that became empty freed |
| `AtomicPipe.AtomicQueue.Pop` | include/core/AtomicQueue.h:331-344 | The statements of a pop leave the queue that the memory-level pop specifies: front advanced, a chunk left behind exchanged with the spare one, which is freed |
| `AtomicPipe.AtomicPipe.constructor` | include/core/AtomicQueue.h:375-381 | A new pipe stands for the empty abstract pipe |
| `AtomicPipe.AtomicPipe.Write` | include/core/AtomicQueue.h:383-390 | In place: a write stands for the abstract write |
| `AtomicPipe.AtomicPipe.Unwrite` | include/core/AtomicQueue.h:392-399 | In place: takes back an incomplete item, or says there is none |
| `AtomicPipe.AtomicPipe.FlushExchange` | include/core/AtomicQueue.h:403-414 | In place: the compare-exchange of a flush |
| `AtomicPipe.AtomicPipe.FlushStore` | include/core/AtomicQueue.h:408-410 | In place: the plain store after a failed compare-exchange |
| `AtomicPipe.AtomicPipe.Flush` | include/core/AtomicQueue.h:401-415 | In place: afterwards everything complete is published; false exactly if the reader slept |
| `AtomicPipe.AtomicPipe.CheckRead` | include/core/AtomicQueue.h:417-428 | In place: true exactly if a flushed value is unread |
| `AtomicPipe.AtomicPipe.Read` | include/core/AtomicQueue.h:430-438 | In place: the oldest flushed unread item, if there is one; front moves by one, items and the bounds of the writer are kept |
| `Dispatcher.NoMessageStranded` | include/threading/DispatcherThreadContext.h:76-110 | In every interleaving, through partial drains and restored bits, a source with a flushed unread message has its bit in the bitmap or in the reader's hands, or its writer is about to signal; in terms of the writes accepted it is `DispatcherDelivery.WritesAreKept` and `AcceptedMeansDelivered` |
| `Dispatcher.WakeupsMatchSleeps` | include/threading/DispatcherThreadSignaler.h:42-65 | The wait bit is on only while the reader is committed to sleep, and then alone; each sleep is owed exactly one post; the semaphore never exceeds one; a poll never comes back with nothing |
| `Dispatcher.AsleepMeansAllDelivered` | include/threading/DispatcherThreadContext.h:76-110 | A reader asleep with every writer at rest has received every complete message; in terms of the writes accepted it is `DispatcherDelivery.AsleepMeansAllReceived` |
| `DispatcherDelivery.WritesAreKept` | include/threading/Dispatcher.h:120-135 | In every interleaving the messages in the pipe of a source are those of the writes accepted from it, in order and no others; with its writer at rest everything up to the last complete one is flushed |
| `DispatcherDelivery.AsleepMeansAllReceived` | include/threading/DispatcherThreadContext.h:76-110 | A reader asleep with every writer at rest has received from each source every accepted message up to the last complete one |
| `DispatcherDelivery.WritersSettle` | include/threading/Dispatcher.h:120-135 | From any reached state at most four steps of each writer bring all of them to rest, with nothing lost |
| `DispatcherDelivery.ReadTakesAll` | include/threading/DispatcherThreadContext.h:76-110 | A read that begins with the writers at rest and is asked for more than there is comes back, having delivered everything flushed; a blocking one too if any bit is on, else it goes to sleep |
| `DispatcherDelivery.EverythingArrives` | include/threading/DispatcherThreadContext.h:76-110 | From any state with the reader outside: let the writers come to rest, then read; the read comes back, and what was delivered from a source is everything complete that was written to it |
| `DispatcherDelivery.AcceptedMeansDelivered` | include/threading/Dispatcher.h:120-135 | After any run with the reader outside, the writers come to rest and a read that is asked for enough has delivered from each source every accepted message up to the last complete one |
| `Dispatcher.DeliveryIsFifo` | include/threading/DispatcherThreadContext.h:92-103 | What the reader received from a source is, in order, a prefix of what that source flushed |
| `Dispatcher.InvStep` | include/threading/Dispatcher.h:120-135 | Every step of every writer (write, flush, signal, post) and of the reader keeps these laws; that complete messages are flushed and come through is in `DispatcherDelivery` |
| `Dispatcher.MatrixIsInjective` | include/threading/Dispatcher.h:122 | Different pairs of source and destination use different pipes of the matrix |
| `SignalWord.DesiredIsMeant` | include/core/Atomic.h:151-260 | What the shifts and masks compute from a 64-bit word is, on the set of its digits: one digit set and another cleared; an exchange; one word for zero, another for anything else; digits added. The result is again a word |
| `SignalWord.TestIsDigit` | include/core/Atomic.h:168 | The test by masking is true exactly if the digit is on |
| `SignalRace.ExchangesAreAtomic` | include/core/Atomic.h:151-260 | For any number of threads in their compare-exchange loops, in every interleaving, the operations completed stand in one order in which each returned exactly the digits left by those before it, and the word holds what all of them left: no digit set or cleared is lost to a race |
| `SignalRace.RetryMeansProgress` | include/core/Atomic.h:151-260 | A compare-exchange that fails does so only because another operation was completed since the word was seen |
| `SignalRace.CallsAreCompleted` | include/core/Atomic.h:151-260 | A thread not in an operation may begin any; it comes back only by completing it, on the word it found; and nothing else completes anything or changes the word |
| `SignalRace.AloneCompletes` | include/core/Atomic.h:151-260 | Whatever happened before, a thread in an operation completes it within two steps of its own if no other thread steps in between |
| `ThreadContext.DispatcherThreadSignaler.Update` | include/core/Atomic.h:151-260 | The loop around the compare-exchange, whatever other threads make of the word before each attempt, ends; what it stores is the meaning of the operation on the word that was there at that moment, which it returns |
| `ThreadContext.DispatcherThreadSignaler.Signal` | include/threading/DispatcherThreadSignaler.h:42-46 | On the word: the source digit goes on, the wait digit off, and a post is made exactly if that was on |
| `ThreadContext.DispatcherThreadContext.Write` | include/threading/Dispatcher.h:120-130 | Whether the reader is outside or asleep, a write appends the message to the pipe of its source and nothing else; if it completes a batch everything is flushed, the digit of the source is on, and a reader asleep has exactly one post |
| `ThreadContext.DispatcherThreadContext.Drain` | include/threading/DispatcherThreadContext.h:90-103 | Reads one source until it has nothing, dropping its digit from the word, or until the count is reached, keeping it |
| `ThreadContext.DispatcherThreadContext.Read` | include/threading/DispatcherThreadContext.h:76-110 | A read, blocking or not, returns at most count messages, each the next of its source; if fewer, nothing flushed is left unread; it goes to sleep exactly if it is blocking and no digit was on; the count becomes the number of messages, but without a digit on it stays what it was |
| `ThreadContext.DispatcherThreadContext.Resume` | include/threading/DispatcherThreadSignaler.h:48-59 | Once the semaphore lets a blocking read through some digit is on; it takes the word and reads on like any other, and the count becomes the number of messages |
| `EventCount.WakeupsConserved` | test/testzillians-common-core/ConditionVarPerformanceTest/eventcount.h:346-490 | For every thread in every interleaving: places in the wait set + posts owed + semaphore = one if it announced a wait it has not finished or carries the debt of one it gave up, else zero |
| `EventCount.NodeIsFree` | test/testzillians-common-core/ConditionVarPerformanceTest/eventcount.h:348-361 | A thread about to push its node, or gone, is in no list, neither the wait set nor what a notifier still holds |
| `EventCount.NoLostWakeup` | test/testzillians-common-core/ConditionVarPerformanceTest/eventcount.h:467-490 | Once the condition is set and its notifier has been through the locked section, from then on and whatever is done later, a sleeper that saw it unset is out of the wait set with exactly one post owed or delivered; what each call of a notifier does is `EventCountCalls.NotifierWakes` |
| `EventCountCalls.NotifierWakes` | test/testzillians-common-core/ConditionVarPerformanceTest/eventcount.h:414-490 | In every interleaving a notifier comes out of a call having seen an empty wait set and done nothing; or it found a wait set under the lock, took of it the first thread, or all, or of all of them shown to its predicate exactly the picked ones, and posted each of them once |
| `EventCountCalls.CallsAreWatched` | test/testzillians-common-core/ConditionVarPerformanceTest/eventcount.h:414-490 | That covers every call: a notifier none of whose calls was watched is out |
| `EventCountCalls.CallBegins` | test/testzillians-common-core/ConditionVarPerformanceTest/eventcount.h:395-412 | A call to a notifier that is out begins, whatever goes on |
| `EventCountCalls.NotifierFinishes` | test/testzillians-common-core/ConditionVarPerformanceTest/eventcount.h:414-490 | A notifier that does not have to wait for the lock comes to the end of its call, whatever its predicate answers |
| `EventCountCalls.WaitSleepsIff` | test/testzillians-common-core/ConditionVarPerformanceTest/eventcount.h:365-373 | In every interleaving a thread that commits to its wait sleeps exactly if the number of locked sections of notifiers entered since it pushed its node is a multiple of 2^32: below that, exactly if there was none; else it gives the wait up |
| `EventCountCalls.WaitIsAnnounced` | test/testzillians-common-core/ConditionVarPerformanceTest/eventcount.h:346-363 | Left to itself a thread that began a wait stands at the front of the wait set after three steps, with the epoch of that moment |
| `EventCountCalls.WaitIsGivenUp` | test/testzillians-common-core/ConditionVarPerformanceTest/eventcount.h:375-393 | A thread that gives a wait up is out of the wait set afterwards, and in debt for a wake-up exactly if a notifier had taken it before |
| `EventCountCalls.SleepEnds` | test/testzillians-common-core/ConditionVarPerformanceTest/eventcount.h:369-370 | A thread that sleeps, or pays in its destructor, goes on once its semaphore is positive |
| `EventCount.DebtsArePayable` | test/testzillians-common-core/ConditionVarPerformanceTest/eventcount.h:308-312 | A thread that pays for a spurious wake-up, also in its destructor, is never stuck once the notifiers are out |
| `EventCount.FlagCoversWaitset` | test/testzillians-common-core/ConditionVarPerformanceTest/eventcount.h:375-393 | The flag read without the lock is on whenever the node is in the wait set |
| `EventCount.InvStep` | test/testzillians-common-core/ConditionVarPerformanceTest/eventcount.h:346-490 | Every step of every thread and notifier keeps the conservation law; what calls come to is in `EventCountCalls` |
| `NodeList.PushKeeps` | test/testzillians-common-core/ConditionVarPerformanceTest/eventcount.h:206-213 | Pushing a free node puts it at the front |
| `NodeList.RemoveKeeps` | test/testzillians-common-core/ConditionVarPerformanceTest/eventcount.h:224-229 | Removing relinks the two neighbours |
| `NodeList.FlushKeeps` | test/testzillians-common-core/ConditionVarPerformanceTest/eventcount.h:241-256 | All nodes go to the target list, in order, and the list is empty |
| `NodeList.ReuseIsSafe` | test/testzillians-common-core/ConditionVarPerformanceTest/eventcount.h:206-213 | Pushing a free node leaves a walk along another list undisturbed |
| `EventCountMemory.NodesAreNeverMisused` | test/testzillians-common-core/ConditionVarPerformanceTest/eventcount.h:186-490 | In every interleaving, with nodes reused and threads dying, no step touches a node that is gone, and the linked lists hold exactly what the protocol says |
| `EventCountMemory.ApplyStands` | test/testzillians-common-core/ConditionVarPerformanceTest/eventcount.h:346-490 | Whatever the protocol does next the pointers can do, and they stand for the result |
| `EventCountMemory.ScanStands` | test/testzillians-common-core/ConditionVarPerformanceTest/eventcount.h:443-456 | Each step of the selecting loop by pointers stands for the protocol step; the next pointer is read before the node changes lists |
| `EventCountMemory.WalkStands` | test/testzillians-common-core/ConditionVarPerformanceTest/eventcount.h:458-464 | Each step of the posting walk by pointers stands for the protocol step; the next pointer is read before the post, after which the node may be reused or gone |
| `DLists.DList.constructor` | test/testzillians-common-core/ConditionVarPerformanceTest/eventcount.h:201-204 | A new list has no threads and its sentinels point at each other |
| `DLists.DList.Push` | test/testzillians-common-core/ConditionVarPerformanceTest/eventcount.h:206-213 | A node that is in no list comes to the front: the contents are the thread and then the old contents, linked both ways |
| `DLists.DList.Pop` | test/testzillians-common-core/ConditionVarPerformanceTest/eventcount.h:215-222 | Returns null, changing nothing, exactly if the list is empty; else takes the first thread off |
| `DLists.DList.Remove` | test/testzillians-common-core/ConditionVarPerformanceTest/eventcount.h:224-229 | The contents are the old ones without the thread, in the same order |
| `DLists.DList.FlushTo` | test/testzillians-common-core/ConditionVarPerformanceTest/eventcount.h:241-256 | The target holds the old contents in order, the list holds nothing |
| `DLists.Eventcount.NotifyOne` | test/testzillians-common-core/ConditionVarPerformanceTest/eventcount.h:414-430 | With nothing else going on exactly the first of the wait set is woken |
| `DLists.Eventcount.NotifyAll` | test/testzillians-common-core/ConditionVarPerformanceTest/eventcount.h:467-490 | With nothing else going on everyone who waits is woken exactly once and nobody else is |
| `DLists.ClearAll` | test/testzillians-common-core/ConditionVarPerformanceTest/eventcount.h:476-481 | The walk clears the flag of each thread in the list |
| `DLists.PostAll` | test/testzillians-common-core/ConditionVarPerformanceTest/eventcount.h:483-489 | The walk posts each thread in the list once |
| `FragmentLayout.AllotSound` | src/libzillians-common-core/core/FragmentFreeAllocator.cpp:141-208 | Taking a block keeps the tiling, no two adjacent free blocks, whole chunks, and moves exactly the rounded size to the used side |
| `FragmentLayout.ReleaseSound` | src/libzillians-common-core/core/FragmentFreeAllocator.cpp:243-414 | Giving a block back in any of the four cases keeps all of that and takes its size off the used side |
| `FragmentLayout.ReleaseUndoesAllot` | src/libzillians-common-core/core/FragmentFreeAllocator.cpp:95-417 | Giving back what was just taken restores the layout |
| `FragmentAnswers.AllotAdds` | src/libzillians-common-core/core/FragmentFreeAllocator.cpp:141-208 | Taking a block adds one allocated block, of exactly the size and reference asked for, at the start of a free one that could hold it; all others are as they were |
| `FragmentAnswers.ReleaseTakes` | src/libzillians-common-core/core/FragmentFreeAllocator.cpp:243-414 | Giving a block back takes exactly that one from the allocated blocks, in each of the four cases |
| `FragmentAnswers.CompactedLives` | src/libzillians-common-core/core/FragmentFreeAllocator.cpp:596-677 | Compaction keeps every allocated block, in order, and moves each to the sum of the sizes of those before it |
| `FragmentLayout.AvailableNeverWraps` | src/libzillians-common-core/core/FragmentFreeAllocator.cpp:419-432 | What is in use never exceeds the whole chunks of the pool, so the unsigned subtraction does not wrap |
| `FragmentLayout.RoundedCovers` | src/libzillians-common-core/core/FragmentFreeAllocator.cpp:106-108 | The rounded request covers the request exactly if that is at most 2^64 - 1024; above, the word wraps to zero |
| `FragmentLayout.FirstFit` | src/libzillians-common-core/core/FragmentFreeAllocator.cpp:110-139 | The first free block that is large enough |
| `FragmentLayout.CompactedSound` | src/libzillians-common-core/core/FragmentFreeAllocator.cpp:596-677 | Compaction keeps the layout and what is in use |
| `FragmentLayout.CompactedFits` | src/libzillians-common-core/core/FragmentFreeAllocator.cpp:656-670 | After compaction a request other than zero succeeds exactly if it is at most pool size minus used |
| `FragmentLayout.MovesKeepBytes` | src/libzillians-common-core/core/FragmentFreeAllocator.cpp:635-645 | Moving the blocks down one by one keeps the bytes of every allocated block, though source and target overlap |
| `FragmentLayout.AddressesStayRightIff` | src/libzillians-common-core/core/FragmentFreeAllocator.cpp:635-645 | After compaction the kept addresses are right if and only if no allocated block had a free byte before it |
| `FragmentLayout.StaleAddressExample` | include/core/FragmentFreeAllocator.h:39-45 | A pool in which a kept address is wrong after compaction |
| `FragmentLayout.CompactionKeepsIff` | src/libzillians-common-core/core/FragmentFreeAllocator.cpp:635-645 | Compaction keeps the bytes of every allocated block, whatever they are, if and only if each non-empty block with free space before it is where its kept address says |
| `FragmentLayout.SecondCompactionExample` | src/libzillians-common-core/core/FragmentFreeAllocator.cpp:635-645 | A compaction, a free and another compaction after which a block is moved from a stale address |
| `FragmentLayout.AllotKept` | src/libzillians-common-core/core/FragmentFreeAllocator.cpp:199-205 | Taking a block keeps the kept addresses in the pool, and right if they were |
| `FragmentLayout.ReleaseKept` | src/libzillians-common-core/core/FragmentFreeAllocator.cpp:227-240 | Giving a block back keeps the kept addresses in the pool, and right if they were |
| `FragmentLayout.PackedKept` | src/libzillians-common-core/core/FragmentFreeAllocator.cpp:635-645 | Compaction leaves every kept address in the pool and not below its block |
| `FragmentBlocks.Splice` | src/libzillians-common-core/core/FragmentFreeAllocator.cpp:153-197 | Relinking a stretch of blocks: records outside change only at its border, in both lists |
| `FragmentHeap.SplitRep` | src/libzillians-common-core/core/FragmentFreeAllocator.cpp:143-195 | The pointer writes of taking part of a free block stand for the new layout |
| `FragmentHeap.WholeRep` | src/libzillians-common-core/core/FragmentFreeAllocator.cpp:143-190 | The pointer writes of taking a whole free block stand for the new layout |
| `FragmentHeap.BothRep` | src/libzillians-common-core/core/FragmentFreeAllocator.cpp:264-296 | The pointer writes of merging with both neighbours stand for the released layout: one record kept, two deleted, both lists relinked |
| `FragmentHeap.LeftRep` | src/libzillians-common-core/core/FragmentFreeAllocator.cpp:299-313 | The pointer writes of merging into the left neighbour stand for the released layout |
| `FragmentHeap.RightRep` | src/libzillians-common-core/core/FragmentFreeAllocator.cpp:316-334 | The pointer writes of merging into the right neighbour stand for the released layout |
| `FragmentHeap.AloneRep` | src/libzillians-common-core/core/FragmentFreeAllocator.cpp:337-414 | Linking a block without free neighbours between its nearest free blocks |
| `FragmentHeap.UnlinkChained` | src/libzillians-common-core/core/FragmentFreeAllocator.cpp:613-627 | Unlinking a free block during compaction leaves the list of the other blocks, linked both ways |
| `FragmentHeap.AppendRep` | src/libzillians-common-core/core/FragmentFreeAllocator.cpp:657-670 | Appending the one free block to a list of allocated blocks leaves both lists right |
| `FragmentAllocation.FragmentAllocator.constructor` | src/libzillians-common-core/core/FragmentFreeAllocator.cpp:30-59 | One free block covers the whole pool and no pointer is known |
| `FragmentAllocation.FragmentAllocator.FindFit` | src/libzillians-common-core/core/FragmentFreeAllocator.cpp:110-139 | Walking the free list finds the first fit |
| `FragmentAllocation.FragmentAllocator.Take` | src/libzillians-common-core/core/FragmentFreeAllocator.cpp:141-196 | Both lists and both heads stand for the layout in which the first part of the free block, or all of it, is taken |
| `FragmentAllocation.FragmentAllocator.Allocate` | src/libzillians-common-core/core/FragmentFreeAllocator.cpp:95-213 | Fails, changing nothing, exactly if no free block holds the rounded size; else takes the first that does and records the pointer; kept addresses stay right |
| `FragmentAllocation.FragmentAllocator.FindLeft` | src/libzillians-common-core/core/FragmentFreeAllocator.cpp:345-353 | Walking left finds the nearest free block, or none |
| `FragmentAllocation.FragmentAllocator.FindRight` | src/libzillians-common-core/core/FragmentFreeAllocator.cpp:383-391 | Walking right finds the nearest free block, or none |
| `FragmentAllocation.FragmentAllocator.GiveBack` | src/libzillians-common-core/core/FragmentFreeAllocator.cpp:246-414 | In each of the four cases both lists and both heads stand for the released layout |
| `FragmentAllocation.FragmentAllocator.Deallocate` | src/libzillians-common-core/core/FragmentFreeAllocator.cpp:215-417 | Fails, changing nothing, for a null pointer, a null reference or one of no allocated block; else releases that block and forgets the pointer; kept addresses stay right |
| `FragmentAllocation.FragmentAllocator.Sweep` | src/libzillians-common-core/core/FragmentFreeAllocator.cpp:602-654 | The loop leaves the allocated blocks packed and linked, the bytes moved from their kept addresses, and returns used bytes, free bytes and the last allocated block |
| `FragmentAllocation.FragmentAllocator.Defragment` | src/libzillians-common-core/core/FragmentFreeAllocator.cpp:596-677 | With at least one allocated block, whatever the kept addresses have become: blocks packed in order, one free block for the rest, memory as after the moves from the kept addresses; and the bytes kept if each block that moves is where its kept address says |
| `FragmentAllocation.FragmentAllocator.Available` | src/libzillians-common-core/core/FragmentFreeAllocator.cpp:419-432 | Total of whole chunks minus what is in use |
| `FragmentAllocation.FragmentAllocator.IsValid` | src/libzillians-common-core/core/FragmentFreeAllocator.cpp:434-444 | Known exactly if some allocated block has the reference |
| `FragmentAllocation.AllotBijection` | src/libzillians-common-core/core/FragmentFreeAllocator.cpp:201-205 | The pointer map stays a bijection onto the allocated blocks when one is taken |
| `FragmentAllocation.ReleaseBijection` | src/libzillians-common-core/core/FragmentFreeAllocator.cpp:227-238 | The pointer map without the reference stays a bijection when its block is given back |
| `MailBoxes.FreedChunksAreOnTheirWay` | src/libzillians-common-core/core/ScalablePoolAllocator.cpp:836-907 | Of an owned block the public list is not empty if and only if exactly one of these holds: it is in its mailbox, one freeing thread is between push and post, its owner has it out and not yet private; that a free takes effect at all is `MailBoxCalls.ForeignFreeTakesEffect` |
| `MailBoxCalls.ForeignFreeTakesEffect` | src/libzillians-common-core/core/ScalablePoolAllocator.cpp:883-907 | In every reached state a free from another thread takes the chunk from its client and puts it on the public list, once, whether that was empty or not; exactly if it was, the thread has to post |
| `MailBoxCalls.OwnFreeTakesEffect` | src/libzillians-common-core/core/ScalablePoolAllocator.cpp:226-230 | A free by the owner makes the chunk private at once and counts it off |
| `MailBoxCalls.HandingOutTakesEffect` | src/libzillians-common-core/core/ScalablePoolAllocator.cpp:790-833 | A private chunk if there is one to take, or the next one carved, comes to a client; nobody had it |
| `MailBoxCalls.TakingOverTakesEffect` | src/libzillians-common-core/core/ScalablePoolAllocator.cpp:790-833 | A block that belongs to nobody can be had, and one not in use can be given back or started over |
| `MailBoxCalls.OnlyHandedOut` | src/libzillians-common-core/core/ScalablePoolAllocator.cpp:790-907 | Only handing it out brings a chunk to a client |
| `MailBoxCalls.FreedIsSomewhere` | src/libzillians-common-core/core/ScalablePoolAllocator.cpp:856-907 | Over every run: a chunk that was freed and is with no client stands in exactly one of the lists of its block, as long as the block is not started over |
| `MailBoxCalls.EverythingComesBack` | src/libzillians-common-core/core/ScalablePoolAllocator.cpp:836-907 | From any reached state, when the frees under way are through and the owner has gone once through its mailbox, every chunk of its blocks that is with no client is private, and the clients have what they had |
| `MailBoxes.ChunksAreConserved` | src/libzillians-common-core/core/ScalablePoolAllocator.cpp:790-907 | Each carved chunk is in exactly one place; the count is of those live, public or just taken |
| `MailBoxes.WordIsNeverMistaken` | src/libzillians-common-core/core/ScalablePoolAllocator.cpp:893-901 | A freeing thread that has to post reads nothing but the owner's bin from the word that also chains the mailbox, and the chain is what was posted |
| `MailBoxes.ReturnedBlockIsForgotten` | src/libzillians-common-core/core/ScalablePoolAllocator.cpp:697-716 | A block given back by its owner is in no mailbox and known to no freeing thread |
| `MailBoxes.OwnerCollectsEverything` | src/libzillians-common-core/core/ScalablePoolAllocator.cpp:836-880 | With no free under way one pass over the mailbox leaves nothing on the public lists of the owner; over runs, with the frees under way, it is `MailBoxCalls.EverythingComesBack` |
| `MailBoxes.ChunksLieApart` | src/libzillians-common-core/core/ScalablePoolAllocator.cpp:820-833 | In any state carved chunks lie inside the block and apart, all but the first behind the header; the first exactly if the block has room for one chunk behind its header; the bump pointer is null exactly if no further one is handed out |
| `MailBoxes.SafeBinSizes` | src/libzillians-common-core/core/ScalablePoolAllocator.cpp:649-666 | A bin size is safe in every run, all chunks behind the headers of their blocks, if and only if it is at most 16304 bytes; the first carve is not looked at |
| `MailBoxes.ChunkBeforeItsBlock` | src/libzillians-common-core/core/ScalablePoolAllocator.cpp:649-666 | A bin of 20000 bytes: its first chunk is handed out 3616 bytes before its block |
| `MailBoxes.InvStep` | src/libzillians-common-core/core/ScalablePoolAllocator.cpp:790-907 | Every step of owners and freeing threads keeps these laws; that each call takes effect is in `MailBoxCalls` |
| `SmallBlocks.SmallBlock.AllocateFromFreeList` | src/libzillians-common-core/core/ScalablePoolAllocator.cpp:806-817 | Returns the first private chunk and counts it, or null, changing nothing, if there is none |
| `SmallBlocks.SmallBlock.AllocateFromBumpPtr` | src/libzillians-common-core/core/ScalablePoolAllocator.cpp:820-833 | Returns a new chunk and counts it exactly if it is the first of the block or one more fits behind the header |
| `SmallBlocks.SmallBlock.AllocateFromBlock` | src/libzillians-common-core/core/ScalablePoolAllocator.cpp:790-803 | A chunk nobody has; fails, and marks the block full, exactly if there is none private and the bump pointer is null |
| `SmallBlocks.SmallBlock.Privatize` | src/libzillians-common-core/core/ScalablePoolAllocator.cpp:856-880 | The whole public list becomes private and is counted off |
| `BinTable.TreeFindsFirstFit` | src/libzillians-common-core/core/ScalablePoolAllocator.cpp:561-637 | For every ascending table of 1 to 32 bins the decision tree finds the first bin that is large enough |
| `BinTable.DefaultTable` | src/libzillians-common-core/core/ScalablePoolAllocator.cpp:97-104 | The default table ascends, and grows by at most a quarter from the fourth bin on |
| `BinTable.SmallWaste` | src/libzillians-common-core/core/ScalablePoolAllocator.cpp:643-646 | In such a table a request above the fourth bin wastes less than a quarter of its size |
| `LargeChunks.AllocateKeeps` | src/libzillians-common-core/core/ScalablePoolAllocator.cpp:254-352 | A request is safe if it fits a free chunk, or the subtraction from the bump pointer does not wrap, or the wrapped pointer is refused, and it is of 16 bytes or more unless refused. Then regions tile the span, ascending, no two adjacent free, each with room for a free record; live bytes grow by the request and its size word; at most one record is lost; what the answer means is `LargeAnswers.AllocateAnswers` |
| `LargeAnswers.AllocateAnswers` | src/libzillians-common-core/core/ScalablePoolAllocator.cpp:254-337 | A request that is granted is answered with the address of a chunk of exactly the size asked for, behind its size word, which a free finds and which was not live before; all other live chunks are as they were |
| `LargeAnswers.RefusedIff` | src/libzillians-common-core/core/ScalablePoolAllocator.cpp:254-337 | A request is refused exactly if no free chunk is as large and there is no room for it and its size word above the floor |
| `LargeAnswers.LowestIsTaken` | src/libzillians-common-core/core/ScalablePoolAllocator.cpp:262-312 | If a free chunk is large enough the answer is not above it, and the bump pointer stays |
| `LargeAnswers.ReleaseTakes` | src/libzillians-common-core/core/ScalablePoolAllocator.cpp:355-450 | A free takes exactly its chunk from the live ones, whether it goes to the bump pointer or is merged |
| `LargeAnswers.FreeingGivesBack` | src/libzillians-common-core/core/ScalablePoolAllocator.cpp:254-450 | Freeing the address just handed out leaves the live chunks as before the request, from a free chunk or from the bump pointer |
| `LargeAnswers.OthersAreLeftAlone` | src/libzillians-common-core/core/ScalablePoolAllocator.cpp:254-450 | Of the live chunks each step touches only the one it is about; a refused request and a free of an unknown address touch none |
| `LargeChunks.AllocateKeepsIff` | src/libzillians-common-core/core/ScalablePoolAllocator.cpp:336-349 | In 64-bit arithmetic, for every word requested, the layout holds afterwards if and only if the request is safe |
| `LargeChunks.WrappedGrant` | src/libzillians-common-core/core/ScalablePoolAllocator.cpp:336-349 | A pool of 2^30 bytes at 2^40 grants a request of 2^64 - 16 bytes |
| `LargeChunks.RecordStaysClearIff` | src/libzillians-common-core/core/ScalablePoolAllocator.cpp:371-378 | The record written into a chunk when it is freed stays clear of the next region if and only if the chunk is of 16 bytes or more |
| `LargeChunks.RecordOverNextChunk` | src/libzillians-common-core/core/ScalablePoolAllocator.cpp:38 | With a table whose last bin is 7 three requests of 8 bytes are granted so close that the free record of the middle one, which is not at the bump pointer, reaches over the size word of the upper one |
| `LargeChunks.GrowKeeps` | src/libzillians-common-core/core/ScalablePoolAllocator.cpp:540-558 | Taking the next stretch for small blocks keeps the upper part; the ends are apart afterwards, the floor up by a whole stretch, if and only if there was room for it |
| `LargeChunks.AllKnownIff` | src/libzillians-common-core/core/ScalablePoolAllocator.cpp:453-456 | Every region of the upper part is known as large if and only if there is none or the floor is below the bump pointer and its size word |
| `LargeChunks.MistakenIff` | src/libzillians-common-core/core/ScalablePoolAllocator.cpp:453-456 | After a growth that failed, which leaves the floor where it was moved, a live large chunk is known as one if and only if it lies above that |
| `LargeChunks.MistakenChunk` | src/libzillians-common-core/core/ScalablePoolAllocator.cpp:540-558 | A pool in which a chunk of 8193 bytes, just granted, is taken for a small one after a growth that failed |
| `LargeChunks.ReleaseKeeps` | src/libzillians-common-core/core/ScalablePoolAllocator.cpp:355-450 | A free keeps the same, loses nothing, and merges with both neighbours |
| `LargeChunks.LargeRunsConserve` | src/libzillians-common-core/core/ScalablePoolAllocator.cpp:254-450 | Over any run of words requested, frees and growths in which each request is safe when it comes, the span from the bump pointer to the top is exactly live, free and lost bytes, and the lost ones are at most one record a request |
| `LargeChunks.LargeRunsSoundIff` | src/libzillians-common-core/core/ScalablePoolAllocator.cpp:254-450 | Over any run of words requested, frees and growths the layout holds all along if and only if each request is safe when it comes |
| `LargeChunks.EndsStayApartIff` | src/libzillians-common-core/core/ScalablePoolAllocator.cpp:540-558 | Over such runs the two ends of the pool stay apart all along if and only if there is room for each growth when it comes, and then every region of the upper part is known as large |
| `LargeChunks.ReleaseUndoesBump` | src/libzillians-common-core/core/ScalablePoolAllocator.cpp:364-368 | Freeing at once what came from the bump pointer undoes it |
| `LargeLists.ListFitIs` | src/libzillians-common-core/core/ScalablePoolAllocator.cpp:262-334 | Walking the list finds what first fit finds |
| `LargeLists.GrantMemory` | src/libzillians-common-core/core/ScalablePoolAllocator.cpp:268-332 | The list after a grant, split or whole, is that of the new layout |
| `LargeLists.ReleaseList` | src/libzillians-common-core/core/ScalablePoolAllocator.cpp:427-448 | The list after inserting and merging is that of the new layout |
| `LargeLists.LargePool.FindFit` | src/libzillians-common-core/core/ScalablePoolAllocator.cpp:262-334 | The walk returns the first chunk of the list that is large enough, or none |
| `LargeLists.LargePool.AllocateLarge` | src/libzillians-common-core/core/ScalablePoolAllocator.cpp:254-352 | In wrapping arithmetic, for every word of 16 or more requested: pool, bump pointer and address are as specified; memory, list and size words stand for the pool after the grant if and only if the request was safe; for a safe request the answer is the address of a live chunk of exactly the size asked for, not live before, all others as they were |
| `LargeLists.LargePool.AllocateBlocks` | src/libzillians-common-core/core/ScalablePoolAllocator.cpp:540-558 | Moves the floor, also when it fails; succeeds exactly if the ends are still apart, and then the stretch ends where the floor is |
| `LargeLists.LargePool.InsertSorted` | src/libzillians-common-core/core/ScalablePoolAllocator.cpp:371-424 | The list holds the old chunks and the new one, by ascending address, linked both ways |
| `LargeLists.LargePool.MergeTouching` | src/libzillians-common-core/core/ScalablePoolAllocator.cpp:427-448 | Exactly the list neighbours whose bytes touch the chunk are merged with it |
| `LargeLists.LargePool.DeallocateLarge` | src/libzillians-common-core/core/ScalablePoolAllocator.cpp:355-450 | Memory, list and size words stand for the pool after the specified release, by the bump pointer or by the list |
| `BitTrick.RoundUpIsLeast` | include/utility/BitTrickUtil.h:65-79 | From 1 to 2^63 the smear gives the least power of two that is large enough; 0 and everything above give 0 |
| `BitTrick.RoundUpToPowerOfTwo` | include/utility/BitTrickUtil.h:67-78 | The six shifts and ors give the least power of two that is large enough, for 1 to 2^63 |
| `BitTrick.MultipleIsLeast` | include/utility/BitTrickUtil.h:36-43 | Rounding to a multiple gives a multiple, large enough, and the least such |
| `ByteBuffers.WriteAppends` | include/core/Buffer.h:2510-2533 | Storing behind the contents of a circular store, also round the end, appends to them |
| `ByteBuffers.ReadTakes` | include/core/Buffer.h:2444-2467 | Reading at the front of a circular store, also round the end, takes from the front of its contents |
| `ByteBuffers.Buffer.constructor` | include/core/Buffer.h:313-356 | Without a size empty and growing, with a size fixed; a circular store is one larger |
| `ByteBuffers.Buffer.DataSize` | include/core/Buffer.h:1041-1061 | The number of bytes written and not yet read |
| `ByteBuffers.Buffer.FreeSize` | include/core/Buffer.h:1028-1031 | Data size and free size add up to the allocated size |
| `ByteBuffers.Buffer.Crunch` | include/core/Buffer.h:911-955 | Keeps the contents and moves them to the start |
| `ByteBuffers.Buffer.Resize` | include/core/Buffer.h:2565-2584 | A larger store with the same contents |
| `ByteBuffers.Buffer.SetArray` | include/core/Buffer.h:2510-2533 | The store holds the bytes from the position on, round the end if need be, and is otherwise unchanged |
| `ByteBuffers.Buffer.GetArray` | include/core/Buffer.h:2444-2467 | Returns the bytes from the position on, round the end if need be |
| `ByteBuffers.Buffer.WriteArray` | include/core/Buffer.h:2364-2402 | Appends to the contents; the store is kept if there is room, else grows to the least power of two that fits, plus one if circular |
| `ByteBuffers.Buffer.Rskip` | include/core/Buffer.h:1201-1226 | A circular buffer takes bytes off the front and fails, changing nothing, exactly if there are fewer; a plain one always goes on, and its positions are in order afterwards if and only if there were as many |
| `ByteBuffers.Buffer.ReadArray` | include/core/Buffer.h:1851-1857 | Returns and takes off the first bytes of the contents |
| `ByteBuffers.Buffer.Append` | include/core/Buffer.h:2557-2563 | Moves bytes from one buffer to the other: those in one stretch from the read position of the source, with what lies beyond its store |
| `ByteBuffers.StretchIsFrontIff` | include/core/Buffer.h:2557-2563 | What is appended is the front of the contents of the source, whatever lies beyond its store, if and only if these bytes do not go round the end |
| `Serializer.RoundTrip` | include/core/Buffer.h:1544-1748 | Every value within the length limits, 8192 for texts and 65536 for containers: reading what was written gives the value back and leaves the bytes behind untouched |
| `Serializer.ReadIsWritable` | include/core/Buffer.h:1544-1748 | Whatever the bytes are, what reading returns is a value of the type within all limits; a map has every key once |
| `Serializer.ReadAgain` | include/core/Buffer.h:1544-1748 | What has been read, from whatever bytes, passes the checks of writing, and reading it back gives it again |
| `Serializer.ComesBackIff` | include/core/Buffer.h:2072-2204 | Of the values of a type that pass the checks of writing, made on lengths cut to 32 bits, exactly those come back that have no length of 2^32 or more |
| `Serializer.LongText` | include/core/Buffer.h:2072-2083 | A text of 2^32 octets passes the check and comes back empty |
| `Serializer.LengthIsNumber` | include/core/Buffer.h:2072-2083 | A length is written as four bytes, the lowest first, whose value is the length if that is below 2^32 |
| `Serializer.WritableIff` | include/core/Buffer.h:2072-2204 | A value is within the limits if and only if it is of the type, passes the checks of writing, and no length is cut |
| `Serializer.WriteValue` | include/core/Buffer.h:2062-2217 | Writing into a buffer, plain or circular, fixed or growing, succeeds exactly if every text and container passes its check, made on the length cut to 32 bits; it appends the bytes of the value, or what comes before the first check that fails |
| `Serializer.AllIsEmitted` | include/core/Buffer.h:2062-2217 | A value that passes every check is appended as a whole |
| `Serializer.ReadValue` | include/core/Buffer.h:1544-1748 | Reading a typed value takes exactly its bytes off the front of the contents, or fails as the length checks do or if there are too few bytes |
| `Serializer.WriteThenRead` | include/core/Buffer.h:1544-1748 | Through a buffer of either kind the value read is the value written, and what was written behind it is still there |
| `Serializer.ProbeIsExact` | include/core/Buffer.h:582-813 | The probe is the number of bytes written when container elements are of fixed size or in the list of variable types |
| `Serializer.ProbeIsRightIff` | include/core/Buffer.h:638-714 | For a type as a whole the probe is right if and only if that holds |
| `Serializer.MisprobedFacts` | include/core/Buffer.h:638-645 | A value the probe gets wrong, for every other type |
| `Utf8.TextGoesRound` | include/utility/detail/boost/utf8_codecvt_facet.cpp:34-169 | For all texts of characters below 2^31 decoding undoes encoding |
| `Utf8.EncodingIsShortest` | include/utility/detail/boost/utf8_codecvt_facet.cpp:114-149 | Whatever octets decode to a character, its encoding is not longer |
| `Utf8.ErrorIsFirst` | include/utility/detail/boost/utf8_codecvt_facet.cpp:34-109 | A conversion that ends in an error stands at the first octet that makes it one: cut before that octet the input is no error, with it it is |
| `Utf8.InRestarts` | include/utility/detail/boost/utf8_codecvt_facet.cpp:34-109 | Cutting input and room anywhere and going on from where the first run stopped gives what one run gives; an error is the same error |
| `Utf8.OutRestarts` | include/utility/detail/boost/utf8_codecvt_facet.cpp:111-169 | Cutting the text and the room anywhere and going on from there puts out what one run puts out; no run ends in an error |
| `Utf8.LeadFits` | include/utility/detail/boost/utf8_codecvt_facet.cpp:205-219 | The first octet carries what is left of the character and tells how many follow |
| `Utf8.OutPutsAll` | include/utility/detail/boost/utf8_codecvt_facet.cpp:127-163 | With room for it a text is put out in full |
| `Utf8.ReadOne` | include/utility/detail/boost/utf8_codecvt_facet.cpp:53-100 | The loop over the octets of one character finds the character and its length, the octet at which it is wrong, or that the input ends inside it |
| `Utf8.ConvertIn` | include/utility/detail/boost/utf8_codecvt_facet.cpp:34-109 | The loop returns the result and positions of the specified run, and the array holds its characters |
| `Utf8.WriteOne` | include/utility/detail/boost/utf8_codecvt_facet.cpp:136-160 | The octets of the character are stored as far as there is room, and what was stored before is unchanged |
| `Utf8.ConvertOut` | include/utility/detail/boost/utf8_codecvt_facet.cpp:111-169 | The loop returns the result and positions of the specified run, and the array up to there holds its octets |
| `Base64.RoundTrip` | src/libzillians-common-utility/utility/crypto/base64.cpp:39-121 | Decoding undoes encoding for every sequence of octets |
| `Base64.GroupGoesRound` | src/libzillians-common-utility/utility/crypto/base64.cpp:49-52 | Splitting three octets into four groups of six bits and joining them again |
| `Base64.LettersAreTheTable` | src/libzillians-common-utility/utility/crypto/base64.cpp:30-33 | The letters of the 64 values are those of the table |
| `Base64.OnlyLettersAreFound` | src/libzillians-common-utility/utility/crypto/base64.cpp:30-37 | A character is taken for a letter if and only if it is in the table |
| `Base64.GroupIsNumber` | src/libzillians-common-utility/utility/crypto/base64.cpp:49-52 | The four groups are the digits to the base 64 of the number of which the three octets are the digits to the base 256, highest first |
| `Base64.EncodingIsPadded` | src/libzillians-common-utility/utility/crypto/base64.cpp:39-80 | An encoding is whole groups of four, and padding stands exactly where the letters for the octets end |
| `Base64.Base64Encode` | src/libzillians-common-utility/utility/crypto/base64.cpp:39-80 | The loop over groups of three, with padding, returns the specified encoding of as many octets as the 32-bit length says |
| `Base64.Base64Decode` | src/libzillians-common-utility/utility/crypto/base64.cpp:82-121 | The loop returns the specified decoding: groups of four up to the first character that is not of the alphabet, and what is left over |
| `Cipher.CharGoesRound` | src/libzillians-common-utility/utility/crypto/Crypto.cpp:31-52 | Decoding a character undoes encoding it under every key character; what a character becomes is `Cipher.KeyLetterMoves` |
| `Cipher.KeyLetterMoves` | src/libzillians-common-utility/utility/crypto/Crypto.cpp:31-52 | By the alphabet alone: the key letter A leaves a letter, each next key letter gives the next letter of the same case, round the end; the case of the key is of no account; what is not a letter, or has no letter for key, stays |
| `Cipher.KeyRepeats` | src/libzillians-common-utility/utility/crypto/Crypto.cpp:56-64 | The key is repeated along the text: each stretch of its length is enciphered like the first, and there each character by the key character in its place |
| `Cipher.EncryptionGoesRoundIff` | src/libzillians-common-utility/utility/crypto/Crypto.cpp:56-73 | For every key that is not empty decryption undoes encryption if and only if there are less than 2^32 octets; beyond, it gives back as many as the length cut to 32 bits says |
| `Cipher.Encrypt` | src/libzillians-common-utility/utility/crypto/Crypto.cpp:56-64 | The loop and the encoding return the enciphered octets, as many as the length cut to 32 bits says, in Base64; what enciphering means is `Cipher.KeyLetterMoves` and `KeyRepeats` |
| `Cipher.Decrypt` | src/libzillians-common-utility/utility/crypto/Crypto.cpp:65-73 | Decryption with Base64 on gives back what was encrypted under the key, up to that length |
| `DependencySolving.MarksWhatIsReached` | src/libzillians-common-utility/utility/DependencySolver.cpp:289-317 | A marking that starts without marks marks exactly what is reached by one edge or more |
| `DependencySolving.SortedIsAcyclic` | src/libzillians-common-utility/utility/DependencySolver.cpp:228 | A graph that can be sorted has no cycle |
| `DependencySolving.FlipReaches` | src/libzillians-common-utility/utility/DependencySolver.cpp:304-317 | A node is reached backwards from another exactly if it reaches it forwards |
| `DependencySolving.DependencySolver.FindRequireNode` | src/libzillians-common-utility/utility/DependencySolver.cpp:289-302 | Terminates on every graph; marks, beyond what was marked, only nodes reached, and leaves nothing out that a newly marked node requires |
| `DependencySolving.DependencySolver.FindDependentNode` | src/libzillians-common-utility/utility/DependencySolver.cpp:304-317 | Terminates on every graph; marks, beyond what was marked, only nodes that reach the given one, and leaves nothing out that requires a newly marked node |
| `DependencySolving.DependencySolver.CompileRequireNodes` | src/libzillians-common-utility/utility/DependencySolver.cpp:210-247 | On an acyclic graph adds in front exactly the nodes reached from the given one, each once, after all it requires, and not the node itself; an unknown node and a cycle are told apart |
| `DependencySolving.DependencySolver.CompileDependentNodes` | src/libzillians-common-utility/utility/DependencySolver.cpp:249-286 | On an acyclic graph adds behind exactly the nodes that reach the given one, each once, before all it requires, and not the node itself; an unknown node and a cycle are told apart |

## Left out

- Weak memory, cache lines, inline assembly: every atomic access is one sequentially consistent step. Counters of the bounded queue do not wrap at 2^64.
- The state machine of the dispatcher takes the signal word as the set of its digits, each operation on it as one step; `SignalWord` and `SignalRace` say why.
- AtomicPipe.AtomicPipe.Write: the class runs one operation at a time; all interleavings of operations, of the two steps of a flush and of the steps around the exchange of the spare chunk are covered by `Pipe` and `PipeMemory`.
- BoundedQueue.AtomicBoundedQueue.Push: the class runs one call at a time; interleavings are covered by the state machine of the same module.
- BoundedQueue.AtomicBoundedQueue.Pop: likewise.
- ThreadContext.DispatcherThreadContext.Read: between two calls of the class no writer is in the middle of a write, and a blocking read is cut in two where it waits; writers at work during a read are covered by the state machine in `Dispatcher`.
- ThreadContext.DispatcherThreadContext.Write: likewise, a write runs from beginning to end.
- DispatcherDestination::read (always fills the first slot), zero-length batches, creating, attaching and destroying thread contexts.
- DLists.Eventcount.NotifyAll: the class covers the notifier without other threads; waiting and all interleavings are covered by `EventCount` and `EventCountMemory`. The context pointer handed to a predicate is left out, its choice is arbitrary.
- Compaction of a pool without allocated blocks, which follows a null pointer in the source; `Defragment` requires one. The copy constructor of the pointer wrapper, and object pools behind `new`: the model is handed addresses that are not in use.
- FragmentAllocation.FragmentAllocator.Allocate: bytes of the pool, and of records, are not overlaid; the pool is a sequence of bytes beside the records.
- LargeLists.LargePool.AllocateLarge: size words and free records are kept in maps by address, not in the bytes of the pool, so the class requires requests of 16 bytes or more; what smaller ones do to the layout is in `LargeChunks`.
- Thread exit (orphaned blocks, partial blocks of global bins), bins of threads and their allocation, the order of the blocks within a bin and statistics.
- Chunks on the private and public lists of a block are sequences; the links inside the chunks are left out. `MailBox` models the one word whose double use is the point.
- MailBoxes.ChunksLieApart: addresses are offsets in the block and do not wrap; bins larger than the address of the block are not part of this model.
- ByteBuffers.Buffer.WriteArray: a buffer of fixed size requires room and a growing one at most 2^63 bytes, which the source asserts or takes for granted. The variants for one producer and one consumer thread publish a position in two stores and are left out, as are marks, nested buffers, wide strings, arrays of fixed length, streams and objects with their own serialization.
- Serializer.RoundTrip: floating-point and integer scalars are their bytes; keys of a map are in the order of the sequence. Going past a limit is an assertion in the source and a failure here.
- Serializer.ReadValue: too few bytes are a failure here; a plain buffer of the source reads on past its data.
- Utf8.ReadOne: the header that declares which first and continuing octets are valid is not part of the repository; they are those of section 2 of RFC 2279. Overlong forms are accepted, as in the code. Negative wide characters and `do_length` are left out.
- Base64.Base64Decode: inputs of 2^31 characters or more, whose length does not fit the source's signed counter.
- Cipher.EncryptionGoesRoundIff: the decoding is the specified one also for texts of 2^31 characters or more.
- The cipher takes letters as those of the C locale; the variant without Base64 is the same without the outer step.
- DependencySolving.DependencySolver.CompileRequireNodes: topological sorting is a parameter with its contract; graph storage, removing nodes and edges, and adding edges are left out.
- Disabled code, `InvertedArray`, `StringUtil::utf8ToWstr`, thin wrappers and macros, SHA-1, file and network access.
