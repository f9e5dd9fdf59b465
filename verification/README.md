# Verified models of the queue, the protobuf runtime and the Redis client

This project models four parts of the repository in Dafny and proves what they are for.

**`queue/` — the lock-free queue and its semaphore.**  Each atomic load, store, exchange and fetch-and-add is one
step of a transition system, and any number of threads take steps in any order; memory is sequentially consistent.
A run is a sequence of states that starts in an initial one, and the main results hold in every state of every run;
`RunsBegin` in each module says that there are runs, for any threads and any initial sizes.
Indices are unbounded, and one lemma says exactly when the comparison of wrapped indices agrees with theirs.
`IndexClaims` is the optimistic counting that both kinds of sub-queue share, `FreeList` the reference-counted list of
free blocks, `ExplicitProducer` and `ImplicitProducer` the two sub-queues with their circular block indices.  What
each of these takes for granted about the others is proved of them together: `ExplicitQueue` and `ImplicitQueue` are a
sub-queue with its counters, `Indices` what the two have in common, and `BlockPool` is the whole queue, the free list
with any number of such sub-queues, where nothing but the counters keeps a consumer from claiming indices that do not
exist, and nothing but the pool keeps two sub-queues from having the same block.  Runs are for a set of sizes that
dequeues may ask for; `NoElements` and `OneConsumer` are about dequeues that ask for none.  What a call does from its
first step to its answer is in `ExplicitCalls` and `ImplicitCalls`, for calls among the steps of other threads, and in
`QuietCalls`, for a sub-queue and its counters on their own; `ImplicitIndex` says when an implicit index grows.
`ProducerHash` is the table from threads to producers and `ProducerLookup` a whole lookup in it, `Semaphore` the
counting semaphore, and `BlockingQueue` the queue with the semaphore on top.

**`pb/` — the protobuf runtime.**  `Varint` has the readers and writers of base 128 numbers and the mappings of signed
numbers; `Skip` steps over values and groups; `Buffer` is the growing buffer with lengths that are put in afterwards;
`Message` says what the encoder writes and the decoder makes of it, for every schema, `Order` that the order of names
and keys does not matter at any depth, `Wire` what the decoder makes of bytes that this encoder does not write, `Older`
what readers with another schema make of those that it writes, and `Coder` has encoder and decoder as methods that work
on a buffer and a cursor; `Table` is the coalesced hash table; `Names` has the interned names and their cache, and
`NameHash` their hash.  The formats are those of the Protocol Buffers Encoding specification, "Base 128 Varints" and
"Message Structure".

**`hiredis/` — the Redis client.**  `Decimal` has the decimal printers and the strict reader, `Grammar` the Redis
serialization protocol (RESP2 and RESP3) as a recursive grammar, `Stack` and `Reader` the incremental reader with its
task stack, `Session` a client that feeds the reader in chunks, `Forms` the spellings of replies that servers have,
and of errors, byte by byte, `Command` the command formatters, `Split` the quoting of strings and the splitting of
lines, and `Words` lines in all the ways to write them.

`Arith`, `Blocks`, `Bytes` and `Options` hold what several of these use.

Code that changes things in place is a class or a method, proved against a function on values; protocols between
threads are states and steps.  The steps of the transition systems follow these lines:

- `IndexClaims.Advance`: 3rd/concurrentqueue/concurrentqueue.h:1940-1988, 2030-2037, 2233-2254, 2316-2323, 2536-2547,
  2598-2604, 2765-2786 and 2858-2864; `IndexClaims.Enqueue`: 1935.
- `FreeList.Advance`: 3rd/concurrentqueue/concurrentqueue.h:1438-1517.
- `ExplicitProducer.ProducerStep`: 3rd/concurrentqueue/concurrentqueue.h:1834-1937 and 2341-2378;
  `ExplicitProducer.ConsumerStep`: 1988-2029, 2254-2315 and 1547-1640.
- `ImplicitProducer.ProducerStep`: 3rd/concurrentqueue/concurrentqueue.h:2472-2533, 2886-2922 and 2949-2991;
  `ImplicitProducer.ConsumerStep`: 2547-2597, 2786-2857, 2924-2947 and 1583-1613.
- `ProducerHash.Step`: 3rd/concurrentqueue/concurrentqueue.h:3374-3524.
- `Semaphore.Step`: 3rd/concurrentqueue/lightweightsemaphore.h:262-332 and 341-402.
- `BlockingQueue.TakeOut` and the steps around it: 3rd/concurrentqueue/blockingconcurrentqueue.h:123-130, 179-186,
  294-335 and 346-455.

Where the code does something that its comments or callers might not expect, the model does it, too, and the results
say what then holds:

- A call of try_dequeue_bulk for no elements is not turned away: when its tests pass, it looks up the block at
  headIndex, which another consumer may have emptied meanwhile, and counts no element of it.  In an explicit sub-queue
  this is harmless (`ExplicitProducer.ClaimOfNoneIsHarmless`).  In an implicit one it can hand a block back that was
  handed back before (`NoElements.BlockIsReturnedTwice`), or come upon an entry without a block
  (`NoElements.NoBlockIsFound`); `NoElements.SafeExactlyWhen` and `NoElements.PoolSafeExactlyWhen` say that this
  happens just when calls may ask for none and there are two consumers.  A blocking queue never passes such a call on:
  its dequeues ask for as many as they have permits for, and loop until they have them.
- A string of 65536 bytes or more is interned but never found again, and its beginning can make a stale cache line
  answer for a shorter string: `Names.CacheIsTransparentExactlyWhen` says when, and `Names.StaleCacheAnswers` gets
  there with a name of 65536 zero bytes, for which a lookup of the empty string at its address then returns.
- A name is removed by the next deletion when its uses are a multiple of 65536, or one more than that:
  `Names.NameTable.Delete`, and `Names.OverusedNameIsRemoved` with 65537 uses.
- Two keys of a map that are the same number for the key's type, as 1 and 2^32 + 1 are for an int32, overwrite each
  other in the order of iteration: `Order.TwoKeysCommute`, `Order.CollidingKeys`.
- Growing a full hash table gives it an entry with key 0: `Table.Table.NewKey` and `Table.Table.Set`.
- The reader does not look at the two bytes behind a bulk string, takes a zero byte for a false boolean, and accepts
  an empty big number: `Grammar.BulkItem`, `Grammar.LineContent`.
- If an unknown field cannot be skipped, the decoder reads its value as keys: `Message.AfterKey`.
- In a map entry the decoder skips no unknown field, but reads its value as keys: `Wire.UnknownInEntryExactlyWhen` says
  which varints there change nothing, and `Wire.UnknownInEntryIsRead` has an entry that gets its key from one.
- A message field that occurs again replaces the one before, and is not merged with it: `Wire.LastOccurrenceCounts`.
- A text that ends in a backslash cannot be written in single quotes: `Words.SingleQuotesExactlyWhen`.
- The encoder goes on when the buffer cannot grow, and loses bytes: the field `refused` of `Buffer.Buffer` records it,
  and `Coder.EncodeThenDecode` says how much memory rules it out.

## Model

| member | source | states |
|---|---|---|
| IndexClaims.RunHasInv | 3rd/concurrentqueue/concurrentqueue.h:1940-2037 | In every state of every run of one producer and any number of single and bulk consumers the invariant of the counters, tickets and claims holds |
| IndexClaims.GrantedAtMostTail | 3rd/concurrentqueue/concurrentqueue.h:1966-1987 | The units that passed the second test, among the tickets up to any one, never exceed the tail, although each was tested against a stale overcommit, and units granted and given back never exceed the units taken |
| IndexClaims.ClaimsAreSafe | 3rd/concurrentqueue/concurrentqueue.h:1977-1988 | At every moment no claimed index is at or past tailIndex, no two claims share an index, and the claimed indices are exactly those below headIndex |
| IndexClaims.QuietMeansExact | 3rd/concurrentqueue/concurrentqueue.h:2030-2033 | With no dequeue in progress, dequeueOptimisticCount less dequeueOvercommit is headIndex again: what failed dequeues overcommitted was given back |
| IndexClaims.QuietDequeueSucceeds | 3rd/concurrentqueue/concurrentqueue.h:2233-2323 | A dequeue of up to max elements that runs alone claims as many as there are, up to max, and leaves the counters exact |
| IndexClaims.StepRefinesClaimSpec | 3rd/concurrentqueue/concurrentqueue.h:2252-2254 | Each step, seen from outside, is a stutter, one published element, or a claim of available indices at the head |
| IndexClaims.CircularLessThanAgrees | 3rd/concurrentqueue/concurrentqueue.h:469-480 | On wrapped indices less than the range apart the comparison agrees with the true one exactly when the distance is below half the range, or at most half in the other direction |
| Arith.WrapIsMod | 3rd/concurrentqueue/concurrentqueue.h:1924 | Masking a position is taking its remainder by the ring's size, also for the negative positions that signed distances lead to |
| Blocks.SplitIsDivMod | 3rd/concurrentqueue/concurrentqueue.h:2000-2002 | The block number and the offset that the other results speak of are quotient and remainder of the index by the block size |
| Indices.RunHasInv | 3rd/concurrentqueue/concurrentqueue.h:1940-2037 | Counters and sub-queue agree on the indices in every run, and whoever passed a test saw an element, whatever calls ask for |
| Indices.StepsAreClaims | 3rd/concurrentqueue/concurrentqueue.h:1977-1988 | A sub-queue's head and tail change, step by step, as the specification of claims allows, whatever calls ask for |
| Indices.ClaimedIndicesExist | 3rd/concurrentqueue/concurrentqueue.h:2238-2254 | Indices that a consumer claims, after tests against stale counters, lie below the tail |
| ExplicitQueue.StepsAreClaims | 3rd/concurrentqueue/concurrentqueue.h:2252-2254 | An explicit sub-queue's own head and tail change as the specification of claims allows, whatever calls ask for |
| ExplicitQueue.SubRuns | 3rd/concurrentqueue/concurrentqueue.h:2233-2323 | Its blocks and consumers are in a run of their own, in which what is claimed is there |
| ExplicitQueue.RunHasInv | 3rd/concurrentqueue/concurrentqueue.h:2233-2323 | The invariants of counters and sub-queue hold together in every run, whatever calls ask for, although the claim tests nothing |
| ExplicitQueue.DequeuedIsEnqueued | 3rd/concurrentqueue/concurrentqueue.h:1988-2025 | What a consumer moves out is what was enqueued at the index that the counters gave it |
| ImplicitQueue.IndicesRun | 3rd/concurrentqueue/concurrentqueue.h:2536-2604 | The indices of an implicit sub-queue and its counters are in a run as in Indices, so that the results about these hold for it, whatever calls ask for |
| ImplicitQueue.SubRuns | 3rd/concurrentqueue/concurrentqueue.h:2766-2858 | Its blocks and consumers are in a run of their own, with claims of none just if calls may ask for none |
| ImplicitQueue.RunHasInv | 3rd/concurrentqueue/concurrentqueue.h:2766-2858 | If every call asks for something, the invariants of counters and sub-queue hold together in every run |
| ImplicitQueue.DequeuedIsEnqueued | 3rd/concurrentqueue/concurrentqueue.h:2547-2582 | Then what a consumer moves out is what was enqueued at the index that the counters gave it |
| NoElements.BlockIsReturnedTwice | 3rd/concurrentqueue/concurrentqueue.h:1592-1612 | With two consumers, a call for none, and a block of any size, there is a run in which the first block is handed back twice, the second time by somebody who does not have it |
| NoElements.NoBlockIsFound | 3rd/concurrentqueue/concurrentqueue.h:2931-2947 | And one in which a consumer finds an entry that has no block |
| NoElements.SafeExactlyWhen | 3rd/concurrentqueue/concurrentqueue.h:1209-1220 | For any sizes that calls ask for besides one, and any consumers: in every run of an implicit sub-queue each block is handed back once at most and no consumer is stuck, if and only if no call asks for none, or there is just one consumer |
| NoElements.PoolSafeExactlyWhen | 3rd/concurrentqueue/concurrentqueue.h:3050-3056 | For whole queues and two threads or more: in every run whoever hands a block back has it in hand, if and only if no call asks for none |
| OneConsumer.LoneConsumerIsSafe | 3rd/concurrentqueue/concurrentqueue.h:2766-2858 | With one consumer, each block is handed back once at most and the consumer is never stuck, whatever calls ask for |
| BlockPool.RunHasInv | 3rd/concurrentqueue/concurrentqueue.h:3072-3092 | With one free list and any number of explicit and implicit sub-queues with their counters, if every call asks for something, all their invariants hold in every run, and what a sub-queue has is in callers' hands |
| BlockPool.NoBlockIsShared | 3rd/concurrentqueue/concurrentqueue.h:3072-3092 | Then no two sub-queues ever have the same block, and no block that one has is on the free list |
| BlockPool.PromiseIsKept | 3rd/concurrentqueue/concurrentqueue.h:3072-3092 | A block that try_get or the allocator hands to a producer is free there, which the producers' own results take for granted |
| BlockPool.ClaimedIndicesExist | 3rd/concurrentqueue/concurrentqueue.h:2238-2254 | Indices that a consumer is about to claim in any of the sub-queues are those of elements that were enqueued, which these results take for granted, too |
| BlockPool.BlocksComeFromTheirOwners | 3rd/concurrentqueue/concurrentqueue.h:3050-3056 | Whoever hands a block back has it in hand |
| BlockPool.ListRuns | 3rd/concurrentqueue/concurrentqueue.h:1438-1493 | Whatever they all do, the free list does in a run of its own |
| BlockPool.ExplicitRuns | 3rd/concurrentqueue/concurrentqueue.h:1881 | So does each explicit sub-queue with its counters, and what is proved of its runs holds |
| BlockPool.ImplicitRuns | 3rd/concurrentqueue/concurrentqueue.h:2493-2592 | So does each implicit one |
| FreeList.RunHasInv | 3rd/concurrentqueue/concurrentqueue.h:1497-1504 | The invariant of the list, the reference words and all threads' situations holds in every state of every run |
| FreeList.EveryBlockIsSomewhereOnce | 3rd/concurrentqueue/concurrentqueue.h:1438-1517 | Each block is in exactly one situation: linked, in one caller's hands, being added, relinked or unlinked by one thread, or flagged while somebody else holds a reference and will relink it |
| FreeList.ListIsAcyclic | 3rd/concurrentqueue/concurrentqueue.h:1505-1516 | The list from the head along the next fields ends and repeats no block |
| FreeList.PopInstallsCurrentSuccessor | 3rd/concurrentqueue/concurrentqueue.h:1471-1477 | Whenever the exchange of the head succeeds, what it installs is the successor the node has at that moment, and the flag is clear: there is no ABA |
| FreeList.HandoverIsExclusive | 3rd/concurrentqueue/concurrentqueue.h:1474-1481 | A block that try_get returns is in nobody else's hands and not on the list; add finds the flag clear; a reference that is given back was held |
| FreeList.EveryAccessIsDefined | 3rd/concurrentqueue/concurrentqueue.h:1462-1490 | No step of any thread reads or writes a block that does not exist |
| FreeList.QuietListIsComplete | 3rd/concurrentqueue/concurrentqueue.h:1438-1493 | With no operation in progress each block is either on the list or in a caller's hands: none is lost |
| FreeList.SoloTryGet | 3rd/concurrentqueue/concurrentqueue.h:1451-1493 | A try_get that runs alone on a list that is not empty, whatever the other threads are at, returns the list's first block, and leaves it with just their references on it |
| FreeList.SoloTryGetOfNone | 3rd/concurrentqueue/concurrentqueue.h:1451-1493 | On an empty list it returns none and changes nothing |
| FreeList.SoloAdd | 3rd/concurrentqueue/concurrentqueue.h:1438-1449 | An add that runs alone puts the block at the head of the list, or sets its flag if others hold references on it |
| FreeList.SoloLastHolder | 3rd/concurrentqueue/concurrentqueue.h:1484-1490 | The last of these puts it at the head of the list |
| ExplicitProducer.RunHasInv | 3rd/concurrentqueue/concurrentqueue.h:1834-1937 | The invariant of ring, flags, block indices and consumers holds in every state of every run, whatever the allocator answers |
| ExplicitProducer.ConsumerFindsItsBlock | 3rd/concurrentqueue/concurrentqueue.h:1993-2002 | Whichever header and front a consumer loaded, the slot it computes for an index it claimed holds that index's base and the block used for it, across reuse, insertion and growth |
| ExplicitProducer.ConsumerFetchesItsElement | 3rd/concurrentqueue/concurrentqueue.h:2005-2025 | What a consumer moves out is the element that was enqueued at the claimed index |
| ExplicitProducer.ReuseIsSafe | 3rd/concurrentqueue/concurrentqueue.h:1842-1852 | A block that the producer takes for reuse had all its elements released, and no consumer needs any of them |
| ExplicitProducer.ClaimedIsHeldOrReleased | 3rd/concurrentqueue/concurrentqueue.h:1988-2025 | Each index below headIndex was released or is held by exactly one consumer, and not both |
| ExplicitProducer.NoConsumerIsStuck | 3rd/concurrentqueue/concurrentqueue.h:1993-2025 | Every access of a consumer is to a slot, block and element that exist, also if it claimed no index |
| ExplicitProducer.ClaimOfNoneIsHarmless | 3rd/concurrentqueue/concurrentqueue.h:2252-2315 | A consumer that claimed no index sets no flag and changes nothing but itself; it reads one slot inside the index, written or not |
| ExplicitProducer.ProducerIsNotStuck | 3rd/concurrentqueue/concurrentqueue.h:1834-1937 | Every access of the producer is defined, whatever allocator and block pool answer; where its steps lead is in ExplicitCalls |
| ExplicitProducer.GrownEntry | 3rd/concurrentqueue/concurrentqueue.h:2355-2373 | The grown index has each entry in use where its own size puts that block number |
| ExplicitProducer.SlotFromFront | 3rd/concurrentqueue/concurrentqueue.h:1996-2002 | From any slot whose entry a header has, the signed block distance leads to the slot of the claimed index's block |
| ExplicitProducer.NextSlotIsUnused | 3rd/concurrentqueue/concurrentqueue.h:1919-1924 | Writing the slot behind the front overwrites no entry that is still needed |
| ExplicitProducer.EmptyBlockReleased | 3rd/concurrentqueue/concurrentqueue.h:1549-1573 | If all flags of the oldest block are set, every index in it was released |
| ExplicitProducer.FlagPosition | 3rd/concurrentqueue/concurrentqueue.h:1594-1606 | The flags that set_many_empty sets for a range are those of the range's elements |
| ExplicitCalls.EnqueueAnswers | 3rd/concurrentqueue/concurrentqueue.h:1834-1937 | An enqueue that ended, among any steps of consumers, ended with its element behind all others and the tail one further, or with the sub-queue as it was in a step in which it was refused an index, all slots being in use, or a block |
| ExplicitCalls.EnqueueIsWaitFree | 3rd/concurrentqueue/concurrentqueue.h:1834-1937 | It takes no more than twice the block size and ten steps of its own, whatever consumers do |
| ExplicitCalls.EnqueueWithRoomSucceeds | 3rd/concurrentqueue/concurrentqueue.h:1842-1852 | With room in the newest block, or with all elements of the oldest block consumed, it asks for no memory, uses no further slot, and cannot fail |
| ExplicitCalls.EnqueueSucceeds | 3rd/concurrentqueue/concurrentqueue.h:1834-1937 | From every state of every run an enqueue that nothing refuses gets to its end with its element behind the others: by room, by reuse, by a new block, with a larger index |
| ExplicitCalls.DequeueTakesAll | 3rd/concurrentqueue/concurrentqueue.h:1988-2029 | A dequeue that ended, among any steps of other threads, moved out exactly the elements that it claimed, each once and in order |
| ExplicitCalls.DequeueIsWaitFree | 3rd/concurrentqueue/concurrentqueue.h:2254-2315 | Behind its claim it takes no more than six steps for each element and seven, whatever the others do |
| ExplicitCalls.DequeueSucceeds | 3rd/concurrentqueue/concurrentqueue.h:2254-2315 | From every state of every run a dequeue of elements that are there gets to its end by its own steps alone |
| QuietCalls.ExplicitEnqueue | 3rd/concurrentqueue/concurrentqueue.h:1834-1937 | On the whole sub-queue, an enqueue that nothing refuses adds its element, and the counters learn of it |
| QuietCalls.ExplicitDequeue | 3rd/concurrentqueue/concurrentqueue.h:2233-2323 | On a quiet sub-queue that is not empty, a dequeue passes its tests, claims, and moves out the oldest elements, as many as it asked for or as there are |
| ImplicitProducer.RunHasInv | 3rd/concurrentqueue/concurrentqueue.h:2472-2604 | If every call asks for something, the invariant of index entries, counters, blocks and consumers holds in every state of every run, whatever allocator and pool answer |
| ImplicitProducer.ConsumerFindsItsBlock | 3rd/concurrentqueue/concurrentqueue.h:2931-2947 | The entry found for a claimed index has the base of the index's block as key and that block, not null, as value, whichever header and tail were loaded |
| ImplicitProducer.ConsumerFetchesItsElement | 3rd/concurrentqueue/concurrentqueue.h:2549-2582 | What a consumer moves out is the element that was enqueued at the claimed index |
| ImplicitProducer.BlocksAreFreedOnce | 3rd/concurrentqueue/concurrentqueue.h:2584-2593 | If every call asks for something, a block number is handed back at most once, after all its elements were consumed, and when no consumer needs any of them |
| ImplicitProducer.NoBlockLeaks | 3rd/concurrentqueue/concurrentqueue.h:2842-2852 | A block number whose elements were all consumed was handed back or is just being handed back by one consumer; with consumers idle these are exactly the ones handed back |
| ImplicitProducer.ClaimedIsHeldOrReleased | 3rd/concurrentqueue/concurrentqueue.h:2547-2593 | Each index below headIndex was consumed or is held by exactly one consumer, and not both |
| ImplicitProducer.NoConsumerIsStuck | 3rd/concurrentqueue/concurrentqueue.h:2549-2593 | If every call asks for something, every access of a consumer is to an entry, block and element that exist |
| ImplicitProducer.ProducerIsNotStuck | 3rd/concurrentqueue/concurrentqueue.h:2472-2533 | Every access of the producer is defined, whatever allocator and pool answer; where its steps lead is in ImplicitCalls |
| ImplicitProducer.GrownEntry | 3rd/concurrentqueue/concurrentqueue.h:2965-2985 | The grown index has each entry where its own capacity puts that block number |
| ImplicitProducer.SlotFromTail | 3rd/concurrentqueue/concurrentqueue.h:2936-2944 | From any tail slot the signed block distance leads to the slot of the claimed index's block |
| ImplicitProducer.CountNothing | 3rd/concurrentqueue/concurrentqueue.h:1606-1613 | Counting no element changes nothing, and returns the block to be handed back exactly if its count was complete before |
| ImplicitProducer.CountBlocks | 3rd/concurrentqueue/concurrentqueue.h:1606-1613 | Counting elements of a block keeps all blocks' accounts, and just the consumer that completes the count returns the block |
| ImplicitProducer.RewindTailKeepsInv | 3rd/concurrentqueue/concurrentqueue.h:2494-2498 | An enqueue that gets no block and rewinds the index tail leaves the invariant intact |
| ImplicitCalls.EnqueueAnswers | 3rd/concurrentqueue/concurrentqueue.h:2472-2533 | An enqueue that ended, among any steps of consumers, ended with its element behind all others, or with the elements as they were after it was refused an index or a block |
| ImplicitCalls.EnqueueIsWaitFree | 3rd/concurrentqueue/concurrentqueue.h:2472-2533 | It takes no more than ten steps of its own |
| ImplicitCalls.EnqueueWithRoomSucceeds | 3rd/concurrentqueue/concurrentqueue.h:2528-2532 | With room in the newest block it cannot fail |
| ImplicitCalls.EnqueueSucceeds | 3rd/concurrentqueue/concurrentqueue.h:2472-2533 | From every state of every run an enqueue that nothing refuses gets to its end with its element behind the others |
| ImplicitCalls.DequeueTakesAll | 3rd/concurrentqueue/concurrentqueue.h:2547-2597 | A dequeue that ended, among any steps of other threads, moved out exactly the elements that it claimed, each once and in order |
| ImplicitCalls.DequeueIsWaitFree | 3rd/concurrentqueue/concurrentqueue.h:2786-2857 | Behind its claim it takes no more than six steps for each element and seven, whatever the others do |
| ImplicitCalls.DequeueSucceeds | 3rd/concurrentqueue/concurrentqueue.h:2786-2857 | From every state of every run a dequeue of elements that are there gets to its end by its own steps alone |
| ImplicitIndex.RunIsOk | 3rd/concurrentqueue/concurrentqueue.h:2949-2991 | In every run the slots of the newest index behind the last entry are unused, once round its ring, and known to be so by their keys |
| ImplicitIndex.IndexGrowsOnlyWhenFull | 3rd/concurrentqueue/concurrentqueue.h:2886-2916 | A larger index is asked for only when the ring is full: the block a whole ring back was still out when the producer looked |
| QuietCalls.ImplicitEnqueue | 3rd/concurrentqueue/concurrentqueue.h:2472-2533 | On the whole sub-queue, an enqueue that nothing refuses adds its element, and the counters learn of it |
| QuietCalls.ImplicitDequeue | 3rd/concurrentqueue/concurrentqueue.h:2766-2858 | On a quiet sub-queue that is not empty, a dequeue of something moves out the oldest elements, as many as it asked for or as there are |
| ProducerHash.RunHasInv | 3rd/concurrentqueue/concurrentqueue.h:3374-3524 | The invariant of tables, counts, resize lock and threads holds in every state of every run |
| ProducerHash.TablesStayBelowThreeQuarters | 3rd/concurrentqueue/concurrentqueue.h:3478-3481 | Every table stays below three quarters full, under any interleaving of insertions, resizes and lazy copies, and also when allocations fail |
| ProducerHash.EveryProbeEnds | 3rd/concurrentqueue/concurrentqueue.h:3398-3435 | Lookups, lazy copies and insertions never get beyond as many probes as the table has slots |
| ProducerHash.OneProducerPerThread | 3rd/concurrentqueue/concurrentqueue.h:3401-3430 | Two answers have the same producer exactly if they were given to the same thread |
| ProducerHash.NoSecondProducer | 3rd/concurrentqueue/concurrentqueue.h:3438-3439 | A thread that has a producer creates no other, and the count is that of the distinct threads in it |
| ProducerHash.NoTableIsLost | 3rd/concurrentqueue/concurrentqueue.h:3461-3471 | The current table is the newest, and each table's prev is the one before it |
| ProducerHash.NoThreadIsStuck | 3rd/concurrentqueue/concurrentqueue.h:3401-3426 | Every access is to a table and slot that exist, and a value that is read was written |
| ProducerHash.EmptySlotEndsSearch | 3rd/concurrentqueue/concurrentqueue.h:3431-3433 | An empty slot on a thread's probe path shows that the thread is not in the table |
| ProducerHash.UncountKeepsInv | 3rd/concurrentqueue/concurrentqueue.h:3454-3459 | Giving a count back after a failed allocation keeps room for everybody else |
| ProducerLookup.LookupAnswers | 3rd/concurrentqueue/concurrentqueue.h:3374-3524 | From every state of every run in which nobody enlarges the tables, a lookup that runs alone and is granted what it asks for ends with the thread's producer, which is the one it had if it had one, and with its entry in the newest table |
| Semaphore.RunHasInv | 3rd/concurrentqueue/lightweightsemaphore.h:262-402 | The invariant of count, kernel semaphore and waiters holds in every state of every run |
| Semaphore.AccountsBalance | 3rd/concurrentqueue/lightweightsemaphore.h:393-402 | Initial plus signalled less granted permits are the positive count, the posted and the owed wakeups; the waiters are the negative count, the posted and the owed wakeups |
| Semaphore.NoOvergrant | 3rd/concurrentqueue/lightweightsemaphore.h:341-391 | No more permits are granted than there were and were signalled, and those granted are those that calls returned or still have; that permits which are there are granted is SoloCallGets |
| Semaphore.NoLostWakeup | 3rd/concurrentqueue/lightweightsemaphore.h:393-402 | The wakeups posted or owed are the smaller of free permits and waiters |
| Semaphore.SleepersSleepRightly | 3rd/concurrentqueue/lightweightsemaphore.h:274-283 | If a thread sleeps and no wakeup is posted or owed, no permit is free |
| Semaphore.CountIsExact | 3rd/concurrentqueue/lightweightsemaphore.h:284-296 | The count is what was signalled and not granted less the waiters, so that a call that timed out undid exactly its decrement; with no call under way it is exact |
| Semaphore.NoMoreThanAsked | 3rd/concurrentqueue/lightweightsemaphore.h:298-332 | A call returns at most as many permits as it asked for |
| Semaphore.SoloCallGets | 3rd/concurrentqueue/lightweightsemaphore.h:298-391 | A call that runs alone from any place before sleeping, with any luck of its exchanges, gets all permits that are there up to what it wants, and lowers the count by just these |
| Semaphore.SoloCallReturns | 3rd/concurrentqueue/lightweightsemaphore.h:298-391 | With luck it does return |
| Semaphore.SoloTryWaitMany | 3rd/concurrentqueue/lightweightsemaphore.h:363-374 | Alone, tryWaitMany(max) returns the smaller of max and the count, or none if the count is not positive, and leaves the count that much lower |
| Semaphore.SoloWaitMany | 3rd/concurrentqueue/lightweightsemaphore.h:376-392 | With permits there, waitMany(max) does the same, and so returns one at least |
| Semaphore.SoloSleeper | 3rd/concurrentqueue/lightweightsemaphore.h:309-330 | A sleeper that a wakeup reaches, or that timed out and finds one, returns one permit and what is there, up to max |
| Semaphore.SoloTimeout | 3rd/concurrentqueue/lightweightsemaphore.h:313-323 | A call that timed out below zero undoes its decrement and returns none |
| Semaphore.SoloSignal | 3rd/concurrentqueue/lightweightsemaphore.h:393-402 | Alone, signal(count) raises the count by that and posts a wakeup for each sleeper that gets one of the permits |
| Semaphore.NothingOnlyIfSeen | 3rd/concurrentqueue/lightweightsemaphore.h:341-391 | In every run, a call that asked for permits returns none only if in an access of its own it saw a count of zero or below |
| BlockingQueue.RunHasInv | 3rd/concurrentqueue/blockingconcurrentqueue.h:294-455 | The invariant of inner queue, semaphore and operations holds in every state of every run |
| BlockingQueue.ItemsMatchPermits | 3rd/concurrentqueue/blockingconcurrentqueue.h:294-335 | The items in the inner queue are the free permits, those that waiting calls have, those that dequeues still spin on, and the items enqueued and not signalled |
| BlockingQueue.NoConsumerSpinsInVain | 3rd/concurrentqueue/blockingconcurrentqueue.h:296-299 | For all permits that dequeues hold and have no item for, there are items in the inner queue |
| BlockingQueue.NoItemIsLost | 3rd/concurrentqueue/blockingconcurrentqueue.h:123-130 | The items that were enqueued are those inside, those in the hands of dequeues and those returned, each as often |
| BlockingQueue.QuietCountIsSize | 3rd/concurrentqueue/blockingconcurrentqueue.h:447-455 | With no call under way the semaphore's count is the number of items |
| BlockingQueue.SleeperHasNoItem | 3rd/concurrentqueue/blockingconcurrentqueue.h:357-367 | A consumer asleep with no wakeup on its way has no item to wake up for |
| BlockingQueue.QuietDequeueReturns | 3rd/concurrentqueue/blockingconcurrentqueue.h:327-335 | On a quiet queue with items, a dequeue of at most max that runs alone returns the smaller of max and their number, and these items are gone from inside |
| Varint.DecodeEncode | engine-lua/pb.h:691-718 | Every 64-bit number, written and read in front of any suffix, comes back with its length, in at most 10 bytes, or 5 for 32 bits |
| Varint.DecodeKept | engine-lua/pb.h:412-426 | What follows a varint does not matter to it |
| Varint.UnlimitedIs | engine-lua/pb.h:412-426 | The base 128 number at the front of a string is the sum of its groups, and ends at the first byte without the high bit |
| Varint.Slice.ReadVarintSlow | engine-lua/pb.h:412-426 | The loop reads the varint at the cursor as 64 bits, or fails with the cursor unmoved |
| Varint.Slice.ReadVarint32Fallback | engine-lua/pb.h:428-447 | Under its guard the unrolled reader gives the low 32 bits of what the loop gives, with the same length and the same failures, within the buffer |
| Varint.Slice.ReadVarint64Fallback | engine-lua/pb.h:449-467 | Under its guard the reader by words gives what the loop gives, with the same length and the same failures, within the buffer |
| Varint.Slice.ReadVarint32 | engine-lua/pb.h:476-486 | On every buffer: the low 32 bits of the varint, its length, or failure with the cursor unmoved |
| Varint.Slice.ReadVarint64 | engine-lua/pb.h:488-494 | On every buffer: the varint, its length, or failure with the cursor unmoved |
| Varint.Write32 | engine-lua/pb.h:691-701 | The unrolled writer puts the encoding of the number where it is told, and changes nothing else |
| Varint.Write64 | engine-lua/pb.h:703-718 | The same for 64 bits |
| Varint.ZigzagRoundTrip | engine-lua/pb.h:376-387 | 0, -1, 1, -2 and so on are numbered 0, 1, 2, 3; the mappings invert each other in both directions, for 32 and 64 bits |
| Varint.ExpandSigKeepsNumber | engine-lua/pb.h:388-389 | A 32-bit word becomes the 64-bit word of the same signed number |
| Varint.ExpandedRoundTrip | engine-lua/pb.h:388-389 | A 32-bit word that is written sign-extended is read back as the same 32-bit word |
| Skip.SkipsJustTheValue | engine-lua/pb.h:568-582 | For every well-formed value, nested groups included, in front of any suffix, skipping takes just the value |
| Skip.SkippedIsAValue | engine-lua/pb.h:568-582 | What is skipped is the text of some well-formed value |
| Skip.GroupIsSkipped | engine-lua/pb.h:548-566 | A group's fields and its end key are skipped, and nothing behind them |
| Skip.SkipValue | engine-lua/pb.h:568-582 | The cursor moves over just the value at it, or stays where it was |
| Skip.ReadGroup | engine-lua/pb.h:548-566 | The cursor moves over just the group, whose fields end where its end key begins, or stays; the recursion ends |
| Skip.SkipVarint | engine-lua/pb.h:584-590 | The cursor moves over a varint, or stays |
| Skip.SkipBytes | engine-lua/pb.h:592-602 | The cursor moves over a length and so many bytes, or stays |
| Skip.SkipSlice | engine-lua/pb.h:604-608 | The cursor moves by the length if there are so many bytes, or stays |
| Skip.ReadBytes | engine-lua/pb.h:534-546 | The payload is the bytes between its length and the new cursor, of that length; a failure leaves the cursor |
| Buffer.NewCapacityBound | engine-lua/pb.h:720-736 | The grown capacity reaches what is asked for and exceeds it by at most a half |
| Buffer.Buffer.PrepBuffSize | engine-lua/pb.h:720-736 | There is room for so many bytes more, or the allocator cannot give it; the contents stay |
| Buffer.Buffer.AddSlice | engine-lua/pb.h:738-745 | The bytes are appended, or nothing changes when there is no room |
| Buffer.Buffer.AddVarint32 | engine-lua/pb.h:768-774 | The number's varint is appended, or nothing |
| Buffer.Buffer.AddVarint64 | engine-lua/pb.h:776-782 | The same for 64 bits |
| Buffer.Buffer.AddFixed | engine-lua/pb.h:784-807 | The number's bytes are appended, least significant first, or nothing |
| Buffer.Buffer.AddBytes | engine-lua/pb.h:761-766 | A length and the bytes are appended, or nothing |
| Buffer.Buffer.AddLength | engine-lua/pb.h:747-759 | The length of what follows a position is put in front of it, all of which moves up unchanged |
| Message.ScalarRoundTrip | engine-lua/pb.c:370-448 | A scalar of every integer, bool, string and bytes type, in front of anything, is read back, as far as its type can hold it |
| Message.WordFits | engine-lua/pb.c:370-448 | What is written for an integer fits its word and is pushed as that integer, as far as its type can hold it |
| Message.NormKeepsInRange | engine-lua/pb.c:370-448 | A value in its type's range is not changed |
| Message.NameLeadsToNumber | engine-lua/pb.h:1150-1161 | In a schema with distinct names and numbers the field of a name is the field of its number |
| Message.ValueRoundTrip | engine-lua/pb.c:1500-1525 | A value of every type, nested messages included, in front of anything, is read back |
| Message.EntryRoundTrip | engine-lua/pb.c:1536-1554 | A map entry, whose zero key and zero value are not written, is read back with the defaults for them |
| Message.PackedRoundTrip | engine-lua/pb.c:1556-1577 | A packed field adds its items, in order, to those already there |
| Message.FieldRoundTrip | engine-lua/pb.c:1579-1598 | One field in front of anything, single, repeated, packed, map or member of a oneof, sets its name and is consumed exactly |
| Message.TableRoundTrip | engine-lua/pb.c:1764-1784 | Encoded fields in front of anything leave the decoder with their names bound and the rest to read |
| Message.MessageRoundTrip | engine-lua/pb.c:1579-1598 | For every schema and every table: decoding the encoding gives the table, its values as far as their types hold them, over the defaults for the names that were not written |
| Message.PresentIs | engine-lua/pb.c:1639-1659 | What is decoded for a name depends on the value bound to it and on nothing else |
| Message.OrderOfNames | engine-lua/pb.c:1579-1598 | Two tables that bind the same names to equal values are decoded alike, whatever order their own names come in |
| Message.OrderOfKeys | engine-lua/pb.c:1718-1743 | Two neighbouring entries of a map whose keys stay different in the key's type may change places |
| Order.OrderDoesNotMatter | engine-lua/pb.c:1579-1598 | Two tables that are the same up to the order of names and of map keys, at every depth, are decoded to the same values, if no two keys of one map are the same in the key's type |
| Order.DecodedAlike | engine-lua/pb.c:1579-1598 | So what the two tables' encodings are decoded to is the same, although the bytes may differ |
| Order.TwoKeysCommute | engine-lua/pb.c:1718-1743 | A map of two entries is decoded alike in both orders if and only if the keys stay different in the key's type, or the values are the same in theirs |
| Order.CollidingKeys | engine-lua/pb.c:1718-1743 | 1 and 2^32 + 1 are two keys for Lua and one for a map from int32 |
| Wire.UnknownIsSkipped | engine-lua/pb.c:1768-1771 | A field that the type does not have, with any well-formed value, groups included, is as if it were not there |
| Wire.MixedIsRead | engine-lua/pb.c:1764-1784 | Encoded fields with any such fields before, between and behind them are read as they are without them |
| Wire.UnknownAnywhere | engine-lua/pb.c:1687-1695 | So it is between the fields of any message inside the message, at every depth |
| Wire.EitherFormIsRead | engine-lua/pb.c:1745-1762 | A repeated field of numbers is read from packed and from unpacked occurrences in any mixture, whichever the schema names: all items, in order, behind those that are there |
| Wire.LastOccurrenceCounts | engine-lua/pb.c:1776-1780 | Of a field that occurs again the last value counts |
| Wire.EntryInEitherOrder | engine-lua/pb.c:1718-1743 | A map entry whose value stands before its key is read like one in the usual order |
| Wire.UnknownInEntryExactlyWhen | engine-lua/pb.c:1728-1735 | A varint in an unknown field of a map entry changes nothing if and only if, read as a key, it is that of another unknown field |
| Wire.UnknownInEntryIsRead | engine-lua/pb.c:1728-1735 | The entry 18 08 07 has the key 7, where its last byte alone is an entry with key 0 |
| Wire.AbsentFieldIs | engine-lua/pb.c:1640-1662 | A field that the bytes do not mention is false, 0, or an empty string, list or map, or has no value if it is a message or in a oneof |
| Wire.LeftOutExactlyWhen | engine-lua/pb.c:1579-1598 | The encoder leaves a single field out exactly when it has that value |
| Wire.WrongWireTypeFails | engine-lua/pb.c:1702-1716 | A key with a wire type that is not its field's fails the message, but for packed numbers and maps |
| Wire.CutOffFails | engine-lua/pb.c:274-283 | A field behind whose key there is no whole value fails the message |
| Older.EncodedIsValue | engine-lua/pb.c:1579-1598 | What is written for a value is a well-formed value of the wire type in its key |
| Older.FieldIsSkipped | engine-lua/pb.c:1768-1771 | A reader that has no field of that number goes on behind it, whatever its shape and value |
| Older.OlderReaderReads | engine-lua/pb.c:1764-1784 | A reader that has some of the writer's fields reads those, as if the others had never been written |
| Coder.AddType | engine-lua/pb.c:370-448 | A scalar's bytes are appended, and the length returned is that of an omissible zero |
| Coder.EField | engine-lua/pb.c:1500-1525 | A value's bytes are appended, a nested message behind its length |
| Coder.ETagField | engine-lua/pb.c:1527-1534 | Key and value are appended; a zero that is to be ignored is taken back with its key |
| Coder.EMap | engine-lua/pb.c:1536-1554 | All entries of a map are appended, each behind key and length |
| Coder.ERepeated | engine-lua/pb.c:1556-1577 | All items are appended, packed behind one length or each behind a key |
| Coder.EncodeFields | engine-lua/pb.c:1579-1598 | The encoder appends the table's encoding, within the weight that is computed for it |
| Coder.DScalar | engine-lua/pb.c:450-541 | The reader moves over one scalar and returns what the specification reads |
| Coder.DRawField | engine-lua/pb.c:1671-1700 | The decoder moves over one value; a nested message is decoded from its own bytes |
| Coder.DField | engine-lua/pb.c:1702-1716 | The same, after the wire type was found to be the field's |
| Coder.DEntry | engine-lua/pb.c:1718-1743 | One map entry is decoded as specified |
| Coder.DItems | engine-lua/pb.c:1745-1762 | A packed field's items are decoded as specified |
| Coder.DMessage | engine-lua/pb.c:1764-1784 | The decoder's loop returns what the specification makes of the bytes, or fails where it fails |
| Coder.EncodeThenDecode | engine-lua/pb.c:1579-1598 | With the memory its weight asks for, encoding succeeds, and decoding the buffer gives the table over the defaults |
| Table.PutFirst | engine-lua/pb.h:875-897 | Taking an empty main position keeps every key on an acyclic chain from its main position |
| Table.PutSecond | engine-lua/pb.h:890-895 | So does linking a free slot behind the head of a chain |
| Table.PutMoving | engine-lua/pb.h:882-889 | So does moving a misplaced resident to a free slot and taking its place |
| Table.FullTable | engine-lua/pb.h:869-898 | When lastfree is used up, as many keys are stored as there are slots above the first |
| Table.EmptySlotIsRoom | engine-lua/pb.h:876-881 | An empty slot above the first means that fewer are |
| Table.Table.Get | engine-lua/pb.h:923-934 | A non-zero key is found exactly if the map has it, with its payload |
| Table.Table.NewKey | engine-lua/pb.h:869-898 | The key is added with a zero payload, all others keep theirs; it fails exactly if there is no room and the table cannot grow; the recursion ends |
| Table.Table.Place | engine-lua/pb.h:869-898 | A non-zero key gets a slot of this array, or of a larger one if there is no room; it fails exactly if there is neither |
| Table.Table.Grow | engine-lua/pb.h:900-921 | The grown table has the same entries and room for more, and key 0 if it had slots before; failing, nothing changes |
| Table.Table.Refilled | engine-lua/pb.h:908-917 | Inserting all entries into the larger table never makes that one grow |
| Table.Table.GrowFor | engine-lua/pb.h:878-881 | The one retry after growing succeeds |
| Table.Table.Set | engine-lua/pb.h:936-941 | The key's slot is found or made; the map gains at most this key, and payloads stay; key 0 keeps its payload if it was set and has a zero payload otherwise |
| Table.Table.SetPayload | engine-lua/pb.h:936-941 | Writing through a returned entry changes this key's payload and no other |
| Table.Table.FindFree | engine-lua/pb.h:876-881 | lastfree moves to an empty slot, or all slots above the first are taken |
| Table.Table.Before | engine-lua/pb.h:883-885 | The walk from the resident's main position ends at the slot in front of it on its chain |
| Table.Table.NextEntry | engine-lua/pb.h:943-959 | The next slot with a key is found, key 0 first |
| Table.VisitsInOrder | engine-lua/pb.h:943-959 | The slots that iteration visits are just those with keys, in order |
| Table.EveryKeyVisitedOnce | engine-lua/pb.h:943-959 | A full iteration visits every key of the map exactly once, and key 0 exactly if it is there |
| Names.LookupIsExact | engine-lua/pb.h:1053-1064 | With names below 65536 bytes, a string finds the entry with this text, or there is none |
| Names.LongStringsAreNotFound | engine-lua/pb.h:1053-1064 | A string of 65536 bytes or more finds nothing |
| Names.EqualStringsShare | engine-lua/pb.h:1074-1089 | Entries with short texts are the same exactly if their texts are equal |
| Names.CacheIsTransparent | engine-lua/pb.h:1091-1111 | With names below 65536 bytes, a lookup with a cache that holds anything whatever returns what the lookup without it returns |
| Names.CacheIsTransparentExactlyWhen | engine-lua/pb.h:1091-1111 | For any names, the cache is transparent for a string, whatever it holds, if and only if no stored name of another hash has its length in 16 bits and begins with it |
| Names.LongNameMisleads | engine-lua/pb.h:1091-1111 | A name of 65536 zero bytes is such a name for the empty string |
| Names.StaleLineAnswers | engine-lua/pb.h:1091-1111 | In any table with just this name, a cache line with its hash for an address makes the empty string there find it, where a lookup without the cache finds nothing |
| Names.StaleCacheAnswers | engine-lua/pb.h:1074-1111 | Interning the long name, looking it up with an empty cache and then the empty string at the same address gets there |
| NameHash.HashOf | engine-lua/pb.h:985-992 | The loop mixes into the length every so many bytes from the last one backwards, on 32-bit words |
| NameHash.LongZerosHash | engine-lua/pb.h:985-992 | The hash of 65536 zero bytes is 0x6d407502 |
| NameHash.HashesDiffer | engine-lua/pb.h:985-992 | And so not that of the empty string |
| Names.UseTimes | engine-lua/pb.h:967-968 | So many uses more are counted as many uses |
| Names.OverusedNameIsRemoved | engine-lua/pb.h:1066-1072 | A name with 65537 uses is removed by one deletion, with 65536 uses left |
| Names.NameTable.New | engine-lua/pb.h:1074-1089 | The string's entry gets one use more, or a new entry with one use is added; nothing else changes, and it fails exactly if no memory is granted |
| Names.NameTable.Add | engine-lua/pb.h:1019-1036 | A new entry is added to a table that grows when it is full; nothing else changes |
| Names.NameTable.Use | engine-lua/pb.h:967-968 | One entry's count goes up by one, modulo 65536 |
| Names.NameTable.Delete | engine-lua/pb.h:1066-1072 | The entry has one use less; it is removed exactly if its uses, modulo 65536, were at most one |
| Names.NameTable.Unlink | engine-lua/pb.h:1038-1051 | Just this entry leaves its list |
| Names.NameTable.Resize | engine-lua/pb.h:994-1017 | Every entry is in the list of its hash in the larger table, and none is lost or doubled; it fails exactly when no such size is granted |
| Names.NameTable.Get | engine-lua/pb.h:1053-1064 | The walk along the list returns the first entry that matches |
| Names.Cache.NameAt | engine-lua/pb.h:1091-1111 | Lookup and cache line afterwards are as specified for every content of the cache, other lines stay, and with short names the result is that without a cache |
| Decimal.ParseIsInverse | 3rd/hiredis/read.c:162-223 | string2ll reads a string as a number if and only if the number has 64 bits and the string is its canonical spelling |
| Decimal.String2ll | 3rd/hiredis/read.c:162-223 | The loop with its overflow tests computes just that, the smallest number included |
| Decimal.Sdsll2str | 3rd/hiredis/sds.c:434-463 | Every 64-bit number's canonical spelling is left at the front of the array, with a terminator, in the room that SDS_LLSTR_SIZE gives |
| Decimal.Sdsull2str | 3rd/hiredis/sds.c:466-491 | The same for unsigned numbers |
| Decimal.CountDigits | 3rd/hiredis/hiredis.c:299-309 | The result is the number of digits of the canonical spelling |
| Decimal.SpeltIsParsed | 3rd/hiredis/read.c:162-223 | What the printers print is read as the number that was printed |
| Grammar.ItemStays | 3rd/hiredis/read.c:573-652 | An item that is complete, or wrong, stays so with the same result whatever bytes follow |
| Grammar.ReadsBack | 3rd/hiredis/read.c:495-652 | Every reply that the protocol can carry, written down in front of anything, is read as that reply with just its bytes |
| Stack.AfterIsOuter | 3rd/hiredis/read.c:240-266 | Popping the aggregates that an item completes is what the grammar does with the item |
| Stack.ItemCarries | 3rd/hiredis/read.c:268-467 | From the task stack after an item the grammar reads, for every continuation of the stream, what it reads from before the item |
| Stack.HeaderCarries | 3rd/hiredis/read.c:495-571 | The same for an aggregate's header, which pushes a task |
| Stack.TypeByteCarries | 3rd/hiredis/read.c:577-630 | The same for a type byte |
| Stack.PutInTree | 3rd/hiredis/hiredis.c:158-166 | Storing an object through its parent puts it in the place of the reply tree that the task stack says, and nowhere else |
| Stack.TreeCompleted | 3rd/hiredis/read.c:255-257 | When the last element is in place, the aggregate is an item of the one around it |
| Reader.SeekNewline | 3rd/hiredis/read.c:125-147 | The search finds the first carriage return that a line feed follows |
| Reader.ReadLineItem | 3rd/hiredis/read.c:268-395 | A line of each type is accepted, or refused with its error, as the grammar says |
| Reader.ReadBulkItem | 3rd/hiredis/read.c:397-467 | A bulk string at the cursor is complete, incomplete or wrong as the grammar says |
| Reader.ReadAggregateHeader | 3rd/hiredis/read.c:495-540 | An aggregate's header gives the number of elements, doubled for maps, or the error that the grammar gives |
| Reader.Reader.MoveToNextTask | 3rd/hiredis/read.c:240-266 | Task stack and tree stand where the reply continues |
| Reader.Reader.ProcessLineItem | 3rd/hiredis/read.c:268-395 | A line item is read, put in its place and left, or fails with the grammar's error, or needs more bytes |
| Reader.Reader.ProcessBulkItem | 3rd/hiredis/read.c:397-467 | The same for a bulk string |
| Reader.Reader.ProcessAggregateItem | 3rd/hiredis/read.c:495-571 | The same for an aggregate's header, with empty and nil aggregates |
| Reader.Reader.ProcessItem | 3rd/hiredis/read.c:573-652 | A step consumes an item and loses nothing, fails with the grammar's error, or needs more bytes |
| Reader.Reader.Feed | 3rd/hiredis/read.c:706-735 | The bytes are added behind those not read, unless there was an error |
| Reader.Reader.GetReply | 3rd/hiredis/read.c:737-788 | The reply tree, the bytes consumed and the error are those of the grammar; with too few bytes nothing is lost, whatever follows; discarding read bytes changes nothing |
| Session.Run | 3rd/hiredis/read.c:706-788 | For every way of cutting a stream into feeds, with all replies taken in between, replies and final error are those that the grammar finds in the whole stream |
| Session.SessionReadsBack | 3rd/hiredis/read.c:737-788 | Replies written one after another are the replies of the stream |
| Forms.NullIsRead | 3rd/hiredis/read.c:423-428 | A null of RESP2, $-1 or *-1 and the like behind the other marks, in front of anything, is read as nil with just its five bytes |
| Forms.TruthIsRead | 3rd/hiredis/read.c:338-351 | The letters t and T are true, f and F are false |
| Forms.LooseIsRead | 3rd/hiredis/read.c:430-448 | The two bytes behind a bulk string may be any |
| Forms.DoubleIsRead | 3rd/hiredis/read.c:302-309 | inf, -inf, nan and -nan in any capitals are what they say |
| Forms.FormIsRead | 3rd/hiredis/read.c:573-652 | Any of these, and replies as they are usually written, are read in front of anything and as elements at any depth, with just their bytes |
| Forms.StreamIsRead | 3rd/hiredis/read.c:737-788 | A stream of replies in any of these forms is read as these replies, and goes on with what is behind them |
| Forms.StreamEndsWithError | 3rd/hiredis/read.c:737-788 | In front of something malformed it is these replies and its error |
| Forms.PartIsWaitedFor | 3rd/hiredis/read.c:430-433 | As long as a byte of a reply is missing, it is neither read nor refused |
| Forms.UnknownMarkFails | 3rd/hiredis/read.c:579-624 | A first byte that is none of the thirteen marks is an error that names it |
| Forms.BadNumberFails | 3rd/hiredis/read.c:411-415 | An integer or a header whose line is the spelling of no 64-bit number has the error of its kind |
| Forms.NegativeLengthFails | 3rd/hiredis/read.c:417-421 | A bulk length below minus one is out of range |
| Forms.OutOfRangeFails | 3rd/hiredis/read.c:516-522 | So is a number of elements below minus one or above the reader's limit |
| Forms.BadVerbatimFails | 3rd/hiredis/read.c:434-441 | A verbatim string without three bytes and a colon in front is an error |
| Forms.BadLineFails | 3rd/hiredis/read.c:327-345 | So is a nil with something in its line, and a truth value that is none of the letters |
| Command.FormatCommandArgv | 3rd/hiredis/hiredis.c:642-678 | The buffer has exactly the computed length, is filled up to it with the command, and is terminated behind it |
| Command.FormatSdsCommandArgv | 3rd/hiredis/hiredis.c:586-630 | The same command with the numbers printed by sds, of exactly the computed length |
| Command.BulkLen | 3rd/hiredis/hiredis.c:312-314 | The computed length is that of every bulk string with so many bytes |
| Command.CommandReadsBack | 3rd/hiredis/hiredis.c:642-678 | A reader takes the command, in front of anything, for an array of exactly its arguments |
| Split.SdsCatRepr | 3rd/hiredis/sds.c:875-898 | The string's quoted form is appended |
| Split.SdsSplitArgs | 3rd/hiredis/sds.c:943-1059 | The line is split into its arguments, or refused for its quotes, without a look behind its terminator |
| Split.QuotedReadsBack | 3rd/hiredis/sds.c:958-992 | A quoted string in front of a space or nothing is read back with any bytes in it |
| Split.SplitUndoesRepr | 3rd/hiredis/sds.c:875-898 | Splitting the quoted forms of any byte strings, joined with spaces, gives exactly these strings |
| Words.UnitsAreRead | 3rd/hiredis/sds.c:960-983 | In double quotes a byte as it is, two hexadecimal digits behind a backslash and an x, and the letters n, r, t, b and a and any other sign behind a backslash mean the bytes 10, 13, 9, 8, 7 and the sign |
| Words.EscapedIsUnit | 3rd/hiredis/sds.c:875-898 | What sdscatrepr writes for a byte is one of these and means that byte |
| Words.EscapedLooks | 3rd/hiredis/sds.c:877-894 | It is the byte itself if that is printable and neither quote nor backslash, the letter if it has one, and two hexadecimal digits otherwise |
| Words.GuardedIsRead | 3rd/hiredis/sds.c:995-1008 | In single quotes a backslash before an apostrophe guards it, and every other byte is itself |
| Words.SingleQuotesExactlyWhen | 3rd/hiredis/sds.c:995-1008 | A text in single quotes, its apostrophes guarded, is read back if and only if it does not end in a backslash |
| Words.LineIsSplit | 3rd/hiredis/sds.c:943-1059 | A line of plain words and words in quotes of either kind, with plain beginnings, any blanks between and around, is split into exactly what they mean |
| Words.UnterminatedIsRefused | 3rd/hiredis/sds.c:989-1006 | Quotes of either kind that are not closed refuse the line, whatever stands in front |
| Words.TextBehindQuotesIsRefused | 3rd/hiredis/sds.c:984-1003 | So does a closing quote of either kind with anything but a blank behind it |

## Left out

- Weak memory orders: fences and orders are no-ops under sequential consistency.
- The queue's enqueue_bulk, throwing constructors and assignments, moving and swapping queues, MemStats, debug macros, tokens and the choice among sub-queues; producers that exit and are recycled; a bound on a sub-queue's size; a failed allocation in a constructor.
- ImplicitProducer.BlocksAreFreedOnce: for runs in which every call asks for something, and so are the other results about runs in ImplicitProducer and BlockPool; NoElements.SafeExactlyWhen and NoElements.PoolSafeExactlyWhen prove that they need this.
- ImplicitProducer.NoConsumerIsStuck: the same.
- ImplicitProducer.ConsumerFindsItsBlock: the same.
- BlockPool.ListRuns: the same.
- BlockPool.ImplicitRuns: the same.
- The division by an unsigned block size after the signed subtraction at 3rd/concurrentqueue/concurrentqueue.h:2001: the model divides the signed distance, which is congruent modulo the index's size.
- Semaphore.SignalKeepsInv: the conversion of toRelease to int is not modelled; it matters from 2^31 waiters on.
- The semaphore's platform layers: the kernel's wait may also fail, and time is not modelled, so that a timed wait may end at any moment.
- Fairness: that a thread that spins or retries gets its turn.
- ImplicitCalls.DequeueTakesAll: dequeues ask for something, as in the other results about implicit sub-queues.
- ProducerLookup.LookupAnswers: alone, as a thread whose table is full waits for another one that enlarges it.
- FreeList.SoloTryGet: alone, as a try_get retries when others change the head.
- pb_deltype and pb_delfield, which clear keys in place; the loader of descriptors; floats, enums, hooks, explicit default values, metatables, integers as strings and the pack and slice functions of the Lua binding.
- Table.Table.Grow: does not model pb_resizetable on a table that is not full, which pbT_newkey never calls, nor the 32-bit product of size and entry size, for which the largest size granted stands.
- Skip.SkipValue: does not model the depth of the C stack in the recursion.
- Message.MessageRoundTrip: Lua tables are names with values in some order, and errors that the binding raises for values of a wrong type are outside of it.
- Coder.DMessage: a nested message is a table of its own here, where the decoder fills one on the Lua stack.
- Names.NameTable.New: a null string is not modelled.
- ExplicitProducer.EmptyBlockReleased: blocks are empty by their flags, as they are in the default build; the counter that replaces them when the block size exceeds EXPLICIT_BLOCK_EMPTY_COUNTER_THRESHOLD is not modelled.
- BlockPool.PromiseIsKept: sub-queues are there from the beginning; which thread's try_get it is that returns a block to a producer is left open.
- Reader.Reader.Put: objects are values in a tree with null pointers, and not separate allocations; memory that runs out is not modelled, nor are other reply functions than the default ones.
- Reader.Reader.ReadLine: the 32-bit line length and element index are unbounded here, and so is the doubled element count of a map, which overflows from 2^62 pairs on when maxelements is zero.
- Grammar.LineContent: strtod is some function from texts to finite numbers.
- Command.FormatCommandArgv: sums of lengths are unbounded here, arguments come with their lengths, and allocation succeeds.
- Split.SdsSplitArgs: allocation succeeds; characters are classified as in the C locale.
- redisvFormatCommand, connections, TLS, publish and subscribe, the dict, and the Lua interpreter.
