# Verification of the kernel's core algorithms

A Dafny model of the hard parts of the kernel: its lock-free structures, its two allocators, the stream
decompressor of the file system, the ciphers and the MAC, the calendar, the BACnet tags, the checksums and the
symbol hash table, with proofs of what they promise. `dafny verify dfyconfig.toml` checks everything.

**Lock-free structures.** `Exclusive.dfy` models the LDREX / STREX form of `atomic.h` (lines 128-182): every thread
has at most one reservation, a completed store destroys the reservations on its cell, an exclusive store may also
fail for no reason, and it compares no values. A structure is a state machine: one step is one exclusive load, plain
load, plain store or exclusive store of one of arbitrarily many threads, and the theorems quantify over every state
of every run. Threads may scribble over memory they own at any time. This is done for the memory pool with its
semaphore (`MemoryPool.dfy`), the two queues (`Queue.dfy`), the ring of queued signals (`Signal.dfy`), the message
queue (`MessageQueue.dfy`, `Priorities.dfy`), the slice stacks (`Slice.dfy`, `SizeClasses.dfy`), the search tree
(`Tree.dfy`, `TreeCalls.dfy`), and the readers-writer lock and barrier (`Rwlock.dfy`, `Barrier.dfy`). Of each it is
proved what every state keeps, with what result a call can end, and that nobody is stuck: from every reachable state
whoever is inside a call, and has not to wait for a token, can end it by itself. `Chains.dfy` holds what they share
about linked lists, `Counting.dfy` what they share about counting threads, and `Bits.dfy` a little about words.

**Sequential code** that works step by step is a class or a method with loops (`Malloc.dfy`, `RfsVectors.dfy` with
`Extents.dfy`, `Lzjb2.dfy`, `Aes.dfy` with `AesStandard.dfy` and `AesVectors.dfy`, `Magma.dfy` with
`MagmaVectors.dfy`, `Asn.dfy`, `Calendar.dfy`, `Crc.dfy`, `Elf.dfy`, `Rotations.dfy`, and the receiver's side of
`MessageQueue.dfy`), proved against functions about which the theorems speak.

**Where the code does not do what it was meant to do** the model does what the code does, and an if-and-only-if says
when that is what was meant:

- `malloc.c:167` returns the address in front of the padding: `Malloc.Heap.AlignedAlloc`, `Malloc.FirstPointerIsOff`.
- `r3_fs.c:196-201` frees an extent that stays linked: `Extents.ReleaseGoodIff`, `RfsVectors.Space.Release`.
- `r3_fs.c:119-129` does not set `*actual_size`: `Extents.AllocTakes`, `Extents.AllocMisses`.
- `r3_fs.c:144` accepts an extent that ends at `offset`: `Extents.CropAnswerIff`, `Extents.CropMisses`.
- `signal.c:129` ends the `if` with a semicolon: `Signal.GetSafeIff`, `Signal.DisciplinedIff`,
  `Signal.FreshRingDelivers`, `Signal.EarlyGetCosts`.
- `message_queue.c:89-101` inserts a drained batch newest first: `Priorities.FirstComeFirstIff`,
  `Priorities.FirstComeFails`.
- `memory_pool.c:41` needs the reservation; the compare-and-exchange build (`atomic.h:214-218`) goes wrong with a
  stale link, and a run of it loses a block: `MemoryPool.CasRunSafeIff`, `MemoryPool.StaleLinkIsReachable`.
- `memory_pool.c:51` accepts blocks of no bytes and then counts one block several times: `MemoryPool.New`.
- `pthread.c:567-578` counts a thread that comes back as one of the round before while others are still in it:
  `Barrier.SoundIff`, `Barrier.ComingBackEarlyFails`.
- `r3_tree.c:91` takes whole subtrees, but looks at the key of their root only: `Tree.WellShapedIff`,
  `Tree.AstrayIsLost`, `Rotations.GraftSearchableIff`, `Rotations.GraftCanBreakSearch`.
- `r3_asn.c:76-88` writes lengths 254 and 255 as one byte: `Asn.TagRoundTripIff`, `Asn.LengthMisses`.
- `r3_asn.c:95-97` compares the whole low nibble, so the opening tags that the encoder writes (`r3_asn.c:485-504`) are
  not seen: `Asn.SkipIff`, `Asn.NestedContextFails`; around them the skip may even never end, or come out right by
  luck: `Asn.SkipCanBeEndless`, `Asn.SkipCanBeLucky`.
- `r3_asn.c:333-338` leaves out the second byte of a context tag, which `r3_decode_tag` expects: `Asn.ContextTagIff`.
- `magma.c:149` takes the key of whole blocks for the empty message: `Magma.EmptyTagIff`, `MagmaVectors.EmptyTagFails`.
- `r3_stdlib_mktime.c:63-78` is exact on 31 bits as its comment says, and a little beyond: `Calendar.Div365Exact`,
  `Calendar.Div365Fails`, `Calendar.Rem7Exact`, `Calendar.Rem7Fails`.
- `r3_stdlib_mktime.c:198-207` overflow 32 bits from day 1071269192 on: `Calendar.Dmy32Iff`.
- `r3_stdlib_mktime.c:125` knows no century: `Calendar.LulianIff`, `Calendar.RoundTripIff`.
- `crc16.c:296` and `crc16.c:304` leave the high half of the register unmasked, which is right as long as it began with
  sixteen bits (`Crc.FoldedIsSerial`) and not otherwise: `Crc.UnmaskedUpdateIff`, `Crc.WideRegisterFails`.
- `pthread.h:47` initialises a lock to 0, `pthread_rwlock_init` to 1: `Rwlock.StaticInitializerStaysShut`.
- `elf.c:347` starts at index 0, which is STN_UNDEF: `Elf.FoundIff`.
- `r3_slice.c:38-41` computes a class for every size, but there are five pools: `SizeClasses.PoolExistsIff`.
- `r3_tree.h:131-157` rotates trees whose comparison is not an order: `Rotations.TurnedRightSearchableIff`.

## Model

| member | source | states |
|---|---|---|
| MemoryPool.EveryBlockInOnePlace | memory_pool.c:24-98 | in every state of every run the free stack is a finite acyclic list, each block is on it once or with exactly one thread, and the number of free blocks is tokens + entered but not yet popped + pushed but not yet released |
| MemoryPool.TokenMeansBlock | memory_pool.c:78-91 | a thread whose semaphore_enter succeeded, or that was woken with a token, never pops NULL; the count stays between 0 and the number of blocks |
| MemoryPool.RunKeepsInv | memory_pool.c:24-98 | the invariant behind both holds in every state of every run |
| MemoryPool.NextKeepsInv | memory_pool.c:24-98 | every step of every thread, and every write of an owner into its block, keeps it |
| MemoryPool.PopKeepsPlaced | memory_pool.c:32-43 | a pop whose exclusive store succeeds moves exactly the top block to its new owner, although the link was read after the reservation was taken |
| MemoryPool.PushKeepsPlaced | memory_pool.c:24-30 | a push whose exclusive store succeeds puts exactly the carried block on top |
| MemoryPool.WaitsOnlyWhenEmpty | memory_pool.c:78-89 | in every run a caller is made to wait only when it reads a count of 0, and then every free block is spoken for, by a thread that has its token or by one that has yet to give it back |
| MemoryPool.AllocEnds | memory_pool.c:78-91 | in every run an allocation ends with the block that was on top and nobody's, or it had to wait and gives up |
| MemoryPool.AllocTakesTop | memory_pool.c:78-91 | in every state of every run with a token left a caller by itself gets the top block, and nothing else changes |
| MemoryPool.WaiterTakesTop | memory_pool.c:82-91 | a caller that had to wait, with a token come back, gets the top block by itself |
| MemoryPool.FreePutsOnTop | memory_pool.c:92-98 | and a release by itself puts the block on top and gives its token back |
| MemoryPool.EveryCallCanEnd | memory_pool.c:24-98 | in every state of every run whoever is inside a call can end it without the others |
| MemoryPool.CasPopSafeIff | atomic.h:214-218 | with a comparing exchange the pop keeps every block in one place exactly when the link it read is still current |
| MemoryPool.CasRunSafeIff | atomic.h:214-218 | over whole runs of that build, owners writing into their blocks and handing them on: every block is in one place in every state exactly when no pop exchanges over a stale link |
| MemoryPool.StaleLinkIsReachable | atomic.h:214-218 | a run of that build, every exchange comparing values, ends with a pop over a stale link after which one block is both owned and on the free stack, and no placement of the blocks is right |
| MemoryPool.New | memory_pool.c:48-77 | block_count blocks, one rounded block size apart, become a chain of exactly these with as many tokens; tokens and chain agree exactly when a block has bytes or there is only one |
| Queue.FirstInFirstOut | queue.c:29-62 | in every state of every run, also in the middle of a reversal, what was popped is a prefix of what was pushed, in order, and the rest is in the queue, each node once |
| Queue.EmptyMeansEmpty | async_queue.c:33-50 | in every run of both consumers, a call that ends without a node leaves its list empty, and when in that call it took the list of the producers everything pushed had been popped |
| Queue.EveryNodeInOnePlace | queue.c:29-62 | in every state of every run each node is outside the queue, in one push, or in the queue once; none is lost |
| Queue.CallsReturnOldest | async_queue.c:33-50 | in every state of every run with the consumer idle both queue_pop and osAsyncQueueGet, undisturbed, return the oldest node, or nothing if all were popped |
| Queue.PushAlone | queue.c:53-62 | wherever a push has come to, by itself it ends with its node the newest one and nothing else changed |
| Queue.EveryCallCanEnd | async_queue.c:33-60 | in every state of every run whoever is inside a call can end it without the others |
| Queue.RunKeepsInv | async_queue.c:33-60 | the invariant holds for producers and consumer of both implementations, also mixed |
| Queue.TurnOver | async_queue.c:22-32 | one turn of a reversal loop moves one node and leaves the order of what is pending unchanged |
| Queue.PopEndKeepsLinked | queue.c:40-47 | queue_pop reverses all but the oldest node and returns that one, which is first in the pending order |
| Queue.GetEndKeepsLinked | async_queue.c:36-42 | osAsyncQueueGet reverses everything and the pending order is unchanged |
| Queue.QueueInit | async_queue.c:16-20 | initialisation reaches the state the runs start from |
| Signal.DeliveredInReservationOrder | signal.c:98-139 | when the reader calls only on a set bit, deliveries are a prefix of the reservations whatever the order of publication, and free slots, slots about to get a ticket and outstanding tickets add up to the capacity |
| Signal.NoSlotOverwritten | signal.c:105-110 | a sender about to write has a slot whose previous entry was given back and that no other sender and no complete entry occupies |
| Signal.RunKeepsInv | signal.c:98-139 | the ready bits are exactly the published tickets and their slots hold what was reserved, in every state |
| Signal.ReadyBitMeansPublished | signal.c:126-129 | the bit that is tested says exactly whether the oldest outstanding entry is complete, past any wrap of the positions |
| Signal.WritesOwnSlot | signal.c:105-110 | a write to the ring hits no other outstanding ticket |
| Signal.SendEnds | signal.c:98-114 | in every disciplined run sigqueue refuses only when every slot is taken, by an entry not given back or by a sender before its ticket; otherwise it ends with its own message complete in its slot and the ready bit set |
| Signal.SendsItsMessage | signal.c:98-114 | a call keeps its message, and that is what its ticket is drawn for |
| Signal.SendAlone | signal.c:98-114 | with a free slot a call by itself reserves the next position, modulo 2^32, fills its slot and sets its bit, and nothing else changes |
| Signal.EveryCallCanEnd | signal.c:98-139 | in every state of every disciplined run whoever is inside a call can end it without the others |
| Signal.GetAloneIsACall | signal.c:124-140 | the function of the next two rows is a run of the machine's steps |
| Signal.GetSafeIff | signal.c:124-140 | a call leaves the ring in order exactly when the bit it ignores is set |
| Signal.DisciplinedIff | signal.c:98-140 | over whole runs the ring is in order in every state exactly when no call began on a clear bit |
| Signal.EarlyGetCosts | signal.c:98-140 | a run with one early call: half a message is delivered, and later an entry is published that mixes two senders' messages |
| Signal.FreshRingDelivers | signal.c:115-140 | on a fresh ring it delivers something never sent and frees a slot too many |
| Signal.QueueInit | signal.c:115-123 | initialisation reaches the state the runs start from |
| Priorities.InsertGoesLast | message_queue.c:95-99 | a message goes behind those of its own priority and disturbs no other priority |
| Priorities.MergeSorted | message_queue.c:91-101 | the held list stays sorted |
| Priorities.MergeKeeps | message_queue.c:91-101 | draining loses and invents no message |
| Priorities.MergeOrders | message_queue.c:91-101 | within a priority what was held stays ahead of the batch, and the batch keeps its own (newest first) order |
| Priorities.FirstComeFirstIff | message_queue.c:89-101 | messages of one priority leave in the order they came exactly when those of the batch read the same from both ends; of messages that differ, when there is at most one |
| Priorities.FirstComeFails | message_queue.c:89-101 | two messages of one priority drained together come out the wrong way round |
| Priorities.HeadIsMaximal | message_queue.c:103 | the head of the merged list has the highest priority of all held or drained |
| MessageQueue.Receiving.Seek | message_queue.c:94-97 | the walk stops at the first held message of lower priority |
| MessageQueue.Receiving.Drain | message_queue.c:91-101 | relinking the batch node by node computes the merge, with the same nodes and no other memory touched |
| MessageQueue.Receiving.Get | message_queue.c:89-106 | the node taken off is the first of the merge and the rest stays held |
| MessageQueue.OneIn | message_queue.c:92-100 | one turn of the loop moves one node and leaves the merge of what remains unchanged |
| MessageQueue.MessagesAreConserved | message_queue.c:72-135 | in every state of every run each message sent was received or is in exactly one list, the held list is sorted, and messages = tokens + the receiver's token + pushed but not announced |
| MessageQueue.ServedInDrainOrder | message_queue.c:72-135 | in every state of every run, of every priority, what was received, then what is held, then what is still to be inserted is exactly what was drained, batch after batch, each newest first; what was pushed is what was drained and what is still on tail |
| MessageQueue.EveryBlockInOnePlace | message_queue.c:72-135 | in every state of every run each block is free, in one Put, or in one list once; none is lost |
| MessageQueue.WaitsOnlyWithoutMessage | message_queue.c:79-87 | in every run the receiver is made to wait only when it reads a count of 0, and then every message in the lists is one its sender has yet to announce |
| MessageQueue.GetEnds | message_queue.c:72-110 | in every run Get ends with one message more received, or it had to wait and gives up |
| MessageQueue.GetReturnsFirst | message_queue.c:72-110 | in every state of every run with a message announced Get by itself, begun or waiting, returns the first of everything held and sent, merged |
| MessageQueue.PutSends | message_queue.c:111-135 | Put by itself sends exactly its message in its block, announces it, and changes nothing else |
| MessageQueue.EveryCallCanEnd | message_queue.c:72-135 | in every state of every run whoever is inside a call can end it without the others |
| MessageQueue.QueueNew | message_queue.c:40-53 | a new queue is in the state the runs start from |
| MessageQueue.TokenMeansMessage | message_queue.c:103-104 | a receiver that took a token never finds the list empty |
| MessageQueue.GetReturnsMaximal | message_queue.c:72-110 | while senders go on, every Get returns a message of the highest priority held or drained |
| MessageQueue.SortRefinesMerge | message_queue.c:91-101 | turn by turn, in the machine, the sorting loop computes the merge |
| MessageQueue.RunKeepsInv | message_queue.c:72-135 | the invariant behind these holds in every state of every run |
| MessageQueue.TailUntouched | message_queue.c:98-99 | the receiver's relinking never touches what senders pushed since |
| SizeClasses.FitsIff | r3_slice.c:38-41 | a class holds a request exactly when it is not below the chosen one: the choice is the tightest fit |
| SizeClasses.PoolExistsIff | r3_slice.c:38-57 | the chosen class is one of the five pools exactly for requests of 1 to 64 bytes |
| Slice.Carve | r3_slice.c:75-79 | cutting a block yields `length` pieces `size` apart from its beginning, each linked to the address behind it, and touches nothing else |
| Slice.SpliceIsChain | r3_slice.c:80-83 | a linked list in front of a stack is a stack |
| Slice.RunKeepsInv | r3_slice.c:20-117 | the ownership invariant holds in every state of every run of allocations, releases and refills |
| Slice.EverySliceInOnePlace | r3_slice.c:20-117 | every slice ever cut is on the acyclic free stack or with exactly one thread |
| Slice.SlicesDontOverlap | r3_slice.c:70-117 | in every state of every run the slices of a class are exactly the pieces of its blocks, so that no byte is lost, and no two of them share a byte |
| Slice.AllocIsExclusive | r3_slice.c:27-35 | the slice an allocation takes was nobody's and its link is current |
| Slice.AllocEnds | r3_slice.c:85-117 | in every run g_slice_alloc ends with the slice that was on top and nobody's, never with none |
| Slice.RefillsOnlyWhenEmpty | r3_slice.c:91-115 | in every run a new block is cut only by a thread that, in this turn of its loop, read an empty stack, when every slice was with some thread |
| Slice.AllocGivesASlice | r3_slice.c:85-117 | in every state of every run an allocation by itself takes the top slice, or with an empty stack one never given out before |
| Slice.FreePutsOnTop | r3_slice.c:60-69 | and a release by itself puts its slice on top |
| Slice.EveryCallCanEnd | r3_slice.c:20-117 | in every state of every run whoever is inside a call can end it without the others |
| Tree.WaysAgree | r3_tree.c:96-103 | two walks for one key take the same way |
| Tree.KeysAreUnique | r3_tree.c:91-132 | in a well-shaped tree each key is in one place |
| Tree.WalkFinds | r3_tree.c:138-146 | the walk for a key that is in the tree does not leave it, transitive comparison or not |
| Tree.RunIsSteady | r3_tree.c:91-146 | in every state of every run, whatever subtrees are handed in, each node is of the tree, free, or of one thread's subtree, and what the threads hold of the tree is of the tree |
| Tree.WellShapedIff | r3_tree.c:81-132 | in every state of a run of many threads the walk for each key of the tree comes to its node, exactly when each subtree, at its linking store, is searchable and all its keys come by the cell its root is linked into |
| Tree.SinglesFollow | r3_tree.c:91-132 | which is so whenever only single nodes are handed in |
| Tree.AstrayIsLost | r3_tree.c:81-132 | and is not so in a run in which one thread hands in a subtree: a key is in the tree and its walk ends at an empty link |
| Tree.RunKeepsInv | r3_tree.c:91-146 | up to the first subtree that does not follow, every state of every run of insertions, replacements and lookups is well shaped and every walk is where its key leads |
| Tree.OnceInTheTree | r3_tree.c:91-132 | up to then each key occurs at most once, under any interleaving |
| Tree.LookupFinds | r3_tree.c:138-146 | a lookup that began when its key was in the tree never comes out of the tree with NULL, whatever insertions run meanwhile, as long as what they link in follows |
| Tree.OwnStepGoesOn | r3_tree.c:140-145 | each own step of such a lookup moves it one cell along the way of its key, and from the last cell to the exchange at the node with the key |
| Tree.RunHasThreads | r3_tree.c:91-146 | every run is one of steps of known threads, which is how the next row counts them |
| Tree.LookupArrives | r3_tree.c:138-146 | a lookup begun in a well-shaped tree that had its key is, whatever is linked in from then on, always on one fixed way, as many cells on as it made steps, and after as many own steps as cells were left it is about to exchange the value of the node with its key |
| Tree.LinksOnlyGrow | r3_tree.c:126 | in every run a link changes only from NULL to a node, which keeps its key |
| Tree.InsertedStays | r3_tree.c:91-132 | in every run, once an insertion stored its link or exchanged the value, a node of the tree has its key for ever |
| Tree.ExchangeTakesOld | r3_tree.c:98-101 | inserting a key already there hands back exactly the value the node held until that instant |
| TreeCalls.LookEnds | r3_tree.c:138-146 | in every run tree_replace_data ends by storing the value it was given in the node with its key, handing over what that held at that instant, or without touching anything; the one whenever the key was there when it began, as long as what is linked in follows |
| TreeCalls.LooksForItsKey | r3_tree.c:138-146 | key and value of that call stay what it was given |
| TreeCalls.InsertEnds | r3_tree.c:91-132 | in every run tree_insert_tree ends with the subtree linked in where the walk for its key found an empty link; or, after an exchange with the node of the same key, with the element holding what that held at that instant, its nodes the caller's again |
| TreeCalls.InsertsItsElement | r3_tree.c:91-132 | the element of that call stays what it was given |
| TreeCalls.WayIsShort | r3_tree.c:96-103 | in a well-shaped tree no walk comes to a link twice, although the comparison goes round in a circle |
| TreeCalls.EveryCallCanEnd | r3_tree.c:91-146 | so in every state of every run whoever is inside a call can end it without the others, as long as what is linked in follows |
| Rotations.Node.constructor | r3_tree.h:61-72 | tree_init makes a one-node tree with correct counts |
| Rotations.RotateRight | r3_tree.h:131-140 | the rotation keeps the nodes, their order from left to right and both counts of every node (modulo 2^16) |
| Rotations.RotateLeft | r3_tree.h:148-157 | the rotation to the left keeps the nodes, their order and both counts of every node |
| Rotations.TurnedRightSearchableIff | r3_tree.h:131-140 | a searchable tree stays searchable exactly when the node going down and all on its right compare greater than the pivot |
| Rotations.TurnedLeftSearchableIff | r3_tree.h:148-157 | a searchable tree turned left stays searchable exactly when the node going down and all on its left compare less than the pivot |
| Rotations.HalfCircleTurns | r3_tree.h:131-157 | while all keys lie within half the circle every rotation keeps a tree searchable |
| Rotations.TurnCanBreakSearch | r3_tree.h:131-140 | outside it there is a searchable tree of three keys that a rotation breaks |
| Rotations.Seek | r3_tree.c:96-103 | the walk ends at the node with the key, or at the one whose empty link is the place for it |
| Rotations.InsertTree | r3_tree.c:91-132 | with nobody else at work, the heap tree becomes the shape with the whole subtree in the place of one leaf; or, when the root's key is there, only the two values are exchanged |
| Rotations.GraftSearchableIff | r3_tree.c:81-132 | a searchable tree stays searchable under that exactly when the subtree is searchable and every node on the way sends all its keys where it sends the root's |
| Rotations.OneNodeFollows | r3_tree.c:91-132 | for a single new node this always holds |
| Rotations.GraftCanBreakSearch | r3_tree.c:81-132 | two trees on the heap, each searchable, of which one hung into the other hides a key |
| Rotations.DepthIsSize | r3_tree.h:115-119 | `_depth` is the size of the subtree modulo 2^16 |
| Rotations.Min | r3_tree.h:95-98 | tree_min is the first node from the left |
| Rotations.Max | r3_tree.h:102-105 | tree_max is the last |
| Rwlock.CountTells | pthread.c:482-537 | the counter is 0 exactly when one writer holds the lock and no reader does, else 1 - 2 * readers |
| Rwlock.UnlockMatches | pthread.c:529-537 | unlock takes the branch of the caller's own kind |
| Rwlock.WaiterEntersAlone | pthread.c:507-517 | a writer that had to wait gets in only when nobody is in |
| Rwlock.BusyMeansTaken | pthread.c:496-528 | in every run a writer is told EBUSY or made to wait only if somebody was in when it read the counter in that turn of its loop, and a reader is told EBUSY only if a writer was |
| Rwlock.TryAlone | pthread.c:496-528 | in every state of every run, by itself, a writer gets in exactly when nobody is in and a reader exactly when no writer is |
| Rwlock.GiveBackAlone | pthread.c:529-537 | unlock by itself gives back one acquisition of the caller |
| Rwlock.CanEnd | pthread.c:496-539 | wherever a thread has come to, it can end its call without the others unless it is a writer that has to wait for a taken lock |
| Rwlock.RwlockInit | pthread.c:482-486 | pthread_rwlock_init reaches the state the runs start from |
| Rwlock.StaticInitializerStaysShut | pthread.h:47 | a lock initialised to 0 never lets anyone in |
| Barrier.SoundIff | pthread.c:558-578 | threads that call wait again at any moment: over any number of finished rounds nobody is past the barrier in a round that another has not reached, and each round has one serial return, exactly when nobody's fetch_add succeeded while another thread had still to do its fetch_sub of the round before |
| Barrier.ComingBackEarlyFails | pthread.c:567-578 | a run of two threads in which one comes back early and is past the barrier of round 1 with the other blocked in round 0 |
| Barrier.NobodyPassesEarly | pthread.c:558-578 | in unfinished runs too: as long as every arrival was clean in that sense no thread is past the barrier in a round that another has not reached |
| Barrier.OneSerialThread | pthread.c:567-578 | then no round has two serial returns, and it has one exactly when everybody has left it |
| Barrier.SerialIsLast | pthread.c:576-577 | then the thread with the serial return is the last to leave its round |
| Barrier.CountersReturn | pthread.c:558-578 | then both counters are back at zero when everybody has left |
| Barrier.CleanRunKeepsInv | pthread.c:558-578 | the invariant behind these: all threads are in one round or at its edges, and the counters count them |
| Barrier.BlocksOnlyAtZero | pthread.c:570-571 | in every run a thread is blocked only when it finds the semaphore at zero |
| Barrier.TokenForEachWaiter | pthread.c:567-575 | with clean arrivals, once everybody has arrived and the last one has set the semaphore, it is the number of threads that wait: nobody waits in vain |
| Barrier.EveryCallCanEnd | pthread.c:567-578 | in every state of every run whoever has not to wait can leave without the others |
| Barrier.BarrierInit | pthread.c:558-566 | pthread_barrier_init reaches the state the runs start from |
| Malloc.Heap.constructor | malloc.c:31-34 | the empty heap is tiled |
| Malloc.Heap.AlignedAlloc | malloc.c:129-168 | the heap stays tiled, one live block of at least the asked size with aligned data is appended and no other changes; the pointer returned is that data, and is aligned, exactly when no padding was needed |
| Malloc.FirstPointerIsOff | malloc.c:129-168 | on a fresh heap that begins on a multiple of 8 already the first pointer asked for with alignment 8 is 4 off |
| Malloc.Heap.Malloc | malloc.c:178-181 | the pointer is the data of a new live block, aligned for pointers |
| Malloc.Heap.Free | malloc.c:87-91 | the block becomes free and nothing else changes |
| Malloc.Heap.Store | malloc.c:19-25 | an owner's stores behind its header hit no header |
| Malloc.Heap.Coalesce | malloc.c:64-78 | the loop merges at most five blocks, and stops at the heap's end by shortening it |
| Malloc.Heap.Garbage | malloc.c:52-80 | one call of the collector, with the scan position always on a block boundary |
| Malloc.Placement | malloc.c:142-147 | the padding is never negative, a multiple of the header size, and puts the data of the new block on the alignment |
| Malloc.BlockSizeHolds | malloc.c:135-136 | the data of a block are the least multiple of the alignment that holds the request, behind one header |
| Malloc.LiveBlocksDisjoint | malloc.c:129-168 | live blocks of a tiled heap are pairwise disjoint and inside it |
| Malloc.CollectKeepsLive | malloc.c:52-80 | a call of the collector moves, merges and truncates no live block |
| Malloc.CollectMergesFive | malloc.c:52-80 | one call makes one block of a free block and the free ones behind it, at most five, as large as all of them; up to five free blocks at the end go off the heap |
| Malloc.CollectProgress | malloc.c:52-80 | each call on a heap with work left lowers an explicit measure |
| Malloc.CollectorFinishes | malloc.c:52-80 | from any heap and any scan position, 4n + 3 calls on n blocks leave no two free blocks side by side and none at the end, and every live block in place |
| Malloc.CollectKeepsCompact | malloc.c:52-80 | after that the collector only moves its scan |
| Malloc.LiveUntilReleased | malloc.c:52-180 | in every run of allocations, releases and collector calls a live block keeps address and size until it is released |
| Extents.Canonical | r3_fs.c:84-92 | two well-formed lists of the same blocks are the same list |
| Extents.AllocTakesFreeBlocks | r3_fs.c:93-134 | what an allocation takes was free, exactly that leaves the list, and the list stays well formed |
| Extents.AllocTakes | r3_fs.c:93-134 | how much is taken, and from where: from offset if an extent starts there, else from the first extent that is large enough; and that the caller is told so exactly if the extent was the one asked for, nothing fitted, or the old value was right already |
| Extents.AllocMisses | r3_fs.c:119-129 | a block is taken and the caller told of none |
| Extents.CropTakes | r3_fs.c:138-178 | a crop takes the free run from offset as far as it goes and no more than asked, and exactly that leaves the list |
| Extents.CropGoodIff | r3_fs.c:155-166 | the list stays well formed unless a crop of nothing splits an extent |
| Extents.CropAnswerIff | r3_fs.c:144 | the answer tells whether offset was free exactly when no extent ends there |
| Extents.CropMisses | r3_fs.c:144-172 | success is reported with nothing free |
| Extents.ReleaseGoodIff | r3_fs.c:185-226 | the list stays well formed exactly when the blocks do not fill the whole gap between two extents |
| Extents.ReleaseMisses | r3_fs.c:196-201 | filling such a gap lists a block twice |
| Extents.ReleaseAdds | r3_fs.c:185-226 | either way the blocks of the list are the old and the released ones |
| Extents.BridgesMeans | r3_fs.c:196 | the guard of that branch says that the blocks on both sides are free |
| Extents.AllocThenRelease | r3_fs.c:93-226 | releasing what was just allocated restores the identical list, for every list and request |
| Extents.CropThenReleaseIff | r3_fs.c:138-226 | releasing what was just cropped restores the list exactly when the crop did not split an extent |
| Extents.StepConserves | r3_fs.c:93-226 | free plus held blocks equal the volume after every call |
| Extents.RunSoundIff | r3_fs.c:93-226 | over any sequence of calls the list stays sorted, disjoint, non-touching and non-empty per extent and conserves the volume exactly when no call meets one of the two branches above |
| RfsVectors.Space.Alloc | r3_fs.c:93-134 | allocating in place has the answer, the length told and the list of Extents.Alloc, and no freed extent stays linked |
| RfsVectors.Space.Crop | r3_fs.c:138-178 | cropping in place, with the split of an extent in two, has the answer, the length told and the list of Extents.Crop, and frees nothing that stays linked |
| RfsVectors.Space.Release | r3_fs.c:185-226 | releasing in place has the answer and the list of Extents.Release; a freed extent stays linked exactly when two neighbours had to be joined |
| RfsVectors.Space.Append | r3_fs.c:233-244 | the file's blocks are the old ones followed by the new ones, and fragments stay maximal |
| RfsVectors.Space.Next | r3_fs.c:245-256 | 0 exactly when the block is in the list |
| Lzjb2.MemMove | lzjb2.c:20-33 | a forward byte copy computes the overlapping copy of a match |
| Lzjb2.StreamBitTest | lzjb2.c:57-63 | the next flag, a new flag byte being fetched exactly where the layout has it, even inside a token |
| Lzjb2.ReadMatch | lzjb2.c:66-77 | offset and length of the next token, in all three formats |
| Lzjb2.Round | lzjb2.c:64-88 | one turn of the loop appends the expansion of one token and stands in front of the rest; the branch for length 0 is dead |
| Lzjb2.Decompress | lzjb2.c:48-90 | on any layout of any valid tokens the output is their LZ77 expansion, nothing behind it is touched and exactly s_len bytes are used |
| Lzjb2.EmptyMeansDone | lzjb2.c:64 | the layout has bytes left exactly when it has tokens left |
| Lzjb2.LayoutEncodes | lzjb2.c:48-90 | every list of valid tokens has a stream, flag bytes interleaved where first needed |
| Lzjb2.LiteralsExpand | lzjb2.c:85-87 | every byte string is the expansion of some tokens |
| Lzjb2.FlagByteAgrees | lzjb2.c:57-63 | the flag bytes of that stream hold the flags in the order they are tested, and zeros behind them |
| Lzjb2.ShortBytes | lzjb2.c:67-69 | every byte is a short match: offset less one in six bits, length less two in two |
| Lzjb2.LongBytes | lzjb2.c:17 | every two bytes are a long match: offset less one in eleven bits, length less three in five; a third byte follows exactly when these five are all ones, and says how much longer than 34 it is |
| Lzjb2.FitsIff | lzjb2.c:65-77 | the matches of the theorems are exactly those of some bytes that reach back no further than the output |
| Lzjb2.OneReading | lzjb2.c:48-90 | no stream is the layout of two lists of tokens |
| Aes.InvSBoxInverts | aes.c:25-61 | the inverse table inverts the table, all 256 entries |
| Aes.MixRows | aes.c:113-128 | the rotate-and-xor form is the matrix of FIPS 197, section 5.1.3 |
| Aes.InvMixRows | aes.c:213-234 | the four rotated sums are the inverse matrix of FIPS 197, section 5.3.3 |
| Aes.InvMixColumnInverts | aes.c:113-234 | the inverse column mixing inverts the column mixing |
| Aes.InvMixColumnLinear | aes.c:213-234 | it distributes over the addition of a round key |
| Aes.InvSubShiftInverts | aes.c:157-211 | substitution and shift, forward and back, are inverse |
| Aes.InvRoundsMirror | aes.c:287-314 | each decryption round under the transformed keys undoes one encryption round |
| Aes.DecryptInvertsEncrypt | aes.c:280-314 | for every block and every eleven round keys, decryption under the transformed schedule undoes encryption |
| AesStandard.SBoxIsTheStandards | aes.c:25-42 | each entry of the table is the affine image of the inverse of its index in the field (FIPS 197, section 5.1.1), and every index but 0 has an inverse |
| AesStandard.AffineBits | aes.c:321-331 | the affine map is equation 5.1 bit by bit |
| AesStandard.ShiftsRows | aes.c:157-183 | the byte in row r and column c is the substituted one of row r and column c + r (section 5.1.2) |
| AesStandard.ShiftsRowsBack | aes.c:185-211 | and goes back there (section 5.3.1) |
| AesStandard.MixRowIsProduct | aes.c:113-128 | the matrix has the entries 2, 3, 1, 1 in the product of the field |
| AesStandard.InvMixRowIsProduct | aes.c:213-234 | the inverse matrix has 0e, 0b, 0d, 09 |
| AesVectors.EncryptsTheExample | aes.c:287-314 | the example of FIPS 197, appendix C.1, comes out and goes back |
| Aes.AddRoundKey | aes.c:249-253 | in place, the sum of state and key |
| Aes.MixColumns | aes.c:237-242 | in place, every column mixed |
| Aes.InvMixColumns | aes.c:243-248 | in place, every column mixed back |
| Aes.SubBytesShiftRows | aes.c:157-183 | row r of column j comes from column j + r, substituted |
| Aes.InvSubBytesShiftRows | aes.c:185-211 | row r of column j comes from column j - r, substituted back |
| Aes.InvKeyExpansion | aes.c:280-285 | in place, rounds 1 to 9 are mixed and rounds 0 and 10 kept |
| Aes.AESEncrypt | aes.c:287-301 | the loop that leaves in its middle encrypts the state in place: nine full rounds, one without mixing, eleven keys added |
| Aes.AESDecrypt | aes.c:302-314 | the loop that is entered in its middle runs the equivalent inverse cipher over the keys from the last to the first |
| Aes.EncryptThenDecrypt | aes.c:280-314 | the three procedures in sequence give back the state |
| Magma.T | magma.c:48-58 | nibble i of the result is the entry of row i that nibble i of the word selects |
| Magma.TInjective | magma.c:16-58 | the substitution of whole words is one-to-one |
| Magma.RowsAreTheStandards | magma.c:18-28 | the packed rows are the eight substitutions of GOST R 34.12-2015, section 5.1.1, entry by entry |
| Magma.RotatesBy11 | magma.c:61 | bit k of the substituted word goes to bit k + 11, round the word |
| Magma.BlockBytes | magma.c:39-41 | a block is read with its first byte highest |
| Magma.RoundFunction | magma.c:59-62 | the substituted sum of key and word, rotated by 11 |
| Magma.UnroundsInvert | magma.c:221-229 | rounds run backwards undo rounds, whatever the round function |
| Magma.DecryptInvertsEncrypt | magma.c:70-229 | decryption under the key schedule encryption walks undoes encryption |
| Magma.EncryptInjective | magma.c:70-85 | no two blocks encrypt to the same |
| Magma.MagmaEncrypt | magma.c:70-85 | the two pointer loops walk the schedule three times down and once up |
| Magma.MagmaDecrypt | magma.c:221-229 | the loop runs the 32 round keys backwards |
| Magma.Ccm.constructor | magma.c:99-105 | the state of the empty message |
| Magma.Ccm.Update | magma.c:107-139 | however a message is cut into calls, the state is that of the whole, its last block held back |
| Magma.Ccm.Fini | magma.c:140-158 | for every non-empty message the tag is the one-shot CMAC of NIST SP 800-38B, the subkey chosen on the total length |
| Magma.MagmaCmac | magma.c:160-167 | the MAC of two pieces is that of their concatenation |
| Magma.EmptyTagIff | magma.c:149-154 | of the empty message the tag is the standard's exactly when the key takes the zero block to 0xC000000000000009 |
| MagmaVectors.EmptyTagFails | magma.c:140-158 | under the key of the source's test it is not the standard's |
| MagmaVectors.SubkeysAreTheStandards | magma.c:140-150 | under that key the zero block and both subkeys are those of GOST R 34.13-2015, appendix A.2.6 |
| Calendar.Div5Exact | r3_stdlib_mktime.c:51-53 | the multiplication and shift divide by 5, on all 32-bit values |
| Calendar.Div10Exact | r3_stdlib_mktime.c:54-56 | division by 10 is exact on all 32-bit values |
| Calendar.Div100Exact | r3_stdlib_mktime.c:57-59 | division by 100 is exact on all 32-bit values |
| Calendar.Div400Exact | r3_stdlib_mktime.c:60-62 | division by 400 is exact on all 32-bit values |
| Calendar.Div365Exact | r3_stdlib_mktime.c:63-65 | division by 365 is exact below 3150463189, past the 31 bits its comment promises |
| Calendar.Div365Fails | r3_stdlib_mktime.c:63-65 | and off by one at that value |
| Calendar.Div153Exact | r3_stdlib_mktime.c:66-68 | division by 153 is exact on all 32-bit values |
| Calendar.Div1461Exact | r3_stdlib_mktime.c:69-71 | division by 1461 is exact on all 32-bit values |
| Calendar.Div146097Exact | r3_stdlib_mktime.c:72-74 | division by 146097 is exact on all 32-bit values |
| Calendar.Rem7Exact | r3_stdlib_mktime.c:75-78 | the remainder of 7 is right below 3435973841 |
| Calendar.Rem7Fails | r3_stdlib_mktime.c:75-78 | and wrong at 3435973841 |
| Calendar.LeapYearTest | r3_stdlib_mktime.c:84-96 | the test on century or year is the Gregorian rule |
| Calendar.DmyIsValid | r3_stdlib_mktime.c:172-211 | every day since 1970 gets a date that exists, and the Gregorian count of the date is the day |
| Calendar.DmyFollowsTheCalendar | r3_stdlib_mktime.c:172-211 | day 0 is 1 January 1970 and each day leads to the next date |
| Calendar.Dmy32Iff | r3_stdlib_mktime.c:198-207 | the 32-bit computation gives the date of the true divisions up to day 1071269191 and for no other word |
| Calendar.GregorianNext | r3_stdlib_mktime.c:121-123 | the full Gregorian count goes up by one from each date to the next |
| Calendar.GregorianInjective | r3_stdlib_mktime.c:121-123 | no two dates have the same count |
| Calendar.DmyInvertsGregorian | r3_stdlib_mktime.c:119-211 | the two directions are inverse for every day count |
| Calendar.Gregorian32Exact | r3_stdlib_mktime.c:113-123 | the full Gregorian branch in 32 bits is the true count modulo 2^32, for every year that fits |
| Calendar.Gregorian32InvertsDmy | r3_stdlib_mktime.c:113-211 | so it gives back every word of days from its date, and from the date the code computes as far as that is right |
| Calendar.LulianIff | r3_stdlib_mktime.c:125 | the compiled-in count agrees with the Gregorian one exactly from March 1900 to February 2100 |
| Calendar.TimestampToHms | r3_stdlib_mktime.c:151-164 | day and time of day, each in its range, add up to the timestamp |
| Calendar.DaysToDmy | r3_stdlib_mktime.c:172-211 | the procedure stores that date, the true one exactly up to that day |
| Calendar.LocaltimeR | r3_stdlib_mktime.c:213-221 | a valid date, the right time of day and the right weekday of every 32-bit instant |
| Calendar.MkTime | r3_stdlib_mktime.c:113-136 | the timestamp and the weekday of the fields, modulo 2^32 |
| Calendar.RoundTripIff | r3_stdlib_mktime.c:113-221 | the conversions are inverse exactly from 1970 to the end of February 2100, in every time zone |
| Calendar.LocaltimeThenMkTime | r3_stdlib_mktime.c:113-221 | the same of the two procedures called one after the other, with the weekday |
| Asn.TagRoundTripIff | r3_asn.c:35-91 | for every tag and length r3_decode_tag gives back what r3_encode_tag was given exactly when the bits or'ed into the tag say the length |
| Asn.PlainRoundTripIff | r3_asn.c:60-64 | for a tag of the documented form that is when the length is not 254 or 255 |
| Asn.LengthMisses | r3_asn.c:76-88 | a length of 254 comes back as 0, two bytes of contents gone |
| Asn.LengthLayout | r3_asn.c:65-88 | the layout of clause 20.2.1.3.1 of ANSI/ASHRAE 135: the three bits, the marks 254 and 255, and the length most significant byte first (but 254 and 255 in one byte, where that clause has two) |
| Asn.OrIsBitwise | r3_asn.c:65-70 | the arithmetic form of or'ing the length into the low three bits of a tag |
| Asn.LengthRoundTrip | r3_asn.c:45-88 | all three forms of a length read back |
| Asn.EncodeLength | r3_asn.c:76-88 | the bytes of the length, and nothing outside them written |
| Asn.EncodeTag | r3_asn.c:65-91 | the bytes of the tag, and nothing outside them written |
| Asn.PrimitiveSkipIff | r3_asn.c:104-124 | the last branch ends behind a primitive element exactly unless it has 254 or 255 bytes of contents, or these begin with just the bytes that make up for it |
| Asn.PastContents | r3_asn.c:104-124 | that branch, on any bytes |
| Asn.Next | r3_asn.c:93-126 | on any bytes from which the recursive skip comes back, it ends where the function of the next rows says |
| Asn.SkipIff | r3_asn.c:93-126 | an element as the encoders write them, primitive, boolean or with context tags of any identifier around elements of any depth, is skipped rightly exactly when its contents pass the test of PrimitiveSkipIff or ContextSkipIff |
| Asn.SoundIsSkipped | r3_asn.c:93-126 | nested in tags without the class bit, to any depth, elements that pass are skipped rightly |
| Asn.ContextSkipIff | r3_asn.c:95-124 | an opening tag with the context bit is taken for six bytes of contents, so whatever bytes it holds the element is skipped rightly exactly when they are five (four, or six, for identifiers of 15 and above with, or without, their second byte) |
| Asn.ContextTagIff | r3_asn.c:333-338 | r3_decode_tag reads the opening tag of a context element back exactly when the identifier fits the nibble or the second byte is there, which the encoder leaves out |
| Asn.NestedContextFails | r3_asn.c:485-504 | a list in a list as the encoder writes it, whose skip ends one byte too far |
| Asn.SkipCanBeEndless | r3_asn.c:100-102 | a well-formed element on which the loop never ends |
| Asn.SkipCanBeLucky | r3_asn.c:93-126 | one that fails the test and is skipped rightly all the same |
| Crc.Crc16UpdateIsSerial | crc16.c:283-287 | the integer products divide bit by bit, for every register and byte |
| Crc.Crc16BUpdateIsSerial | crc16.c:311-315 | the reflected form with its integer products divides bit by bit |
| Crc.ModbusUpdateIsSerial | crc16.c:500-510 | the table of sixteen divides bit by bit |
| Crc.Crc32BUpdateIsSerial | crc16.c:400-411 | the table of sixteen 32-bit remainders divides bit by bit |
| Crc.Update8IsSerial | crc16.c:288-297 | folding in a byte at once divides bit by bit |
| Crc.Update16IsSerial | crc16.c:298-305 | folding in two bytes at once divides bit by bit |
| Crc.FoldedIsSerial | crc16.c:288-305 | over a whole message, cut into bytes and pairs in any way and the register never masked, they leave the bit-serial remainder and no bit above it |
| Crc.UnmaskedUpdateIff | crc16.c:288-305 | on a register not masked to 16 bits both do so exactly when bits 16 to 27 are clear |
| Crc.WideRegisterFails | crc16.c:288-305 | a register with bit 16 set is such an input, for every byte |
| Crc.Crc32FromBlock | crc16.c:421-438 | the loop is the complemented bit-serial remainder of the whole block |
| Crc.OwnChecksumLeavesZero | crc16.c:311-315 | a message followed by its own reflected checksum, low byte first, leaves 0, for every polynomial, start and message |
| Crc.OwnChecksum32LeavesZero | crc16.c:407-411 | a message followed by the four bytes of its own 32-bit checksum leaves 0 |
| Crc.FinalChecksumLeavesConstant | crc16.c:311-315 | followed by the complement of its checksum every message leaves 0xF0B8 |
| Crc.ShortBurstsAreDetected | crc16.c:505-510 | every change within two neighbouring bytes changes the checksum |
| Elf.Hash | elf.c:168-180 | the loop folds the name character by character, and the result fits 28 bits |
| Elf.HashIsNarrow | elf.c:168-180 | it fits 28 bits after every character, however long the name |
| Elf.MixBringsBack | elf.c:172-177 | each character is added to sixteen times the hash and what is pushed above bit 27 comes in again at bit 4, with or without the test |
| Elf.Table.constructor | elf.c:344-353 | the empty table |
| Elf.Table.Insert | elf.c:361-374 | buckets and chains stay those of the list of names, now one longer |
| Elf.Table.Lookup | elf.c:332-343 | the bucket walk terminates with what newest-first linear search finds |
| Elf.FindIff | elf.c:332-343 | that search finds the newest entry of the name |
| Elf.FoundIff | elf.c:337-347 | a name is found exactly when it was inserted other than as the first entry of the table |
| Elf.FindInBucket | elf.c:335-341 | looking only at the bucket of the name loses nothing |

## Left out

- Memory ordering: steps are sequentially consistent; the barriers of the code are no-ops in the model.
- Timeouts and wake-ups: a wait ends by taking a token the kernel hands out, or by giving up at any moment; the scheduler is not part of this model.
- The lock-free code is modelled as state machines over values, not as imperative loops, because other threads act between any two of its steps.
- MemoryPool.New: demands at least one block, because the source decrements the count before testing it; block addresses do not wrap around, and the allocation of the area itself is not modelled.
- Queue: the cells and data of osAsyncQueuePut are abstracted to nodes that are free, in a push or in the queue; the two stores to `head` in osAsyncQueueGet are one step, since nobody else reads `head`.
- Signal.DeliveredInReservationOrder: speaks of readers that call on a set ready bit, because without that it is false (Signal.EarlyGetCosts). `rdlock` is never read by the code and not initialised; it is not modelled.
- MessageQueue: a turn of the receiver's sorting loop is one step of the machine (the held list and the batch are private to it), with the loop itself in MessageQueue.Receiving; the pool is a set of free blocks, its own protocol being MemoryPool.
- Slice: one size class, a field of the state; a refill is one step, its loop being Slice.Carve; malloc always gives a block, which overlaps no other (its result is not tested in the source). clz of zero, for sizes 1 to 4, is 32, as the instruction answers.
- Tree: removal and the other walks of the tree are not modelled.
- Rotations: the concurrent insertion does not rotate, and rotations are not proved safe beside it.
- Rwlock.WaiterEntersAlone: the kernel's wait is modelled as one step that takes a token when the count is positive.
- Barrier.SoundIff: as many threads use the barrier as it was made for; sem_wait takes a token in one step, or blocks and is handed one.
- Malloc.Heap: addresses and sizes do not wrap around and the heap has no upper end, which the source does not test either; aligned_alloc is one atomic step and the collector runs between calls.
- RfsVectors.Space: block numbers do not wrap around; a freed extent is not handed out again while it is still linked.
- Lzjb2.Decompress: claims nothing for streams that are no layout of valid tokens, which the source does not detect.
- Aes: KeyExpansion is not needed, as the theorem holds for every array of round keys; the variants for SIMD instructions are not modelled.
- Magma: magma_ctr, which reads an uninitialised word.
- Calendar.MkTime: the month is an index of the table and the year no earlier than that of the count, as the source demands.
- Asn: the schema-driven encoders and decoders and the typed values.
- Asn.SoundIsSkipped: one way, because the other is false (Asn.SkipCanBeLucky); Asn.SkipIff has both, for every element that the encoders write.
- Asn.Next: bytes from which the skip does not come back, or in which it leaves the buffer, are those where Asn.Skip is Endless or Overrun.
- Crc: the generators of the tables, CRC-32C and the non-reflected CRC-32, Adler-32.
- Elf.Table.Insert: the array has room, which the source does not test; relocation and section handling are not modelled.
- kuznyechik.c, md5.c, lz4.c, the POSIX device, file and stdio layers, the scheduler and the drivers.
