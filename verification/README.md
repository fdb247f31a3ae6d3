# Verified model of the AOO streaming core

AOO ("audio over OSC") streams audio over lossy UDP from a `Source` to any number of `Sink`s.
This project models the parts of it whose correctness is hardest to see from the code and proves
their properties for all inputs, all runs and, where threads are involved, all interleavings.
`dafny verify dfyconfig.toml` checks everything.

* **Lock-free structures.** `Semaphore`, `FreeList`, `FrameBins`, `MpscQueue` and `RcuList` are transition
  systems: one event is one access to shared memory, a trace is any interleaving of any number of
  threads, and the theorems hold of every trace. `RcuEffects` says what the operations of `RcuList`
  do to the list.
* **Memory pool.** `MemoryPool` has the 128 size classes, splitting and the pool object;
  `PoolSafety` carries a ledger of regions through every run of calls.
* **Receive path.** `JitterBuffer` (the ring and both searches), `Receive` (packets, gap filling,
  overrun, ownership of frames), `Playout` (the playout state machine and whole runs of a sink),
  `DecodeCalls` (what each call of try_decode_block does, said about the blocks), `PlayoutRuns` (two runs that reach states one might take for impossible),
  `SourceDesc` (the same operations on the mutable object, each proved equal to its function),
  `FrameStorage` (slots, or a sorted linked list with a bitset).
* **Send path.** `Fragments` (cutting blocks into frames, history), `Resend` (requests by offset and
  bitset, replies), `EndToEnd` (a block on its way from the history of the source to the decoder of
  the sink, through any run of the sink), `BigEndian`, `LowLatency`, `DataMessage` and
  `SendPacket` (the wire format and patching an encoded packet in place), `Emission` (the packets
  that the source builds, read by the sink), `Layout` (where every field is, byte by byte), `StreamTime` (sample accounting between the audio and
  the send thread).
* **Resampler.** `Resampler` proves that the ring with mirrored guard frames refines an unbounded
  stream, over `real`; `Interpolation` that the formulas reproduce polynomials.
* **MD5.** `Md5`, `Md5Tables` and `Md5Compression` prove the streaming implementation, its table of
  operations and its compression against RFC 1321.

Code that changes state in place is modelled by classes and methods, and each method is proved to
act as a function on the abstract state; the theorems are about those functions. Where the code
relies on something it does not check, the model says so in a precondition:

* Sequence numbers are in [0, INT32_MAX). A packet's frame index is below its frame count
  (`Receive.Conforms`) and below that of whatever is held of its block when it arrives
  (`Receive.Fits`), which `data_frame_storage::add_frame` only asserts. Packets of the source are
  like that (`Emission.EmittedIsFrame`, `Emission.EmittedAgree`); `DataMessage.AcceptedIsNumbered` and
  `DataMessage.NumbersAreUnchecked` say when the parser sees to the first.
* `jitter_buffer::find` mixes `capacity()` of the vector with its `size()`
  (`aoo/src/packet_buffer.cpp:237`, `:266`); the model takes them to be equal.
* Fewer than 2^16 changes of a free list's head happen between a load and its compare-and-swap
  (`FreeList.TagStillFresh`); `FreeList.TagWrapBreaks` shows what goes wrong otherwise.
* Only one thread takes frames from a bin of the frame allocator, the one that receives packets
  (`FrameBins.Trace`); `FrameBins.TwoAllocatorsShareFrame` shows what goes wrong otherwise.
* The pool is no larger than what a tagged index can address (`PoolSafety.Trace`). `max_pool_size`
  (`aoo/src/rt_memory_pool.hpp:271`) allows 64 times as much.
* `process_samples_` is a plain integer, so xruns are reported on the audio thread (`StreamTime`).

Where the code does something other than its names, comments or documentation suggest, the model
follows the code and a theorem says exactly when:

* `free_list::empty()` is inverted, so a set bit in the pool's bitset stands for an empty list and
  the bitset search never finds a block (`PoolSafety.BitsetFindsNothing`), not even when there is
  one (`PoolSafety.BitsetMissesBlock`).
* The branch of `add_packet` marked "can this ever happen!?" does happen, in exactly one situation
  (`Receive.OutdatedOnlyBeforeFirst`, `PlayoutRuns.OutdatedHappens`).
* `history_buffer::find` relies on rising sequence numbers. It finds every block that is held if and
  only if the numbers do not wrap around inside the history (`Fragments.FoundUnlessWrapped`); just
  after a wrap it misses blocks on both sides of it (`Fragments.WrappedHistoryMisses`).
* The sent stream time can run ahead of the processed time: `add_xrun` raises `xrunblocks_` before it
  counts the samples, and the send thread may come in between (`StreamTime.ReportRacesSend`). It
  does so only there, and by no more than what is still to be counted (`StreamTime.StreamNeverAhead`,
  `StreamTime.LeadIsAtMostOwed`).
* A wired stream decodes with no more complete blocks than its target as long as it is active; one
  that an underrun has made inactive is not trimmed and may decode with more
  (`Playout.WiredNeverLags`, `PlayoutRuns.InactiveMayLag`).
* `sent_block` does not keep the time tag, so a resent packet has its flag set and the tag zero
  (`Emission.TimeTagIsReadUnlessResent`, `Emission.ResentTagIsLost`).
* `setup()` computes a ring of two frames for blocks of one frame. A write needs room for its
  frames, the latency and one more (last postconditions of `Resampler.Resampler.Write`), so with linear
  or cubic interpolation such a ring never takes a frame.

## Model

| member | source | states |
|---|---|---|
| Semaphore.AlwaysConserved | common/sync.cpp:349-399 | In every interleaving of post/set, wait and wait_for, timeouts included: posts equal completed waits plus native tokens, owed native posts, the positive part of the count and (for an event) absorbed sets; waiters minus issued wake-ups equal the negative part of the count |
| Semaphore.StepKeeps | common/sync.cpp:481-534 | Every atomic step keeps conservation, balance and the event's bound |
| Semaphore.NeverOverAcquired | common/sync.cpp:481-502 | No run completes more waits than posts; the count of an event never exceeds one |
| Semaphore.NoLostWakeup | common/sync.cpp:376-399 | If every thread is idle or parked and one is parked with no token to wake it, then every post has been consumed and the count announces exactly the parked threads |
| FreeList.AlwaysWellFormed | aoo/src/rt_memory_pool.hpp:183-238 | In every interleaving of pushes, pops and writes by owners, the free blocks form an acyclic chain from the head to the sentinel, disjoint from what is handed out |
| FreeList.PopGivesUnownedBlock | aoo/src/rt_memory_pool.hpp:199-213 | A successful pop hands out a block of the pool that nobody owned |
| FreeList.PopNextAlwaysPossible | aoo/src/rt_memory_pool.hpp:199-213 | Reading `next` through a stale head never leaves the pool |
| FreeList.CasIsExact | aoo/src/rt_memory_pool.hpp:26-63 | Within one turn of the 16-bit tag a compare-and-swap succeeds if and only if the head has not changed since it was loaded |
| FreeList.TagWrapBreaks | aoo/src/rt_memory_pool.hpp:26-63 | A run from the initial state in which the head changes exactly 2^16 times between the load and the compare-and-swap of a pop: it succeeds and puts a block that is still owned at the head of the free list |
| FreeList.TraceIsExec | aoo/src/rt_memory_pool.hpp:183-238 | The traces of the other results are executions of the same steps with the freshness assumption added |
| FreeList.PushKeeps | aoo/src/rt_memory_pool.hpp:185-197 | The compare-and-swap of a push keeps chain and ownership, with the block in front |
| FreeList.PopKeeps | aoo/src/rt_memory_pool.hpp:199-213 | The compare-and-swap of a pop keeps chain and ownership and takes the first block, although the `next` it read may be garbage |
| FrameBins.AlwaysWellFormed | aoo/src/data_frame.cpp:24-96 | With one allocating thread and any number of deallocating ones, in every interleaving the free frames of a bin form an acyclic chain from the head, disjoint from what is handed out, although the head has no tag |
| FrameBins.FramesHaveOneOwner | aoo/src/data_frame.cpp:24-45 | In every such interleaving a frame gets a new owner only if it had none, or from its owner |
| FrameBins.AllocNextAlwaysPossible | aoo/src/data_frame.cpp:24-37 | Reading `next` of what was the head never touches released memory |
| FrameBins.BinIsMultiset | aoo/src/data_frame.cpp:24-137 | In every such interleaving the bin acts as a multiset with atomic operations: allocate takes a frame out of it or one that is new, deallocate puts one in, release_memory empties it |
| FrameBins.StepKeeps | aoo/src/data_frame.cpp:9-137 | Every access of allocate, reserve, deallocate and release_memory, and every write by an owner, keeps the chain, the ownership and what the allocating thread has seen |
| FrameBins.TwoAllocatorsShareFrame | aoo/src/data_frame.cpp:24-37 | A run with two allocating threads in which the head comes back between load and compare-and-swap: a frame that one thread owns is handed to the other |
| MpscQueue.AlwaysInv | common/lockfree.hpp:217-381 | In every interleaving of producers and the consumer the chain is intact and every access hits an allocated node |
| MpscQueue.PoppedIsPrefixOfPushed | common/lockfree.hpp:300-380 | The popped values are a prefix of the values in push order, and all of them once the queue looks empty |
| MpscQueue.RecycledNodeIsSpent | common/lockfree.hpp:358-373 | A node that a producer holds is not on the way from the divider to `last`, the consumer is not at it and no other producer holds it |
| MpscQueue.TakenNodeIsBehind | common/lockfree.hpp:358-365 | When a producer recycles a node, the consumer has moved past it: the divider is reached from it and it is not reached from the divider |
| MpscQueue.StepKeeps | common/lockfree.hpp:217-381 | Every access keeps the chain, the lock discipline and first-in-first-out order |
| MpscQueue.PushPublishesItem | common/lockfree.hpp:287-291 | In every interleaving a push publishes the value that it was given, behind all others |
| MpscQueue.PopTakesOldest | common/lockfree.hpp:301-316 | In every interleaving try_pop takes the oldest value that is published and not consumed when it looks, if there is one, and otherwise nothing |
| MpscQueue.SpentNodeIsReused | common/lockfree.hpp:358-373 | A push gets a new node if and only if no spent one was there when it checked, and otherwise the oldest spent one |
| RcuList.AlwaysInv | common/lockfree.hpp:464-656 | In every interleaving of locked readers, pushers, one remover and one reclaimer the live list, the free list and all private chains are disjoint and accounted for |
| RcuList.CursorNeverDangles | common/lockfree.hpp:559-609 | A cursor held between lock() and unlock() points to a node that has not been destroyed |
| RcuList.EveryAccessIsSafe | common/lockfree.hpp:464-656 | No access of any thread or of the reclaimer touches a destroyed node |
| RcuList.NoNodeIsLost | common/lockfree.hpp:576-646 | Outside of operations every allocated node is reachable from the live list or from the free list, so reclaim loses nothing when it puts its list back |
| RcuList.ThreadStepKeeps | common/lockfree.hpp:464-565 | Every step of lock, unlock, iteration, emplace_front, erase, clear and disposal keeps the invariant |
| RcuList.ReStepKeeps | common/lockfree.hpp:576-655 | Every step of reclaim keeps the invariant, putting the list back included |
| RcuEffects.ListChanges | common/lockfree.hpp:465-557 | In every interleaving one access changes the chain from the head by at most one operation: a push that returns puts its node in front, the unlinking of an erase takes out its node alone, clear takes all; the returned cursor is the next of the unlinked node |
| RcuEffects.EraseUnlinks | common/lockfree.hpp:495-526 | In every interleaving an erase of a node that is reachable from the head when it is called unlinks it at one access and returns what its next was then; when it returns the node is not reachable |
| RcuEffects.EraseInVain | common/lockfree.hpp:508-526 | An erase of a node that has left the list before returns the end of the list |
| RcuEffects.ClearUnlinks | common/lockfree.hpp:550-557 | clear() empties the list in one access, and no node of it is reachable afterwards until it is destroyed |
| RcuEffects.GoneForGood | common/lockfree.hpp:495-646 | A node that has left the list is never reachable from the head again until it is destroyed |
| RcuEffects.WalkFollowsList | common/lockfree.hpp:418-427 | While the list stays the same, begin and increments visit its nodes from the head to the end, whatever other threads do |
| RcuEffects.ReclaimDestroys | common/lockfree.hpp:576-613 | If nobody locks the list during a call of reclaim, every node that was on the free list is destroyed |
| MemoryPool.ClassCovers | aoo/src/rt_memory_pool.hpp:406-441 | Every size up to 65535 has a class below 128 whose blocks are at least as large |
| MemoryPool.LowerClassFits | aoo/src/rt_memory_pool.hpp:507-516 | A large remainder is never smaller than a block of the next lower class: the assertion in split_block holds |
| MemoryPool.SmallExact | aoo/src/rt_memory_pool.hpp:517-522 | A small aligned remainder is exactly the size of its class: the other assertion in split_block holds |
| MemoryPool.PiecesTile | aoo/src/rt_memory_pool.hpp:502-524 | The pieces that split_block cuts tile the remainder exactly |
| MemoryPool.ClassOrder | aoo/src/rt_memory_pool.hpp:276-286 | The table of class sizes rises strictly |
| MemoryPool.AllocateIs | aoo/src/rt_memory_pool.hpp:311-340 | A request gets the first block of its own class, else the first block of the highest class that the search finds, else fresh memory of the pool, and the system only if all that fails; an empty request nothing, a too large one always the system |
| MemoryPool.ReturnedIsNext | aoo/src/rt_memory_pool.hpp:311-363 | A block that is returned is what the next request of its class gets, and then the pool is as before |
| MemoryPool.RtMemoryPool.constructor | aoo/src/rt_memory_pool.hpp:273-287 | The loop fills in the class sizes; the pool is empty |
| MemoryPool.RtMemoryPool.Split | aoo/src/rt_memory_pool.hpp:502-524 | The loop terminates, its assertions hold, and it pushes exactly the pieces |
| MemoryPool.RtMemoryPool.FindMatching | aoo/src/rt_memory_pool.hpp:454-500 | With and without the bitset the search takes the block that the specification of the search says, splits it if it is large, and otherwise changes nothing |
| MemoryPool.RtMemoryPool.Alloc | aoo/src/rt_memory_pool.hpp:311-340 | allocate(): own class, then a higher class, then the bump allocator, then the heap |
| MemoryPool.RtMemoryPool.Dealloc | aoo/src/rt_memory_pool.hpp:342-363 | deallocate(): a block of the pool goes to the list of its class, anything else leaves the pool alone |
| PoolSafety.LiveBlocksAreDisjoint | aoo/src/rt_memory_pool.hpp:311-362 | Over any sequence of calls with matching sizes, every live block covers its request, lies inside the bump area, has an index other than the sentinel and overlaps no other live or free block |
| PoolSafety.FreeBlocksAreDisjoint | aoo/src/rt_memory_pool.hpp:454-531 | Over any sequence of calls, free blocks lie inside the bump area, have an index other than the sentinel and do not overlap |
| PoolSafety.AlwaysGood | aoo/src/rt_memory_pool.hpp:406-531 | Every reachable state has a ledger of disjoint regions that cover exactly the bytes below the bump index, and every region is in one free list or with the client |
| PoolSafety.AllocateKeeps | aoo/src/rt_memory_pool.hpp:311-340 | allocate() keeps the ledger and hands out a block that nobody holds |
| PoolSafety.DeallocateKeeps | aoo/src/rt_memory_pool.hpp:342-363 | deallocate() keeps the ledger |
| PoolSafety.SplitKeeps | aoo/src/rt_memory_pool.hpp:502-524 | Splitting turns one region into disjoint regions in the right lists and touches nothing else |
| PoolSafety.BitsetFindsNothing | aoo/src/rt_memory_pool.hpp:456-486 | With the bitset enabled, the search for a larger block comes up empty in every reachable state |
| PoolSafety.BitsetMissesBlock | aoo/src/rt_memory_pool.hpp:456-486 | A run in which a block of a higher class has been returned, the bitset search comes up empty where the linear one finds it, and the next request takes fresh memory |
| PoolSafety.LinearFindsIffAvailable | aoo/src/rt_memory_pool.hpp:487-498 | The linear search finds a block if and only if a higher class has one |
| JitterBuffer.ScanOrdered | aoo/src/packet_buffer.cpp:216-271 | In an ordered buffer exactly the sequence numbers from the oldest block to the last pushed one are found, each at its place |
| JitterBuffer.PushKeepsOrder | aoo/src/packet_buffer.cpp:273-287 | push() keeps the held numbers consecutive and ending at last_pushed |
| JitterBuffer.PopKeepsOrder | aoo/src/packet_buffer.cpp:289-297 | pop() keeps the order; popped numbers rise by one |
| JitterBuffer.AdvanceKeepsOrder | aoo/src/packet_buffer.hpp:240-258 | advance_missing() keeps the order, across the wrap of the sequence too |
| JitterBuffer.Ring.Find | aoo/src/packet_buffer.cpp:216-271 | For every fill level, wrap position and key, linear and binary mode return what a plain scan of the held blocks finds |
| JitterBuffer.Ring.PushBlock | aoo/src/packet_buffer.cpp:273-287 | The ring step of push appends to the queue |
| JitterBuffer.Ring.PopBlock | aoo/src/packet_buffer.cpp:289-297 | The ring step of pop removes the oldest block |
| JitterBuffer.Ring.ResetAll | aoo/src/packet_buffer.cpp:199-207 | reset() clears every slot and empties the queue |
| JitterBuffer.Ring.LowerBound | aoo/src/packet_buffer.cpp:246-258 | The bisection splits a rising range at the key |
| Receive.AddPacketKeepsOrder | aoo/src/sink.cpp:2661-2807 | For every packet add_packet keeps the buffer ordered; push is never called on a full buffer and its assertion always holds |
| Receive.OutdatedOnlyBeforeFirst | aoo/src/sink.cpp:2696-2708 | An unknown block is not newer than the newest one if and only if nothing has been popped since the last reset and the packet precedes everything held |
| Receive.AcceptedIs | aoo/src/sink.cpp:2661-2795 | Exactly which packets add_packet takes, in terms of stream, position, sequence numbers and what is held of the block |
| Receive.NewIsAppended | aoo/src/sink.cpp:2709-2768 | A packet newer than everything pushed: if it fits, placeholders and its block go behind what is held and nothing else changes; otherwise the buffer holds its block alone and buffering starts anew |
| Receive.HeldGetsFrame | aoo/src/sink.cpp:2769-2801 | A packet of a held block changes this block alone, by its frame, unless the block is empty or has the frame |
| Receive.WrappedStartsAnew | aoo/src/sink.cpp:2681-2694 | A sequence number far below the last popped one empties the buffer and starts it with the packet's block |
| Receive.OldIsRefused | aoo/src/sink.cpp:2661-2694 | Packets of other streams, stale ones and old ones change nothing and give their frame back |
| Receive.EarlyIsRefused | aoo/src/sink.cpp:2696-2708 | A packet from before everything held changes nothing and gives its frame back |
| Receive.QueuedIffCurrent | aoo/src/sink.cpp:2084-2144 | handle_data queues exactly the packets of the current stream that are not stale, behind the others, with a frame if there is payload |
| Receive.AddPacketLinear | aoo/src/sink.cpp:2661-2807 | On every accept and every reject path the packet's frame ends up in exactly one place |
| Receive.HandleDataLinear | aoo/src/sink.cpp:2118-2144 | Allocating and queueing a frame keeps every frame in exactly one of bins, queue and buffer |
| Receive.NothingLeaks | aoo/src/data_frame.cpp:99-137 | After a reset and a flush, release_memory returns every frame ever allocated |
| Receive.CompleteMeansAllFrames | aoo/src/packet_buffer.hpp:102-136 | A block is complete if and only if it holds every frame index |
| Receive.AddFrameOk | aoo/src/packet_buffer.hpp:118-125 | A new frame never arrives at a complete block: the assertion in add_frame holds |
| Receive.AddPacketBlocksOk | aoo/src/sink.cpp:2753-2801 | The count of received frames always equals the number of frames held |
| Playout.ActiveOnlyWithFullDepth | aoo/src/sink.cpp:2878-3050 | In every run, a call that turns a low-latency stream from buffering to active starts with at least the target number of leading complete blocks, with exactly that number in the wired profile, and plays the first of them |
| Playout.WiredNeverLags | aoo/src/sink.cpp:3052-3091 | In every run, a call of a wired stream decodes with no more leading complete blocks than the target if and only if the stream is active or had no more to begin with |
| PlayoutRuns.InactiveMayLag | aoo/src/sink.cpp:3052-3091 | A run of a wired stream from its first packet on: a failed write to the resampler makes it inactive, the next call skips a gap, and the one after that decodes with a longer prefix than the target |
| PlayoutRuns.OutdatedHappens | aoo/src/sink.cpp:2696-2708 | A run in which the branch for a block that is unknown and not newer than the newest one is taken: the stream starts at block 5 and a packet of block 3 arrives |
| Playout.MissingStaysBounded | aoo/src/sink.cpp:3093-3136 | Between calls the counter of missing blocks is at most three |
| Playout.FourthMissRestarts | aoo/src/sink.cpp:3284-3333 | A call of an active stream that plays a block clears the counter; one that cannot adds one, and the fourth in a row leaves an empty buffer and state buffering |
| Playout.StaleLoopDropsAtMostOne | aoo/src/sink.cpp:2888-2922 | In every run, the stale-front loop of a call drops at most one block, an incomplete one with enough complete blocks behind it |
| Playout.PositionNeverDecreases | aoo/src/sink.cpp:3284-3306 | No call moves the playout position back; it ends up at or past the end of every block played or trimmed |
| Playout.ResidentBlocks | aoo/src/sink.cpp:56-70 | The number of resident blocks is the smallest that covers the target, plus one |
| Playout.TryDecodeCore | aoo/src/sink.cpp:2812-3336 | try_decode_block keeps order, ownership of frames and frame counts |
| Playout.StepKeeps | aoo/src/sink.cpp:1880-1927 | Every event of a sink (arrival, sorting, decoding, underrun, update, start) keeps the invariant |
| Playout.AlwaysInv | aoo/src/sink.cpp:2631-3336 | Over every run the buffer holds consecutive numbers ending at last_pushed, every frame is in exactly one place, and at most three misses are counted |
| Playout.ReleaseFindsNoLeak | aoo/src/sink.cpp:1641-1652 | Whenever update or handle_start releases the frame memory, no frame is left over |
| Playout.StartTakesFromSequence | aoo/src/sink.cpp:1895-1935 | After the start of a stream nothing is held, and a packet is taken if and only if it is not from before the first announced block |
| Playout.EventIs | aoo/src/sink.cpp:1624-1690 | In every run packets are sorted in in the order of arrival; recovering, switching on and off and updating change what they should and nothing else |
| DecodeCalls.EveryCall | aoo/src/sink.cpp:2812-3336 | Every call of try_decode_block in every run: which blocks are dropped, which one is played, what is left, the counter, the position and the state, for every state and choice of the surroundings |
| DecodeCalls.CompleteBlockIsPlayed | aoo/src/sink.cpp:3052-3220 | In every run an active, writable call with a complete block in front plays that block, or in the wired profile the first one that is not too many, and leaves what is behind it, in ordinary and low-latency streams |
| DecodeCalls.IncompleteBlockIsSkipped | aoo/src/sink.cpp:3093-3166 | With an incomplete block in front such a call plays nothing and succeeds; the block goes, and with the fourth miss of a low-latency stream everything |
| DecodeCalls.OrdinaryBuffering | aoo/src/sink.cpp:2878-3050 | A stream that is not low-latency ends buffering if and only if it is neither stopped nor early and holds as many blocks as the latency asks for |
| DecodeCalls.LowLatencyBuffering | aoo/src/sink.cpp:2878-3050 | A low-latency stream ends buffering if and only if it is neither stopped nor early and what is left after dropping begins with as many complete blocks as the latency asks for |
| DecodeCalls.StaleIs | aoo/src/sink.cpp:2886-2919 | The stale-front loop drops the front block if and only if it is incomplete and enough complete ones wait behind it |
| Playout.PositionMonotone | aoo/src/sink.cpp:3069-3086 | Within a stream the playout position never decreases |
| Playout.NothingOldIsAccepted | aoo/src/sink.cpp:2674-2680 | After a complete block was played or trimmed, no packet that ends at or before its end is accepted for the rest of the stream |
| SourceDesc.SourceDesc.Add | aoo/src/sink.cpp:2661-2807 | add_packet on the mutable object equals the specified function |
| SourceDesc.SourceDesc.Decode | aoo/src/sink.cpp:2812-3336 | try_decode_block on the mutable object equals the specified function |
| SourceDesc.SourceDesc.PushHoles | aoo/src/sink.cpp:2759-2762 | The loop fills the gap with placeholders |
| SourceDesc.SourceDesc.CountComplete | aoo/src/sink.cpp:2924-2932 | The iteration around the ring counts the leading complete blocks |
| SourceDesc.SourceDesc.DropStaleFront | aoo/src/sink.cpp:2888-2922 | The stale-front loop equals its specification |
| SourceDesc.SourceDesc.TrimFront | aoo/src/sink.cpp:2933-2959 | The trim loop raises the position past every block it drops |
| SourceDesc.SourceDesc.ResetBuffer | aoo/src/packet_buffer.cpp:199-207 | Clearing all slots hands back exactly the frames of the queue, each once |
| SourceDesc.SourceDesc.HandlePacket | aoo/src/sink.cpp:2118-2144 | handle_data queues a current packet with its frame |
| SourceDesc.SourceDesc.ResizeBuffer | aoo/src/sink.cpp:1641-1652 | update() on the mutable object equals the specified function, releasing memory exactly if the size changes |
| SourceDesc.SourceDesc.StartNew | aoo/src/sink.cpp:1882-1927 | handle_start() on the mutable object equals the specified function |
| SourceDesc.SourceDesc.Flush | aoo/src/sink.cpp:3508-3515 | flush_packet_queue hands every queued frame back |
| SourceDesc.SlotFrames | aoo/src/packet_buffer.cpp:199-207 | The slots of the ring hold the frames of the queue and no others |
| Fragments.ChunksConcat | aoo/src/source.cpp:2264-2275 | The frames of a block concatenate to the block |
| Fragments.ChunkCount | aoo/src/source.cpp:2211-2215 | The number of frames is the quotient rounded up |
| Fragments.ChunkAt | aoo/src/packet_buffer.cpp:34-47 | Every frame but the last is full and starts at its index times the frame size |
| Fragments.SendFrames | aoo/src/source.cpp:2255-2275 | The send loop emits exactly the frames of the block in order, or one empty frame for an empty block |
| Fragments.GetFrame | aoo/src/packet_buffer.cpp:34-47 | get_frame cuts the same frame out of a saved block as was sent, or nothing if the buffer is too small |
| Fragments.KeepIsRecent | aoo/src/packet_buffer.cpp:121-132 | The history holds the most recent blocks: one is held until as many newer ones as its capacity have been pushed |
| Fragments.KeepIncreasing | aoo/src/packet_buffer.cpp:64-119 | The held numbers stay rising if and only if the new number exceeds all that stay |
| Fragments.KeepSuccessive | aoo/src/source.cpp:2200-2206 | Pushing the successor of the newest number, modulo INT32_MAX, keeps the held numbers successive |
| Fragments.FoundUnlessWrapped | aoo/src/packet_buffer.cpp:64-119 | With successive numbers every held block is found if and only if the numbers do not wrap around inside the history |
| Fragments.WrappedHistoryMisses | aoo/src/packet_buffer.cpp:64-119 | A history that has just wrapped around: three of its four blocks are not found, one of them above the oldest number |
| Fragments.IncreasingIsFound | aoo/src/packet_buffer.cpp:84-112 | While the held numbers rise, each held block is found at its slot, for every fill level and wrap position of the ring |
| Fragments.History.Push | aoo/src/packet_buffer.cpp:121-132 | push() appends, dropping the oldest block when full |
| Fragments.History.Find | aoo/src/packet_buffer.cpp:64-119 | find() on the ring equals the specified lookup, only returns a held block with the right number, and the one that is held while the numbers rise |
| Resend.RequestsAskExactly | aoo/src/sink.cpp:3375-3406 | The requests for an incomplete block decode to exactly its missing frames, or to all frames if none has arrived |
| Resend.PartialAsksExactly | aoo/src/sink.cpp:3378-3398 | Offsets and 16-bit sets together ask for exactly the missing frames |
| Resend.FillBitset | aoo/src/sink.cpp:3381-3395 | The inner loop sets exactly the bits of the missing frames of its window |
| Resend.RequestMissing | aoo/src/sink.cpp:3375-3406 | The loops produce the specified requests |
| Resend.RequestsWantMissing | aoo/src/sink.cpp:3375-3406 | Bit by bit, the requests for a block ask for a frame if and only if it is missing |
| Resend.RequestedOnce | aoo/src/sink.cpp:3375-3406 | No frame is asked for by two requests |
| Resend.ReplyAnswers | aoo/src/source.cpp:2361-2400 | The answer has frame k exactly once if the offset is negative or bit k - offset is set, and not otherwise, in order, each with its piece of the block; one empty frame for an empty block |
| Resend.FrameFits | aoo/src/source.cpp:2338-2365 | Requested frames always fit into the send buffer, so none is dropped |
| Resend.ResendBlock | aoo/src/source.cpp:2308-2411 | Copying frames into one buffer and sending slices of it sends exactly the frames whose bits are set, once and in order, each with its piece of the saved block |
| Resend.ServeRequest | aoo/src/source.cpp:2303-2400 | A request is answered by exactly the frames whose bits are set, cut out of the block that it names, while the history holds the block and has not wrapped around |
| Resend.AddPacketToBlock | aoo/src/sink.cpp:2769-2801 | A packet for a block in the buffer changes that block and nothing else in the buffer |
| Resend.FirstPacketFaithful | aoo/src/sink.cpp:2764-2768 | The first packet of a block starts it with its own frame |
| EndToEnd.ResentBlockIsRecovered | aoo/src/source.cpp:2281-2411 | Over any run of the sink from its start in which an incomplete block stays in the buffer: once the replies to its requests, as the source looks the block up in its history, have been sorted in, the block is complete and its frames in the recycled frame memory are the bytes that were sent |
| EndToEnd.QueueAlwaysFaithful | aoo/src/sink.cpp:2135-2144 | In every run, through restarts and changes of the stream too, every queued packet of the block carries the frame that it says |
| EndToEnd.BlockAlwaysFaithful | aoo/src/sink.cpp:2759-2801 | In every run, while the stream of the block is current, what the buffer holds of the block are frames that were sent, each at its index |
| EndToEnd.StepBlock | aoo/src/sink.cpp:2661-2807 | Whatever happens, a block that stays in the buffer changes only by its own packets |
| EndToEnd.BlockUntouched | aoo/src/sink.cpp:2135-2144 | The frame a packet is copied into is never one that a block still holds |
| EndToEnd.Follow | aoo/src/sink.cpp:2769-2801 | Along any run a block that stays in the buffer never loses a frame and has every frame whose packet is sorted in |
| EndToEnd.BlockIsBorn | aoo/src/sink.cpp:2759-2768 | A block comes into the buffer only by sorting a packet in, as a placeholder or with one of its frames |
| EndToEnd.DecodeSuffix | aoo/src/sink.cpp:2812-3336 | try_decode_block drops blocks from the front only, or all |
| EndToEnd.StoreFrame | aoo/src/packet_buffer.hpp:118-125 | Adding a frame to the storage of a block is adding it to the block |
| EndToEnd.CopySent | aoo/src/data_frame.cpp:252-271 | copy_frames on the slots or the linked list of a complete block yields the bytes that were sent |
| Resend.CompleteYieldsData | aoo/src/data_frame.cpp:252-271 | A complete block holding frames of a sent block yields that block's bytes |
| FrameStorage.FrameStorage.AddFrame | aoo/src/data_frame.cpp:209-250 | Appending, prepending, inserting or filling a slot adds exactly one entry to the map from index to frame and keeps the list sorted with correct head, tail and bitset |
| FrameStorage.FrameStorage.HasFrame | aoo/src/data_frame.cpp:193-207 | has_frame agrees with membership for slots, bitset and list search |
| FrameStorage.FrameStorage.FindFrame | aoo/src/data_frame.cpp:273-283 | The list search that stops early finds the frame if and only if it is there |
| FrameStorage.FrameStorage.CopyFrames | aoo/src/data_frame.cpp:252-271 | A complete storage yields its frames in index order whatever the order of arrival; the assertion on the index holds |
| FrameStorage.FrameStorage.Clear | aoo/src/data_frame.cpp:173-191 | Every frame is handed back exactly once, although handing back overwrites its next pointer |
| FrameStorage.FrameStorage.Init | aoo/src/data_frame.cpp:161-171 | init() gives an empty storage of the given size |
| FrameStorage.InsertedSorted | aoo/src/data_frame.cpp:221-240 | Inserting between a smaller and a larger index keeps the list sorted |
| BigEndian.FromTo | common/utils.hpp:79-124 | Reading back a written integer returns it |
| BigEndian.ToFrom | common/utils.hpp:79-124 | Writing back a read integer returns the bytes |
| BigEndian.PutBytes | common/utils.hpp:102-118 | to_bytes on a little-endian machine writes big-endian bytes and nothing else |
| BigEndian.GetBytes | common/utils.hpp:79-100 | The value of a byte string, most significant byte first |
| BigEndian.DecodeEncode | common/utils.hpp:95-124 | Reading a sequence of fields back returns what was written, whatever follows |
| BigEndian.EncodeDecode | common/utils.hpp:95-124 | Writing the fields that were read returns the bytes |
| LowLatency.HeaderRoundTrip | aoo/src/low_latency.cpp:47-133 | A valid header survives encoding and decoding |
| LowLatency.HeaderRoundTripBack | aoo/src/low_latency.cpp:88-133 | Whatever decodes is valid and re-encodes to the same 52 bytes |
| LowLatency.Validate | aoo/src/low_latency.cpp:135-174 | The loop accepts a configuration if and only if every field is in range and the channel map is injective |
| LowLatency.ConfigurationRoundTrip | aoo/src/low_latency.cpp:176-243 | A valid configuration survives encoding and decoding |
| LowLatency.ConfigurationRoundTripBack | aoo/src/low_latency.cpp:207-243 | An accepted message is the encoding of a valid configuration |
| Layout.HeaderLayout | aoo/src/low_latency.cpp:47-86 | Every field of the low-latency header is at its byte offset, most significant byte first, behind the letters AOLL |
| Layout.ConfigurationLayout | aoo/src/low_latency.cpp:176-205 | Every field of the configuration is at its byte offset, behind the letters AOLS and before the channel map |
| Layout.MessageLayout | aoo/src/source.cpp:1719-1785 | For every combination of flags every field of a data message, low-latency header and payload are at their byte offsets |
| Layout.MessageHeaderLayout | aoo/src/binmsg.hpp:24-50 | The message header is four bytes with both IDs, or twelve with the IDs as words |
| DataMessage.DataRoundTrip | aoo/src/source.cpp:1724-1785 | Parsing what write_bin_data wrote returns the same packet for every combination of flags |
| DataMessage.AcceptedRoundTrips | aoo/src/sink.cpp:1339-1438 | An accepted message parses to a packet that, written again, is accepted as the same packet |
| DataMessage.AcceptedIsNumbered | aoo/src/sink.cpp:1355-1366 | Without the frames fields, or with the low-latency header, an accepted packet's frame index is below its frame count or the block is empty |
| DataMessage.NumbersAreUnchecked | aoo/src/sink.cpp:1355-1366 | With the frames fields alone any frame index and frame count are accepted |
| Emission.EmittedIsRead | aoo/src/source.cpp:1995-2400 | Every packet that send_data, send_xruns and resend_data build, with any flags, profile and frame, is one that the format can carry and is read by the sink as it was built |
| Emission.EmittedSays | aoo/src/source.cpp:2160-2400 | What the sink reads of such a packet is what the source knows: stream, channel, block, frame, message size, sample rate, and in a low-latency stream profile, position and time stamp |
| Emission.EmittedIsFrame | aoo/src/source.cpp:2160-2270 | What the sink queues of such a packet meets the expectations of the receive path and carries the frame of the sent block that it says |
| Emission.EmittedAgree | aoo/src/source.cpp:2218-2262 | Any two packets of one block, first-time or resent, have indices below each other's frame count |
| Emission.AgainIsProper | aoo/src/source.cpp:2308-2400 | A packet that resend_data builds from the history is as well-formed as the one it repeats |
| Emission.TimeTagIsReadUnlessResent | aoo/src/source.cpp:2308-2330 | The sink reads the time tag that a block was sent with if and only if the packet is not a resent one or there was no tag; the flag is set in any case |
| Emission.ResentTagIsLost | aoo/src/packet_buffer.cpp:12-33 | A packet with a time tag that is sent again: its flag is set and the sink reads zero |
| SendPacket.HeaderIsRead | aoo/src/binmsg.hpp:24-50 | The receiver finds type, command, both IDs and the arguments, for small and large IDs |
| SendPacket.PatchedIsFresh | aoo/src/source.cpp:1894-1916 | Patching stream ID, channel and low-latency stream ID gives the bytes of a fresh encoding |
| SendPacket.SendToAll | aoo/src/source.cpp:1881-1916 | For every sink in the list the patched buffer holds the bytes of a fresh per-sink message |
| SendPacket.WriteArguments | aoo/src/source.cpp:1724-1785 | write_bin_data writes exactly the specified bytes |
| SendPacket.SinkReadsPacket | aoo/src/sink.cpp:1339-1438 | Each sink reads its own ID, the source's ID and the packet with its own stream ID and channel |
| Resampler.TapIsStream | aoo/src/resampler.cpp:155-186 | Every tap, guard frames included, is the stream frame at its position |
| Resampler.CopiedIsAppended | aoo/src/resampler.cpp:155-175 | Copying around the end of the ring is appending to the stream |
| Resampler.GuardsKept | aoo/src/resampler.cpp:172-184 | The mirrored frames are right after every write |
| Resampler.Resampler.Write | aoo/src/resampler.cpp:155-186 | All frames are appended, or none, exactly when less than one frame of space would be left |
| Resampler.Resampler.Read | aoo/src/resampler.cpp:188-368 | Refused as a whole, or each output frame is the value, at its position, of every polynomial of the degree of the method (0, 1 for linear, 3 for cubic) that the frames around it lie on; never an overwritten or unwritten frame |
| Resampler.Resampler.ReadInterpolated | aoo/src/resampler.cpp:190-316 | Hold, linear and cubic: the loop with wrapping position and the closing correction agree |
| Resampler.Resampler.ReadSkip | aoo/src/resampler.cpp:317-341 | Integer ratios on whole positions |
| Resampler.Resampler.ReadReblocked | aoo/src/resampler.cpp:342-367 | One or two copies give the next frames of the stream |
| Resampler.Resampler.Reset | aoo/src/resampler.cpp:117-144 | The stream restarts with the silence of the latency |
| Resampler.AtReproduces | aoo/src/resampler.cpp:190-316 | Interpolating between frames that lie on a polynomial of the degree of the method gives the polynomial |
| Interpolation.TapsAreKept | aoo/src/resampler.cpp:205-275 | At the positions of the frames both formulas give the frames |
| Interpolation.LinearReproduces | aoo/src/resampler.cpp:255-275 | Linear interpolation reproduces every polynomial of degree at most one |
| Interpolation.CubicReproduces | aoo/src/resampler.cpp:205-230 | Cubic interpolation reproduces every polynomial of degree at most three |
| Resampler.ReadsArePrefixOfWrites | aoo/src/resampler.cpp:342-367 | When only the block size changes, the reads concatenate to a prefix of the accepted writes over every run of calls |
| Resampler.Reblocked | aoo/src/resampler.cpp:155-186 | Driving the ring with any sequence of writes and reads: what comes out is a prefix of what was taken in |
| Md5.Context.Update | deps/md5/md5.c:218-250 | Appends to the message: whole blocks compressed, the rest buffered, the byte count kept modulo 2^61 |
| Md5.Context.Final | deps/md5/md5.c:258-281 | The digest of the padded message |
| Md5.HashAll | deps/md5/md5.c:207-281 | For every split of a message into updates the digest is that of the whole message, padded as in sections 3.1 and 3.2 of RFC 1321 |
| Md5.CountsOn | deps/md5/md5.c:223-226 | The carry test keeps the 29-bit and 32-bit parts of the length right |
| Md5.CountIsLength | deps/md5/md5.c:277-279 | The two length words are the length in bits modulo 2^64 |
| Md5.FoldAppend | deps/md5/md5.c:100-205 | Compressing blocks in several calls is compressing them in one |
| Md5.WordsOfStandard | deps/md5/md5.c:207-216 | The initial words are the bytes that section 3.3 of RFC 1321 lists, and the digest is the four words in order, low-order byte first |
| Md5.PaddingIs | deps/md5/md5.c:258-281 | Padding is one byte 0x80, as few zeros as possible and the length in bits, low-order byte first, as in sections 3.1 and 3.2 of RFC 1321 |
| Md5Tables.SameTable | deps/md5/md5.c:119-189 | The 64 operations of the source are the rows of section 3.4 of RFC 1321: function, register, word, constant, rotation |
| Md5Compression.StepIsStandard | deps/md5/md5.c:52-65 | One STEP on the named registers is one row of the standard, with its optimized functions, its rotation and its order of additions |
| Md5Compression.CompressIsStandard | deps/md5/md5.c:45-205 | The compression of every block is that of section 3.4 of RFC 1321 |
| Md5Compression.DigestIsStandard | deps/md5/md5.c:100-281 | The digest of every message is that of the standard |
| Md5Compression.WordsAreRead | deps/md5/md5.c:78-98 | The words of a block are its bytes, low-order byte first |
| StreamTime.LeadIsAtMostOwed | aoo/src/source.cpp:1417-1425 | In every interleaving the stream time exceeds the processed time by at most the samples that a report has turned into xruns and not counted yet |
| StreamTime.StreamNeverAhead | aoo/src/source.cpp:1939-1971 | The stream time exceeds the processed time only while a report is between its two accesses; never between two calls of the audio thread, and never in a run without reports |
| StreamTime.ReportRacesSend | aoo/src/source.cpp:1417-1425 | A run in which the send thread comes between the two accesses: the stream time runs ahead if and only if the reported samples make a block of the stream |
| StreamTime.StepConserves | aoo/src/source.cpp:852-926 | Every access changes processed and accounted time alike, except that the samples of an overflow are counted a second time and a reset drops what is buffered |
| StreamTime.ExactUnlessOverflow | aoo/src/source.cpp:1417-1425 | Without overflow or reset, processed time and what a report still owes equal stream time plus everything buffered, queued or turned into xruns |
| StreamTime.SentAtMost | aoo/src/source.cpp:1939-1971 | Rounding xruns down never sends more than there is and carries over less than one stream block |

## Left out

- Sockets, DNS, address conversion and operating-system time: foreign calls.
- OSC messages and the audio codecs: their code is not part of this model; payloads are bytes, and whether the decoder succeeds does not matter to the buffer.
- Application interfaces, control switches, logging, examples and the server.
- Weak memory orderings: all atomic accesses are sequentially consistent steps.
- `try_wait` of semaphore and event (common/sync.cpp:363-374, 504-515): the loop has no exit when the count is not positive.
- `pop_front` of the lock-free list: it does not type-check as written.
- `clear` of the producer-consumer queue, which is not thread-safe, and the moves and destructors of both structures.
- Complete iteration of the lock-free list: a disposed node's `next` is overwritten, so a reader may leave the live list; only memory safety is claimed.
- Which of the bins of `data_frame_allocator` a size falls into, and its counters: `FrameBins` is one bin, and the sink takes all of them together as a multiset. `release_memory` is one step that nobody else interferes with.
- Resend counters, resend intervals and limits: `received_block::init` compares a sequence number with itself (aoo/src/packet_buffer.cpp:159-175).
- `check_missing_blocks` decides by clocks which incomplete blocks to ask for; the model has what it asks for.
- Low-latency statistics, stream events, stream messages and their dispatch lists.
- Floating-point rounding in the resampler and the xrun counters: `real` is used.
- Buffering methods other than the default one (blocks and samples).
- A restart of a sink's stream in the middle of a call, and 64-bit wrap-around of sample positions, which are unbounded here.
- Reachability of "active" when the dynamic retarget asks for more blocks than the buffer holds (aoo/src/sink.cpp:2814-2830).
- The operating system's heap behind the pool, leak counters, and concurrent use of the pool as a whole; its free lists have their own concurrent model.
- Setting a bit of a resend bitset is written as adding its weight, and shifting as division by two.
- Partial writes of a frame: the frame memory is a function from frame numbers to bytes, written as a whole when a packet arrives.
- std::lower_bound is taken to probe the middle of the range, as common libraries do; it matters only to `Fragments.WrappedHistoryMisses`.
