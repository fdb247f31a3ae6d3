/**
 The receive path of aoo/src/sink.cpp: packets are copied into frames and queued by the
 network thread (handle_data), then sorted into the jitter buffer by the audio thread
 (add_packet), with gap filling, overrun and wrap-around.

 Frames are named by numbers. `stock` is what the frame allocator has obtained from the
 system and not given back; `free` are the frames in its bins.
 */
module Receive {
  import opened Wrappers
  import opened Arithmetic
  import opened JitterBuffer

  datatype StreamState = Inactive | Buffering | Active

  /** A data packet; `frame` holds its payload, if there is any. */
  datatype Packet = Packet(
    streamId: int, sequence: int, numFrames: nat, frameIndex: nat, size: nat, frame: Option<nat>,
    position: nat, blockFrames: nat)

  /** The part of source_desc that the receive and playout paths work on. */
  datatype Sink = Sink(
    jitter: Jitter, queue: seq<Packet>, free: multiset<nat>, stock: set<nat>,
    streamId: int, lowLatency: bool, wired: bool, blockSize: nat, latencyBlocks: nat,
    lastPosition: nat, missing: nat, state: StreamState)

  // ---------------------------------------------------------------- frames

  function FramesUpTo(frames: map<nat, nat>, n: nat): multiset<nat> {
    if n == 0 then multiset{}
    else FramesUpTo(frames, n - 1) + (if n - 1 in frames then multiset{frames[n - 1]} else multiset{})
  }

  function BlockFrames(b: Block): multiset<nat> { FramesUpTo(b.frames, b.numFrames) }

  function JitterFrames(blocks: seq<Block>): multiset<nat> {
    if blocks == [] then multiset{} else BlockFrames(blocks[0]) + JitterFrames(blocks[1..])
  }

  function PacketFrames(d: Packet): multiset<nat> {
    if d.frame.Some? then multiset{d.frame.value} else multiset{}
  }

  function QueueFrames(queue: seq<Packet>): multiset<nat> {
    if queue == [] then multiset{} else PacketFrames(queue[0]) + QueueFrames(queue[1..])
  }

  /**
   Linear ownership: every frame of the stock is in exactly one of the bins, the packet queue and
   the jitter buffer, and there exactly once.
   */
  ghost predicate Linear(s: Sink) {
    s.free + QueueFrames(s.queue) + JitterFrames(s.jitter.blocks) == multiset(s.stock)
  }

  lemma {:induction false} FramesUpToAdd(frames: map<nat, nat>, n: nat, i: nat, f: nat)
    requires i !in frames
    ensures FramesUpTo(frames[i := f], n) == FramesUpTo(frames, n) + (if i < n then multiset{f} else multiset{})
  {
    if n > 0 {
      FramesUpToAdd(frames, n - 1, i, f);
    }
  }

  lemma {:induction false} FramesUpToEmpty(n: nat)
    ensures FramesUpTo(map[], n) == multiset{}
  {
    if n > 0 {
      FramesUpToEmpty(n - 1);
    }
  }

  lemma {:induction false} JitterFramesAppend(a: seq<Block>, b: seq<Block>)
    ensures JitterFrames(a + b) == JitterFrames(a) + JitterFrames(b)
  {
    if a == [] {
      assert a + b == b;
    } else {
      assert (a + b)[1..] == a[1..] + b;
      JitterFramesAppend(a[1..], b);
    }
  }

  lemma JitterFramesUpdate(blocks: seq<Block>, i: nat, b: Block)
    requires i < |blocks|
    ensures JitterFrames(blocks[i := b]) + BlockFrames(blocks[i]) == JitterFrames(blocks) + BlockFrames(b)
  {
    var l, r := blocks[..i], blocks[i + 1..];
    assert blocks == l + ([blocks[i]] + r) && blocks[i := b] == l + ([b] + r);
    JitterFramesAppend(l, [blocks[i]] + r);
    JitterFramesAppend(l, [b] + r);
    JitterFramesAppend([blocks[i]], r);
    JitterFramesAppend([b], r);
    JitterFramesSingle(blocks[i]);
    JitterFramesSingle(b);
  }

  lemma JitterFramesSingle(b: Block)
    ensures JitterFrames([b]) == BlockFrames(b)
  {
    assert [b][1..] == [];
  }

  lemma {:induction false} QueueFramesAppend(a: seq<Packet>, d: Packet)
    ensures QueueFrames(a + [d]) == QueueFrames(a) + PacketFrames(d)
  {
    if a == [] {
      assert a + [d] == [d] && [d][1..] == [];
    } else {
      assert (a + [d])[1..] == a[1..] + [d];
      QueueFramesAppend(a[1..], d);
    }
  }

  // ---------------------------------------------------------------- well-formed packets and blocks

  /** What the source sends: a frame index below the block's frame count, a frame iff there is payload. */
  ghost predicate Conforms(d: Packet) {
    && 0 <= d.sequence < INT32_MAX
    && (d.size > 0 <==> d.numFrames > 0)
    && (d.size > 0 ==> d.frameIndex < d.numFrames)
    && (d.frame.Some? <==> d.size > 0)
  }

  ghost predicate BlockOk(b: Block, n: nat) {
    if b.Placeholder() then b.received == -1 && b.numFrames == 0 && b.frames == map[]
    else b.numFrames == n && b.received == |b.frames| && forall i | i in b.frames :: i < n
  }

  ghost predicate BlocksOk(blocks: seq<Block>) {
    forall i | 0 <= i < |blocks| :: BlockOk(blocks[i], blocks[i].numFrames)
  }

  /**
   The assertion in data_frame_storage::add_frame: the packet's frame index is below the frame
   count of its block, if part of that block is held. Blocks without frames refuse every packet.
   */
  ghost predicate Agrees(d: Packet, blocks: seq<Block>) {
    forall i | 0 <= i < |blocks| ::
      blocks[i].sequence == d.sequence && !blocks[i].Placeholder() && !blocks[i].Empty() && d.size > 0
      ==> d.frameIndex < blocks[i].numFrames
  }

  /** Whichever of the two packets of a block comes first, the other one has an index below its frame count. */
  predicate SameBlock(d: Packet, e: Packet) {
    d.streamId == e.streamId && d.sequence == e.sequence && d.size > 0 && e.size > 0
    ==> d.frameIndex < e.numFrames && e.frameIndex < d.numFrames
  }

  ghost predicate QueueAgrees(queue: seq<Packet>) {
    forall i, j | 0 <= i < j < |queue| :: SameBlock(queue[i], queue[j])
  }

  ghost predicate QueueFits(queue: seq<Packet>, blocks: seq<Block>, streamId: int) {
    forall k | 0 <= k < |queue| && queue[k].streamId == streamId :: Agrees(queue[k], blocks)
  }

  /** What arrives agrees with everything of its block that is held at the time. */
  ghost predicate Fits(s: Sink, d: Packet) {
    && (d.streamId == s.streamId ==> Agrees(d, s.jitter.blocks))
    && forall k | 0 <= k < |s.queue| :: SameBlock(s.queue[k], d)
  }

  // ---------------------------------------------------------------- operations

  /** Dropping the whole jitter buffer; the frames go back to the bins. */
  function ResetJitter(s: Sink): Sink {
    s.(jitter := Reset(s.jitter), free := s.free + JitterFrames(s.jitter.blocks))
  }

  function PopFront(s: Sink): Sink
    requires s.jitter.blocks != []
  {
    s.(jitter := Pop(s.jitter), free := s.free + BlockFrames(s.jitter.blocks[0]))
  }

  /** flush_packet_queue() */
  function FlushQueue(s: Sink): Sink {
    s.(queue := [], free := s.free + QueueFrames(s.queue))
  }

  /** release_memory(): everything in the bins goes back to the system; what stays in stock has leaked. */
  function ReleaseMemory(s: Sink): Sink {
    s.(free := multiset{}, stock := set f | f in s.stock && f !in s.free)
  }

  /** handle_overrun() */
  function Overrun(s: Sink): Sink {
    ResetJitter(s).(state := Buffering)
  }

  predicate Stale(s: Sink, d: Packet) {
    s.lowLatency && d.position + d.blockFrames <= s.lastPosition
  }

  /** handle_data() from the stream check on; `f` is the frame the allocator comes up with. */
  function HandleData(s: Sink, d: Packet, f: nat): Sink {
    if d.streamId != s.streamId || Stale(s, d) then s
    else if d.size == 0 then s.(queue := s.queue + [d.(frame := None)])
    else s.(queue := s.queue + [d.(frame := Some(f))],
            stock := s.stock + {f},
            free := if f in s.free then s.free - multiset{f} else s.free)
  }

  datatype Added = Added(sink: Sink, accepted: bool)

  /** The scope guard of add_packet gives the frame of a refused packet back. */
  function Refuse(s: Sink, d: Packet): Added {
    Added(s.(free := s.free + PacketFrames(d)), false)
  }

  /** Placeholders for the blocks between the last pushed one and `upto`. */
  function FillGap(j: Jitter, upto: int): (r: Jitter)
    requires j.lastPushed != SENTINEL && -1 <= j.lastPushed < upto
    requires |j.blocks| + (upto - 1 - j.lastPushed) <= j.capacity
    ensures r.capacity == j.capacity && r.lastPopped == j.lastPopped && r.lastPushed == upto - 1
    ensures |r.blocks| == |j.blocks| + (upto - 1 - j.lastPushed)
    decreases upto - j.lastPushed
  {
    if j.lastPushed + 1 == upto then j
    else FillGap(Push(j, Hole(j.lastPushed + 1)), upto)
  }

  /** received_block::init(const data_packet&) */
  function NewBlock(d: Packet): Block {
    Block(d.sequence, d.numFrames, 0, map[], d.position, d.blockFrames)
  }

  function AddFrame(b: Block, d: Packet): Block {
    if d.frame.None? then b
    else b.(received := b.received + 1, frames := b.frames[d.frameIndex := d.frame.value])
  }

  /** add_packet for a block that is not in the buffer yet. */
  function AddNew(s: Sink, d: Packet): Added
    requires Ordered(s.jitter) && 0 <= d.sequence < INT32_MAX
    requires s.jitter.lastPopped < d.sequence
  {
    var j := s.jitter;
    if d.sequence <= j.lastPushed then
      Refuse(s, d)
    else if j.lastPushed != SENTINEL && d.sequence - j.lastPushed > j.capacity - |j.blocks| then
      var s1 := Overrun(s);
      Added(s1.(jitter := Push(s1.jitter, AddFrame(NewBlock(d), d))), true)
    else
      var j1 := if j.lastPushed != SENTINEL then FillGap(j, d.sequence) else j;
      Added(s.(jitter := Push(j1, AddFrame(NewBlock(d), d))), true)
  }

  /** add_packet for the i-th block of the buffer. */
  function AddExisting(s: Sink, d: Packet, i: nat): Added
    requires i < |s.jitter.blocks|
  {
    var b := s.jitter.blocks[i];
    if !b.Placeholder() && (b.Empty() || d.frameIndex in b.frames) then
      Refuse(s, d)
    else
      var b1 := if b.Placeholder() then NewBlock(d) else b;
      Added(s.(jitter := s.jitter.(blocks := s.jitter.blocks[i := AddFrame(b1, d)])), true)
  }

  function AddPacket(s: Sink, d: Packet): Added
    requires Ordered(s.jitter) && 0 <= d.sequence < INT32_MAX
  {
    if d.streamId != s.streamId || Stale(s, d) then Refuse(s, d)
    else if d.sequence <= s.jitter.lastPopped && s.jitter.lastPopped - d.sequence < INT32_MAX / 2 then Refuse(s, d)
    else
      // a sequence number far below the last popped one means the sequence has wrapped around
      var s1 := if d.sequence <= s.jitter.lastPopped then ResetJitter(s) else s;
      var found := Scan(s1.jitter.blocks, d.sequence);
      if found == None then AddNew(s1, d) else AddExisting(s1, d, found.value)
  }

  // ---------------------------------------------------------------- order

  lemma {:induction false} FillGapKeepsOrder(j: Jitter, upto: int)
    requires Ordered(j) && j.lastPushed != SENTINEL && -1 <= j.lastPushed < upto < INT32_MAX
    requires |j.blocks| + (upto - 1 - j.lastPushed) <= j.capacity
    ensures Ordered(FillGap(j, upto))
    decreases upto - j.lastPushed
  {
    if j.lastPushed + 1 != upto {
      PushKeepsOrder(j, Hole(j.lastPushed + 1));
      FillGapKeepsOrder(Push(j, Hole(j.lastPushed + 1)), upto);
    }
  }

  /**
   add_packet keeps the buffer ordered. That AddPacket is well-defined at all shows that push is
   never called on a full buffer and that its assertion on the sequence number always holds.
   */
  lemma AddPacketKeepsOrder(s: Sink, d: Packet)
    requires Ordered(s.jitter) && 0 <= d.sequence < INT32_MAX
    ensures Ordered(AddPacket(s, d).sink.jitter)
    ensures AddPacket(s, d).sink.jitter.capacity == s.jitter.capacity
  {
    var r := AddPacket(s, d);
    if d.streamId == s.streamId && !Stale(s, d)
       && !(d.sequence <= s.jitter.lastPopped && s.jitter.lastPopped - d.sequence < INT32_MAX / 2)
    {
      var s1 := if d.sequence <= s.jitter.lastPopped then ResetJitter(s) else s;
      var found := Scan(s1.jitter.blocks, d.sequence);
      if found == None {
        AddNewKeepsOrder(s1, d);
      } else {
        AddExistingKeepsOrder(s1, d, found.value);
      }
    }
  }

  lemma AddNewKeepsOrder(s: Sink, d: Packet)
    requires Ordered(s.jitter) && 0 <= d.sequence < INT32_MAX && s.jitter.lastPopped < d.sequence
    ensures Ordered(AddNew(s, d).sink.jitter) && AddNew(s, d).sink.jitter.capacity == s.jitter.capacity
  {
    var j, b := s.jitter, AddFrame(NewBlock(d), d);
    if d.sequence > j.lastPushed {
      if j.lastPushed != SENTINEL && d.sequence - j.lastPushed > j.capacity - |j.blocks| {
        PushKeepsOrder(Overrun(s).jitter, b);
      } else if j.lastPushed != SENTINEL {
        FillGapKeepsOrder(j, d.sequence);
        PushKeepsOrder(FillGap(j, d.sequence), b);
      } else {
        PushKeepsOrder(j, b);
      }
    }
  }

  lemma AddExistingKeepsOrder(s: Sink, d: Packet, i: nat)
    requires Ordered(s.jitter) && i < |s.jitter.blocks| && s.jitter.blocks[i].sequence == d.sequence
    ensures Ordered(AddExisting(s, d, i).sink.jitter) && AddExisting(s, d, i).sink.jitter.capacity == s.jitter.capacity
  {
    var j, j' := s.jitter, AddExisting(s, d, i).sink.jitter;
    assert forall k | 0 <= k < |j.blocks| :: j'.blocks[k].sequence == j.blocks[k].sequence;
  }

  /**
   The branch for an unknown block that is not newer than the newest one ("can this ever
   happen!?" in the source) is taken exactly when nothing has been popped since the last reset
   and the packet precedes the first block held, or the start of the stream if none is.
   */
  lemma OutdatedOnlyBeforeFirst(s: Sink, d: Packet)
    requires Ordered(s.jitter) && 0 <= d.sequence < INT32_MAX && s.jitter.lastPopped < d.sequence
    ensures (Scan(s.jitter.blocks, d.sequence) == None && d.sequence <= s.jitter.lastPushed)
            <==> (s.jitter.lastPopped == SENTINEL
                  && (if s.jitter.blocks == [] then d.sequence <= s.jitter.lastPushed
                      else d.sequence < s.jitter.blocks[0].sequence))
  {
    ScanOrdered(s.jitter.blocks, d.sequence);
  }

  // ---------------------------------------------------------------- what add_packet does

  /** The packet is of the current stream and, with low latency, ends after the playout position. */
  predicate Current(s: Sink, d: Packet) {
    d.streamId == s.streamId && (s.lowLatency ==> s.lastPosition < d.position + d.blockFrames)
  }

  /** At most half the range of sequence numbers behind the last popped one. */
  predicate TooOld(s: Sink, d: Packet) {
    d.sequence <= s.jitter.lastPopped < d.sequence + INT32_MAX / 2
  }

  /** A block of which one packet has arrived. */
  function FirstOf(d: Packet): Block {
    match d.frame
    case None => Block(d.sequence, d.numFrames, 0, map[], d.position, d.blockFrames)
    case Some(f) => Block(d.sequence, d.numFrames, 1, map[d.frameIndex := f], d.position, d.blockFrames)
  }

  ghost predicate IsHeldAt(s: Sink, d: Packet, i: nat) {
    i < |s.jitter.blocks| && s.jitter.blocks[i].sequence == d.sequence
  }

  ghost predicate IsHeld(s: Sink, d: Packet) { exists i :: IsHeldAt(s, d, i) }

  /** Only the frame of the packet changes its place: it goes back to the bins. */
  predicate GivenBack(s: Sink, r: Added, d: Packet) {
    !r.accepted && r.sink == s.(free := s.free + PacketFrames(d))
  }

  /** Neither packets of other streams nor old ones change anything. */
  lemma OldIsRefused(s: Sink, d: Packet)
    requires Ordered(s.jitter) && 0 <= d.sequence < INT32_MAX
    requires !Current(s, d) || TooOld(s, d)
    ensures GivenBack(s, AddPacket(s, d), d)
  {
    hide Scan, JitterFrames, PacketFrames, Ordered;
  }

  /** Nor does a packet from before everything that is held. */
  lemma EarlyIsRefused(s: Sink, d: Packet)
    requires Ordered(s.jitter) && 0 <= d.sequence < INT32_MAX
    requires s.jitter.lastPopped < d.sequence <= s.jitter.lastPushed && !IsHeld(s, d)
    ensures GivenBack(s, AddPacket(s, d), d)
  {
    NotHeld(s, d);
    hide Scan, JitterFrames, PacketFrames, Ordered;
  }

  lemma NotHeld(s: Sink, d: Packet)
    requires Ordered(s.jitter) && !IsHeld(s, d)
    ensures Scan(s.jitter.blocks, d.sequence) == None
  {
    var r := Scan(s.jitter.blocks, d.sequence);
    assert r.Some? ==> IsHeldAt(s, d, r.value);
  }

  lemma FirstIs(d: Packet)
    ensures AddFrame(NewBlock(d), d) == FirstOf(d)
  {
  }

  lemma {:induction false} FillGapIs(j: Jitter, upto: int)
    requires j.lastPushed != SENTINEL && -1 <= j.lastPushed < upto
    requires |j.blocks| + (upto - 1 - j.lastPushed) <= j.capacity
    ensures FillGap(j, upto).blocks == j.blocks + Holes(j.lastPushed + 1, upto)
    decreases upto - j.lastPushed
  {
    if j.lastPushed + 1 != upto {
      var h := Hole(j.lastPushed + 1);
      FillGapIs(Push(j, h), upto);
      assert Holes(j.lastPushed + 1, upto) == [h] + Holes(j.lastPushed + 2, upto);
    } else {
      assert j.blocks + Holes(upto, upto) == j.blocks;
    }
  }

  /** Placeholders for the blocks from `lo` to `hi`. */
  function Holes(lo: int, hi: int): (r: seq<Block>)
    requires lo <= hi
    ensures |r| == hi - lo && forall i | 0 <= i < |r| :: r[i] == Hole(lo + i)
  {
    seq(hi - lo, i requires 0 <= i < hi - lo => Hole(lo + i))
  }

  /**
   A packet that is newer than everything pushed. If its block and the placeholders before it fit
   behind what is held, that is where they go. Otherwise the buffer overruns: it holds the new
   block alone and buffering starts anew. The first packet after a reset needs no placeholders.
   */
  lemma NewIsAppended(s: Sink, d: Packet)
    requires Ordered(s.jitter) && 0 <= d.sequence < INT32_MAX && Current(s, d)
    requires s.jitter.lastPopped < d.sequence && s.jitter.lastPushed < d.sequence
    ensures var j, r := s.jitter, AddPacket(s, d);
            && r.accepted && r.sink.jitter.lastPushed == d.sequence
            && if j.lastPushed == SENTINEL || d.sequence - j.lastPushed <= j.capacity - |j.blocks| then
                 && r.sink == s.(jitter := r.sink.jitter)
                 && r.sink.jitter.capacity == j.capacity && r.sink.jitter.lastPopped == j.lastPopped
                 && r.sink.jitter.blocks ==
                    j.blocks + (if j.lastPushed == SENTINEL then [] else Holes(j.lastPushed + 1, d.sequence)) + [FirstOf(d)]
               else
                 && r.sink.jitter == Jitter(j.capacity, [FirstOf(d)], d.sequence, SENTINEL)
                 && r.sink == s.(jitter := r.sink.jitter, state := Buffering, free := s.free + JitterFrames(j.blocks))
  {
    var j := s.jitter;
    assert !IsHeld(s, d);
    NotHeld(s, d);
    FirstIs(d);
    hide Scan, JitterFrames, PacketFrames, FirstOf, AddFrame, NewBlock;
    if j.lastPushed != SENTINEL && d.sequence - j.lastPushed <= j.capacity - |j.blocks| {
      FillGapIs(j, d.sequence);
      hide FillGap;
    }
  }

  /** A sequence number far below the last popped one: the numbers have wrapped around. */
  lemma WrappedStartsAnew(s: Sink, d: Packet)
    requires Ordered(s.jitter) && 0 <= d.sequence < INT32_MAX && Current(s, d)
    requires d.sequence <= s.jitter.lastPopped && !TooOld(s, d)
    ensures var j, r := s.jitter, AddPacket(s, d);
            && r.accepted
            && r.sink == s.(jitter := Jitter(j.capacity, [FirstOf(d)], d.sequence, SENTINEL), free := s.free + JitterFrames(j.blocks))
  {
    FirstIs(d);
    assert FirstOf(d).sequence == d.sequence;
    hide JitterFrames, PacketFrames, FirstOf, AddFrame, NewBlock;
    var s1 := ResetJitter(s);
    assert s1.jitter.blocks + [FirstOf(d)] == [FirstOf(d)];
  }

  /** A packet of a block that is held: only this block changes, by the frame of the packet. */
  lemma HeldGetsFrame(s: Sink, d: Packet, i: nat)
    requires Ordered(s.jitter) && 0 <= d.sequence < INT32_MAX && Current(s, d) && IsHeldAt(s, d, i)
    ensures var b, r := s.jitter.blocks[i], AddPacket(s, d);
            if !b.Placeholder() && (b.numFrames == 0 || d.frameIndex in b.frames) then GivenBack(s, r, d)
            else
              && r.accepted
              && r.sink == s.(jitter := s.jitter.(blocks := r.sink.jitter.blocks))
              && r.sink.jitter.blocks == s.jitter.blocks[i := r.sink.jitter.blocks[i]]
              && r.sink.jitter.blocks[i] ==
                 if b.Placeholder() then FirstOf(d)
                 else if d.frame.None? then b
                 else Block(b.sequence, b.numFrames, b.received + 1, b.frames[d.frameIndex := d.frame.value], b.position, b.blockFrames)
  {
    FirstIs(d);
    ScanOrdered(s.jitter.blocks, d.sequence);
    hide JitterFrames, PacketFrames, FirstOf, Scan;
  }

  /** Exactly which packets are taken. */
  lemma AcceptedIs(s: Sink, d: Packet)
    requires Ordered(s.jitter) && 0 <= d.sequence < INT32_MAX
    ensures AddPacket(s, d).accepted <==>
            && Current(s, d) && !TooOld(s, d)
            && (d.sequence <= s.jitter.lastPushed && s.jitter.lastPopped < d.sequence ==>
                  exists i: nat :: IsHeldAt(s, d, i)
                              && var b := s.jitter.blocks[i]; b.Placeholder() || (b.numFrames > 0 && d.frameIndex !in b.frames))
  {
    if !Current(s, d) || TooOld(s, d) {
      OldIsRefused(s, d);
    } else if d.sequence <= s.jitter.lastPopped {
      WrappedStartsAnew(s, d);
    } else if s.jitter.lastPushed < d.sequence {
      NewIsAppended(s, d);
    } else if IsHeld(s, d) {
      var i :| IsHeldAt(s, d, i);
      HeldGetsFrame(s, d, i);
      assert forall k | IsHeldAt(s, d, k) :: k == i;
    } else {
      EarlyIsRefused(s, d);
    }
  }

  /** handle_data queues exactly the current packets, behind the others, with the frame if there is payload. */
  lemma QueuedIffCurrent(s: Sink, d: Packet, f: nat)
    ensures var t := HandleData(s, d, f);
            && t == s.(queue := t.queue, stock := t.stock, free := t.free)
            && if Current(s, d) then
                 && t.queue == s.queue + [d.(frame := if d.size > 0 then Some(f) else None)]
                 && (d.size == 0 ==> t.stock == s.stock && t.free == s.free)
                 && (d.size > 0 ==> t.stock == s.stock + {f})
               else t == s
  {
  }

  // ---------------------------------------------------------------- ownership

  lemma ResetLinear(s: Sink)
    requires Linear(s)
    ensures Linear(ResetJitter(s))
  {
  }

  lemma PopLinear(s: Sink)
    requires Linear(s) && s.jitter.blocks != []
    ensures Linear(PopFront(s))
  {
  }

  /** After a reset and a flush, release_memory finds every frame in the bins: nothing leaks. */
  lemma NothingLeaks(s: Sink)
    requires Linear(s)
    ensures var r := ReleaseMemory(FlushQueue(ResetJitter(s))); r.stock == {} && Linear(r)
  {
    var t := FlushQueue(ResetJitter(s));
    assert t.free == multiset(s.stock);
    forall f | f in s.stock ensures f in t.free {
      assert f in multiset(s.stock);
    }
  }

  /** The allocator hands out a frame from its bins or a new one. */
  predicate Allocatable(s: Sink, f: nat) { f in s.free || f !in s.stock }

  lemma HandleDataLinear(s: Sink, d: Packet, f: nat)
    requires Linear(s) && Allocatable(s, f)
    ensures Linear(HandleData(s, d, f))
  {
    hide QueueFrames, JitterFrames;
    QueueFramesAppend(s.queue, d.(frame := None));
    QueueFramesAppend(s.queue, d.(frame := Some(f)));
    if f in s.free {
      assert f in s.free + QueueFrames(s.queue) + JitterFrames(s.jitter.blocks);
      assert s.stock + {f} == s.stock;
      assert s.free == s.free - multiset{f} + multiset{f};
    } else {
      assert multiset(s.stock + {f}) == multiset(s.stock) + multiset{f};
    }
  }

  /** The frame of a packet on its way from the queue into the jitter buffer. */
  ghost predicate LinearWith(s: Sink, d: Packet) {
    s.free + QueueFrames(s.queue) + JitterFrames(s.jitter.blocks) + PacketFrames(d) == multiset(s.stock)
  }

  lemma AddFrameFrames(b: Block, d: Packet)
    requires d.frame.Some? ==> d.frameIndex !in b.frames && d.frameIndex < b.numFrames
    ensures BlockFrames(AddFrame(b, d)) == BlockFrames(b) + PacketFrames(d)
  {
    if d.frame.Some? {
      FramesUpToAdd(b.frames, b.numFrames, d.frameIndex, d.frame.value);
    }
  }

  lemma {:induction false} FillGapFrames(j: Jitter, upto: int)
    requires j.lastPushed != SENTINEL && -1 <= j.lastPushed < upto
    requires |j.blocks| + (upto - 1 - j.lastPushed) <= j.capacity
    ensures JitterFrames(FillGap(j, upto).blocks) == JitterFrames(j.blocks)
    decreases upto - j.lastPushed
  {
    if j.lastPushed + 1 != upto {
      var h := Hole(j.lastPushed + 1);
      JitterFramesAppend(j.blocks, [h]);
      JitterFramesSingle(h);
      FillGapFrames(Push(j, h), upto);
    }
  }

  lemma NewBlockFrames(d: Packet)
    requires Conforms(d)
    ensures BlockFrames(AddFrame(NewBlock(d), d)) == PacketFrames(d)
  {
    AddFrameFrames(NewBlock(d), d);
    FramesUpToEmpty(d.numFrames);
  }

  lemma PushFrames(j: Jitter, b: Block)
    requires |j.blocks| < j.capacity && (j.lastPushed == SENTINEL || b.sequence - j.lastPushed == 1)
    ensures JitterFrames(Push(j, b).blocks) == JitterFrames(j.blocks) + BlockFrames(b)
  {
    JitterFramesAppend(j.blocks, [b]);
    JitterFramesSingle(b);
  }

  lemma AddNewLinear(s: Sink, d: Packet)
    requires Ordered(s.jitter) && Conforms(d) && s.jitter.lastPopped < d.sequence
    requires LinearWith(s, d)
    ensures Linear(AddNew(s, d).sink)
  {
    var j, b := s.jitter, AddFrame(NewBlock(d), d);
    NewBlockFrames(d);
    hide AddFrame, BlockFrames, JitterFrames, QueueFrames, FillGap, Consecutive, PacketFrames;
    hide Linear, LinearWith;
    if d.sequence <= j.lastPushed {
      RefusedLinear(s, d);
    } else if j.lastPushed != SENTINEL && d.sequence - j.lastPushed > j.capacity - |j.blocks| {
      ResetLinearWith(s, d);
      PushFrames(Overrun(s).jitter, b);
      KeptLinear(Overrun(s), Push(Overrun(s).jitter, b), d);
    } else if j.lastPushed != SENTINEL {
      FillGapFrames(j, d.sequence);
      PushFrames(FillGap(j, d.sequence), b);
      KeptLinear(s, Push(FillGap(j, d.sequence), b), d);
    } else {
      PushFrames(j, b);
      KeptLinear(s, Push(j, b), d);
    }
  }

  lemma RefusedLinear(s: Sink, d: Packet)
    requires LinearWith(s, d)
    ensures Linear(Refuse(s, d).sink)
  {
    hide JitterFrames, QueueFrames, PacketFrames;
    var q, f, p := QueueFrames(s.queue), JitterFrames(s.jitter.blocks), PacketFrames(d);
    assert (s.free + p) + q + f == s.free + q + f + p;
  }

  lemma KeptLinear(s: Sink, j: Jitter, d: Packet)
    requires LinearWith(s, d) && JitterFrames(j.blocks) == JitterFrames(s.jitter.blocks) + PacketFrames(d)
    ensures Linear(s.(jitter := j))
  {
    hide JitterFrames, QueueFrames, PacketFrames;
    var q, f, p := QueueFrames(s.queue), JitterFrames(s.jitter.blocks), PacketFrames(d);
    assert s.free + q + (f + p) == s.free + q + f + p;
  }

  lemma ResetLinearWith(s: Sink, d: Packet)
    requires LinearWith(s, d)
    ensures LinearWith(ResetJitter(s), d) && LinearWith(Overrun(s), d)
  {
    hide QueueFrames, PacketFrames;
    var q, f, p := QueueFrames(s.queue), JitterFrames(s.jitter.blocks), PacketFrames(d);
    assert (s.free + f) + q + multiset{} + p == s.free + q + f + p;
  }

  lemma Cancel(a: multiset<nat>, b: multiset<nat>, x: multiset<nat>, p: multiset<nat>)
    requires a + x == b + (x + p)
    ensures a == b + p
  {
    forall f ensures a[f] == (b + p)[f] {
      assert (a + x)[f] == (b + (x + p))[f];
    }
  }

  lemma AddExistingLinear(s: Sink, d: Packet, i: nat)
    requires Conforms(d) && i < |s.jitter.blocks| && s.jitter.blocks[i].sequence == d.sequence
    requires BlockOk(s.jitter.blocks[i], s.jitter.blocks[i].numFrames) && Agrees(d, s.jitter.blocks) && LinearWith(s, d)
    ensures Linear(AddExisting(s, d, i).sink)
  {
    hide JitterFrames, QueueFrames;
    var b := s.jitter.blocks[i];
    if b.Placeholder() || !(b.Empty() || d.frameIndex in b.frames) {
      var b1 := if b.Placeholder() then NewBlock(d) else b;
      AddFrameFrames(b1, d);
      FramesUpToEmpty(d.numFrames);
      FramesUpToEmpty(0);
      assert BlockFrames(b1) == BlockFrames(b);
      hide BlockFrames, AddFrame;
      JitterFramesUpdate(s.jitter.blocks, i, AddFrame(b1, d));
      Cancel(JitterFrames(s.jitter.blocks[i := AddFrame(b1, d)]), JitterFrames(s.jitter.blocks),
             BlockFrames(b), PacketFrames(d));
    }
  }

  /** On every accept and every reject path the packet's frame ends up in exactly one place. */
  lemma AddPacketLinear(s: Sink, d: Packet)
    requires Ordered(s.jitter) && Conforms(d) && BlocksOk(s.jitter.blocks)
    requires d.streamId == s.streamId ==> Agrees(d, s.jitter.blocks)
    requires LinearWith(s, d)
    ensures Linear(AddPacket(s, d).sink)
  {
    hide AddNew, AddExisting, JitterFrames, QueueFrames, Scan;
    if d.streamId == s.streamId && !Stale(s, d)
       && !(d.sequence <= s.jitter.lastPopped && s.jitter.lastPopped - d.sequence < INT32_MAX / 2)
    {
      hide LinearWith, Linear;
      ResetLinearWith(s, d);
      var s1 := if d.sequence <= s.jitter.lastPopped then ResetJitter(s) else s;
      var found := Scan(s1.jitter.blocks, d.sequence);
      if found == None {
        AddNewLinear(s1, d);
      } else {
        AddExistingLinear(s1, d, found.value);
      }
    } else {
      RefusedLinear(s, d);
    }
  }

  // ---------------------------------------------------------------- blocks

  function Below(n: nat): (r: set<nat>)
    ensures |r| == n && forall k :: k in r <==> 0 <= k < n
  {
    if n == 0 then {} else Below(n - 1) + {n - 1}
  }

  /** A set of naturals below n that misses one of them has fewer than n elements. */
  lemma FewerThan(keys: set<nat>, n: nat, i: nat)
    requires (forall k | k in keys :: k < n) && i < n && i !in keys
    ensures |keys| < n
  {
    assert keys + {i} <= Below(n);
    SubsetSize(keys + {i}, Below(n));
  }

  lemma SubsetSize(a: set<nat>, b: set<nat>)
    requires a <= b
    ensures |a| <= |b|
  {
    assert |b| == |a| + |b - a| by {
      assert b == a + (b - a);
    }
  }

  /**
   A block is complete exactly when it holds every frame index, so the assertion in add_frame
   (neither placeholder nor complete) holds whenever a new frame arrives.
   */
  lemma CompleteMeansAllFrames(b: Block, n: nat)
    requires BlockOk(b, n) && !b.Placeholder()
    ensures b.Complete() <==> forall i | 0 <= i < n :: i in b.frames
  {
    if i :| 0 <= i < n && i !in b.frames {
      FewerThan(b.frames.Keys, n, i);
    } else {
      assert b.frames.Keys == Below(n);
    }
  }

  lemma AddFrameOk(b: Block, d: Packet, n: nat)
    requires BlockOk(b, n) && !b.Placeholder() && (d.frame.Some? ==> d.frameIndex < n && d.frameIndex !in b.frames)
    ensures BlockOk(AddFrame(b, d), n) && !AddFrame(b, d).Placeholder()
    ensures d.frame.Some? ==> !b.Complete()
  {
    if d.frame.Some? {
      FewerThan(b.frames.Keys, n, d.frameIndex);
      assert b.frames[d.frameIndex := d.frame.value].Keys == b.frames.Keys + {d.frameIndex};
    }
  }

  lemma {:induction false} FillGapBlocksOk(j: Jitter, upto: int)
    requires j.lastPushed != SENTINEL && -1 <= j.lastPushed < upto
    requires |j.blocks| + (upto - 1 - j.lastPushed) <= j.capacity
    requires BlocksOk(j.blocks)
    ensures BlocksOk(FillGap(j, upto).blocks)
    decreases upto - j.lastPushed
  {
    if j.lastPushed + 1 != upto {
      FillGapBlocksOk(Push(j, Hole(j.lastPushed + 1)), upto);
    }
  }

  lemma AddNewBlocksOk(s: Sink, d: Packet)
    requires Ordered(s.jitter) && Conforms(d) && BlocksOk(s.jitter.blocks)
    requires s.jitter.lastPopped < d.sequence
    ensures BlocksOk(AddNew(s, d).sink.jitter.blocks)
  {
    var j := s.jitter;
    AddFrameOk(NewBlock(d), d, d.numFrames);
    if j.lastPushed != SENTINEL && j.lastPushed < d.sequence && d.sequence - j.lastPushed <= j.capacity - |j.blocks| {
      FillGapBlocksOk(j, d.sequence);
    }
  }

  lemma AddExistingBlocksOk(s: Sink, d: Packet, i: nat)
    requires Conforms(d) && BlocksOk(s.jitter.blocks) && Agrees(d, s.jitter.blocks)
    requires i < |s.jitter.blocks| && s.jitter.blocks[i].sequence == d.sequence
    ensures BlocksOk(AddExisting(s, d, i).sink.jitter.blocks)
  {
    var b := s.jitter.blocks[i];
    assert BlockOk(b, b.numFrames);
    AddFrameOk(NewBlock(d), d, d.numFrames);
    if !b.Placeholder() && !b.Empty() && d.frameIndex !in b.frames {
      AddFrameOk(b, d, b.numFrames);
    }
  }

  lemma AddPacketBlocksOk(s: Sink, d: Packet)
    requires Ordered(s.jitter) && Conforms(d) && BlocksOk(s.jitter.blocks)
    requires d.streamId == s.streamId ==> Agrees(d, s.jitter.blocks)
    ensures BlocksOk(AddPacket(s, d).sink.jitter.blocks)
  {
    if d.streamId == s.streamId && !Stale(s, d)
       && !(d.sequence <= s.jitter.lastPopped && s.jitter.lastPopped - d.sequence < INT32_MAX / 2)
    {
      var s1 := if d.sequence <= s.jitter.lastPopped then ResetJitter(s) else s;
      var found := Scan(s1.jitter.blocks, d.sequence);
      if found == None {
        AddNewBlocksOk(s1, d);
      } else {
        AddExistingBlocksOk(s1, d, found.value);
      }
    }
  }

  lemma {:induction false} FillGapAgrees(j: Jitter, upto: int, q: Packet)
    requires j.lastPushed != SENTINEL && -1 <= j.lastPushed < upto
    requires |j.blocks| + (upto - 1 - j.lastPushed) <= j.capacity
    requires Agrees(q, j.blocks)
    ensures Agrees(q, FillGap(j, upto).blocks)
    decreases upto - j.lastPushed
  {
    if j.lastPushed + 1 != upto {
      FillGapAgrees(Push(j, Hole(j.lastPushed + 1)), upto, q);
    }
  }

  lemma AddNewAgrees(s: Sink, d: Packet, q: Packet)
    requires Ordered(s.jitter) && 0 <= d.sequence < INT32_MAX && s.jitter.lastPopped < d.sequence
    requires Conforms(d) && Agrees(q, s.jitter.blocks)
    requires d.sequence == q.sequence && d.size > 0 && q.size > 0 ==> q.frameIndex < d.numFrames
    ensures Agrees(q, AddNew(s, d).sink.jitter.blocks)
  {
    var j := s.jitter;
    if j.lastPushed != SENTINEL && j.lastPushed < d.sequence && d.sequence - j.lastPushed <= j.capacity - |j.blocks| {
      FillGapAgrees(j, d.sequence, q);
    }
  }

  /** Sorting a packet in keeps the agreement with every other packet of the stream. */
  lemma AddPacketAgrees(s: Sink, d: Packet, q: Packet)
    requires Ordered(s.jitter) && Conforms(d) && q.streamId == s.streamId && SameBlock(d, q)
    requires Agrees(q, s.jitter.blocks)
    ensures Agrees(q, AddPacket(s, d).sink.jitter.blocks)
  {
    hide AddNew, JitterFrames, Scan;
    if d.streamId == s.streamId && !Stale(s, d)
       && !(d.sequence <= s.jitter.lastPopped && s.jitter.lastPopped - d.sequence < INT32_MAX / 2)
    {
      var s1 := if d.sequence <= s.jitter.lastPopped then ResetJitter(s) else s;
      var found := Scan(s1.jitter.blocks, d.sequence);
      if found == None {
        AddNewAgrees(s1, d, q);
      }
    }
  }
}
