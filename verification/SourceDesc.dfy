/**
 The sink's record of a source, aoo/src/sink.cpp `source_desc`, as an object: its methods change
 the ring, the packet queue, the frame bins and the playout state step by step, and each is
 proved to act on the abstract state as the functions of `Receive` and `Playout` say.
 */
module SourceDesc {
  import opened Wrappers
  import opened Arithmetic
  import opened JitterBuffer
  import opened Receive
  import opened Playout

  // ---------------------------------------------------------------- frames in the slots of a ring

  ghost predicate NoFrames(blocks: seq<Block>) {
    forall i | 0 <= i < |blocks| :: blocks[i].numFrames == 0
  }

  lemma {:induction false} NoFramesMeansNone(blocks: seq<Block>)
    requires NoFrames(blocks)
    ensures JitterFrames(blocks) == multiset{}
  {
    if blocks != [] {
      NoFramesMeansNone(blocks[1..]);
    }
  }

  lemma ThreeParts(a: seq<Block>, b: seq<Block>, c: seq<Block>)
    ensures JitterFrames(a + b + c) == JitterFrames(a) + JitterFrames(b) + JitterFrames(c)
  {
    JitterFramesAppend(a + b, c);
    JitterFramesAppend(a, b);
  }

  lemma FramesBelow(data: seq<Block>, k: nat)
    requires k < |data|
    ensures JitterFrames(data[..k + 1]) == JitterFrames(data[..k]) + BlockFrames(data[k])
  {
    assert data[..k + 1] == data[..k] + [data[k]];
    JitterFramesAppend(data[..k], [data[k]]);
    JitterFramesSingle(data[k]);
  }

  /** The slots of the ring hold the frames of the queue, and no others. */
  lemma SlotFrames(data: seq<Block>, head: nat, tail: nat, size: nat)
    requires Placed(|data|, head, tail, size)
    requires forall i | 0 <= i < |data| && (size == 0 || !Occupied(head, tail, i)) :: data[i].numFrames == 0
    ensures JitterFrames(data) == JitterFrames(Unrolled(data, tail, size))
  {
    hide JitterFrames, Unrolled, NoFrames;
    UnrolledIs(data, tail, size);
    if tail + size <= |data| {
      EmptySlots(data, 0, tail);
      EmptySlots(data, tail + size, |data|);
      assert data[..tail] == data[0..tail] && data[tail + size..] == data[tail + size..|data|];
      SlotFramesStraight(data, tail, size);
    } else {
      EmptySlots(data, head, tail);
      SlotFramesWrapped(data, head, tail);
    }
  }

  lemma UnrolledIs(data: seq<Block>, tail: nat, size: nat)
    requires tail < |data| && size <= |data|
    ensures Unrolled(data, tail, size) ==
            if tail + size <= |data| then data[tail..tail + size] else data[tail..] + data[..tail + size - |data|]
  {
  }

  lemma EmptySlots(data: seq<Block>, lo: nat, hi: nat)
    requires lo <= hi <= |data| && forall i | lo <= i < hi :: data[i].numFrames == 0
    ensures NoFrames(data[lo..hi])
  {
  }

  lemma SlotFramesStraight(data: seq<Block>, tail: nat, size: nat)
    requires tail + size <= |data|
    requires NoFrames(data[..tail]) && NoFrames(data[tail + size..])
    ensures JitterFrames(data) == JitterFrames(data[tail..tail + size])
  {
    hide JitterFrames;
    var a, b, c := data[..tail], data[tail..tail + size], data[tail + size..];
    assert data == a + b + c;
    ThreeParts(a, b, c);
    NoFramesMeansNone(a);
    NoFramesMeansNone(c);
  }

  lemma SlotFramesWrapped(data: seq<Block>, head: nat, tail: nat)
    requires head <= tail <= |data| && NoFrames(data[head..tail])
    ensures JitterFrames(data) == JitterFrames(data[tail..] + data[..head])
  {
    hide JitterFrames;
    var a, b, c := data[..head], data[head..tail], data[tail..];
    assert data == a + b + c;
    ThreeParts(a, b, c);
    NoFramesMeansNone(b);
    JitterFramesAppend(c, a);
  }

  lemma Regroup(a: multiset<nat>, b: multiset<nat>, c: multiset<nat>)
    ensures a + (b + c) == (a + b) + c
  {
  }

  // ---------------------------------------------------------------- the object

  class SourceDesc {
    const jitter: Ring
    var queue: seq<Packet>
    var free: multiset<nat>
    var stock: set<nat>
    var streamId: int
    var lowLatency: bool
    var wired: bool
    var blockSize: nat
    var latencyBlocks: nat
    var lastPosition: nat
    var missing: nat
    var state: StreamState

    ghost predicate Valid()
      reads this, jitter, jitter.data
    {
      jitter.Valid()
    }

    ghost function Value(): Sink
      requires Valid()
      reads this, jitter, jitter.data
    {
      Sink(jitter.Value(), queue, free, stock, streamId, lowLatency, wired, blockSize, latencyBlocks,
           lastPosition, missing, state)
    }

    constructor (capacity: nat)
      requires 0 < capacity
      ensures Valid() && fresh(jitter) && fresh(jitter.data)
      ensures Value() == Sink(Fresh(capacity), [], multiset{}, {}, -1, false, false, 0, 0, 0, 0, Inactive)
    {
      jitter := new Ring(capacity);
      queue, free, stock := [], multiset{}, {};
      streamId, lowLatency, wired, blockSize, latencyBlocks := -1, false, false, 0, 0;
      lastPosition, missing, state := 0, 0, Inactive;
    }

    /** jitter_buffer_.reset(): every slot gives its frames back. */
    method ResetBuffer()
      requires Valid()
      modifies this`free, jitter, jitter.data
      ensures Valid() && jitter.data == old(jitter.data)
      ensures Value() == ResetJitter(old(Value()))
    {
      hide JitterFrames, Unrolled;
      var k := 0;
      NoFramesMeansNone(jitter.data[..k]);
      while k < jitter.data.Length
        invariant 0 <= k <= jitter.data.Length
        invariant free == old(free) + JitterFrames(jitter.data[..k])
        modifies this`free
      {
        FramesBelow(jitter.data[..], k);
        free := free + BlockFrames(jitter.data[k]);
        k := k + 1;
      }
      assert jitter.data[..k] == jitter.data[..];
      SlotFrames(jitter.data[..], jitter.head, jitter.tail, jitter.size);
      jitter.ResetAll();
    }

    /** jitter_buffer_.pop() */
    method PopBuffer()
      requires Valid() && jitter.size > 0
      modifies this`free, jitter, jitter.data
      ensures Valid() && jitter.data == old(jitter.data)
      ensures Value() == PopFront(old(Value()))
    {
      var b := jitter.PopBlock();
      free := free + BlockFrames(b);
    }

    /** frame_allocator_.allocate(): a frame `f` from the bins, or a new one. */
    method AllocateFrame(f: nat)
      requires Valid()
      modifies this`free, this`stock
      ensures Valid()
      ensures Value() == old(Value()).(stock := old(stock) + {f}, free := if f in old(free) then old(free) - multiset{f} else old(free))
    {
      hide Ring.Valid, Ring.Value;
      if f in free {
        free := free - multiset{f};
      }
      stock := stock + {f};
    }

    method PushPacket(d: Packet)
      requires Valid()
      modifies this`queue
      ensures Valid() && Value() == old(Value()).(queue := old(queue) + [d])
    {
      hide Ring.Valid, Ring.Value;
      queue := queue + [d];
    }

    /** handle_data() from the stream check on; `f` is the frame that the allocator hands out. */
    method HandlePacket(d: Packet, f: nat)
      requires Valid()
      modifies this`queue, this`free, this`stock
      ensures Valid() && Value() == HandleData(old(Value()), d, f)
    {
      hide Ring.Valid, Ring.Value;
      if d.streamId != streamId || (lowLatency && d.position + d.blockFrames <= lastPosition) {
        return;
      }
      if d.size > 0 {
        AllocateFrame(f);
        PushPacket(d.(frame := Some(f)));
      } else {
        PushPacket(d.(frame := None));
      }
    }

    method PopPacket() returns (d: Packet)
      requires Valid() && queue != []
      modifies this`queue
      ensures d == old(queue)[0]
      ensures Valid() && Value() == old(Value()).(queue := old(queue)[1..])
    {
      hide Ring.Valid, Ring.Value;
      d := queue[0];
      queue := queue[1..];
    }

    /** flush_packet_queue() */
    method Flush()
      requires Valid()
      modifies this`queue, this`free
      ensures Valid() && Value() == FlushQueue(old(Value()))
    {
      hide Ring.Valid, Ring.Value, PacketFrames;
      while queue != []
        invariant Valid() && FlushQueue(Value()) == FlushQueue(old(Value()))
        decreases |queue|
      {
        Regroup(free, PacketFrames(queue[0]), QueueFrames(queue[1..]));
        var d := PopPacket();
        GiveBack(d);
      }
    }

    /** handle_overrun() */
    method HandleOverrun()
      requires Valid()
      modifies this`free, this`state, jitter, jitter.data
      ensures Valid() && jitter.data == old(jitter.data)
      ensures Value() == Overrun(old(Value()))
    {
      ResetBuffer();
      if state != Buffering {
        state := Buffering;
      }
    }

    /** The loop that fills a gap with placeholders. */
    method PushHoles(upto: int)
      requires Valid() && jitter.lastPushed != SENTINEL && -1 <= jitter.lastPushed < upto
      requires jitter.size + (upto - 1 - jitter.lastPushed) <= jitter.data.Length
      modifies jitter, jitter.data
      ensures Valid() && jitter.data == old(jitter.data)
      ensures jitter.Value() == FillGap(old(jitter.Value()), upto)
    {
      hide Unrolled, Placed, Occupied;
      var i := jitter.lastPushed + 1;
      while i < upto
        invariant jitter.Valid() && jitter.data == old(jitter.data)
        invariant i == jitter.lastPushed + 1 && -1 <= jitter.lastPushed < upto
        invariant jitter.size + (upto - i) <= jitter.data.Length
        invariant FillGap(jitter.Value(), upto) == FillGap(old(jitter.Value()), upto)
        decreases upto - i
      {
        jitter.PushBlock(Hole(i));
        i := i + 1;
      }
    }

    /** The part of add_packet for a block that find() does not know. */
    method PushNew(d: Packet) returns (accepted: bool)
      requires Valid() && Ordered(jitter.Value())
      requires 0 <= d.sequence < INT32_MAX && jitter.lastPopped < d.sequence
      modifies this`free, this`state, jitter, jitter.data
      ensures Valid() && jitter.data == old(jitter.data)
      ensures Added(Value(), accepted) == AddNew(old(Value()), d)
    {
      hide Unrolled, Placed, Occupied, FillGap, Consecutive, JitterFrames, Scan;
      var newest := jitter.lastPushed;
      if d.sequence <= newest {
        GiveBack(d);
        return false;
      }
      if newest != SENTINEL {
        var space := jitter.data.Length - jitter.size;
        if d.sequence - newest > space {
          HandleOverrun();
        } else {
          PushHoles(d.sequence);
        }
      }
      jitter.PushBlock(AddFrame(NewBlock(d), d));
      accepted := true;
    }

    /** The scope guard: a refused packet's frame goes back to the bins. */
    method GiveBack(d: Packet)
      requires Valid()
      modifies this`free
      ensures Valid() && Value() == Refuse(old(Value()), d).sink
    {
      if d.frame.Some? {
        free := free + multiset{d.frame.value};
      }
    }

    /** The part of add_packet for a block that find() has found in `slot`. */
    method FillSlot(d: Packet, slot: nat, ghost i: nat) returns (accepted: bool)
      requires Valid() && i < jitter.size && slot == Slot(jitter.data.Length, jitter.tail, i)
      modifies this`free, jitter.data
      ensures Valid() && Added(Value(), accepted) == AddExisting(old(Value()), d, i)
    {
      hide Unrolled;
      var b := jitter.data[slot];
      if b.Placeholder() {
        b := NewBlock(d);
      } else if b.Empty() || d.frameIndex in b.frames {
        GiveBack(d);
        return false;
      }
      jitter.Update(i, slot, AddFrame(b, d));
      accepted := true;
    }

    /** add_packet() */
    method Add(d: Packet) returns (accepted: bool)
      requires Valid() && Ordered(jitter.Value()) && 0 <= d.sequence < INT32_MAX
      modifies this`free, this`state, jitter, jitter.data
      ensures Valid() && jitter.data == old(jitter.data)
      ensures Added(Value(), accepted) == AddPacket(old(Value()), d)
    {
      hide Unrolled, Placed, Occupied, JitterFrames, Scan, AddNew, AddExisting;
      if d.streamId != streamId || (lowLatency && d.position + d.blockFrames <= lastPosition) {
        GiveBack(d);
        return false;
      }
      if d.sequence <= jitter.lastPopped {
        if jitter.lastPopped - d.sequence >= INT32_MAX / 2 {
          ResetBuffer();
        } else {
          GiveBack(d);
          return false;
        }
      }
      ghost var found := Scan(jitter.Value().blocks, d.sequence);
      var slot := jitter.Find(d.sequence);
      if slot == None {
        accepted := PushNew(d);
      } else {
        accepted := FillSlot(d, slot.value, found.value);
      }
    }

    // -------------------------------------------------------------- playout

    /** The loop over the blocks from the `first` one on that stops at an incomplete one. */
    method CountComplete(first: nat) returns (n: nat)
      requires Valid() && first <= jitter.size
      ensures n == CompletePrefix(jitter.Value().blocks[first..])
    {
      hide Unrolled;
      ghost var bs := jitter.Value().blocks;
      n := 0;
      var i := first;
      while i < jitter.size
        invariant first <= i <= jitter.size && n == i - first
        invariant CompletePrefix(bs[first..]) == n + CompletePrefix(bs[i..])
      {
        var slot := Slot(jitter.data.Length, jitter.tail, i);
        assert bs[i..][0] == jitter.data[slot] && bs[i..][1..] == bs[i + 1..];
        if !jitter.data[slot].Complete() {
          break;
        }
        n := n + 1;
        i := i + 1;
      }
    }

    /** Raising the playout position to the end of the front block, then popping that block. */
    method SkipFront()
      requires Valid() && jitter.size > 0
      modifies this`free, this`lastPosition, jitter, jitter.data
      ensures Valid() && jitter.data == old(jitter.data)
      ensures Value() == Skip(old(Value())) && jitter.size == old(jitter.size) - 1
    {
      hide Unrolled;
      var front := jitter.data[jitter.tail];
      assert front == jitter.Value().blocks[0];
      var end := front.position + Max(front.blockFrames, blockSize);
      if lastPosition < end {
        lastPosition := end;
      }
      PopBuffer();
    }

    method TrimFront(count: nat)
      requires Valid() && count <= jitter.size
      modifies this`free, this`lastPosition, jitter, jitter.data
      ensures Valid() && jitter.data == old(jitter.data)
      ensures Value() == Trim(old(Value()), count)
    {
      hide Unrolled, Skip, Ring.Valid, BlockFrames;
      var k := 0;
      while k < count
        invariant k <= count && Valid() && jitter.data == old(jitter.data)
        invariant count - k <= jitter.size
        invariant Trim(Value(), count - k) == Trim(old(Value()), count)
        decreases count - k
      {
        SkipFront();
        k := k + 1;
      }
    }

    /** The stale-front loop of the wired profile. */
    method DropStaleFront()
      requires Valid()
      modifies this`free, this`lastPosition, jitter, jitter.data
      ensures Valid() && jitter.data == old(jitter.data)
      ensures Value() == DropStale(old(Value()))
    {
      hide Unrolled, Occupied, CompletePrefix;
      while jitter.size > 0
        invariant Valid() && jitter.data == old(jitter.data)
        invariant DropStale(Value()) == DropStale(old(Value()))
        decreases jitter.size
      {
        var front := jitter.data[jitter.tail];
        assert front == jitter.Value().blocks[0];
        if front.Complete() {
          break;
        }
        var behind := CountComplete(1);
        if behind < latencyBlocks {
          break;
        }
        SkipFront();
      }
    }

    /** A new target for the number of resident blocks. */
    method Retune(env: Env)
      requires Valid()
      modifies this`latencyBlocks, this`state
      ensures Valid() && Value() == Retarget(old(Value()), env)
    {
      hide Ring.Valid, Ring.Value;
      if lowLatency && env.target.Some? {
        var previous := latencyBlocks;
        latencyBlocks := ResidentBlocks(env.target.value, blockSize);
        if latencyBlocks > previous && state == Active {
          state := Buffering;
        }
      }
    }

    /** Dropping complete blocks beyond the target (wired profile). */
    method TrimSurplus()
      requires Valid()
      modifies this`free, this`lastPosition, jitter, jitter.data
      ensures Valid() && jitter.data == old(jitter.data)
      ensures Surplus(old(Value())) <= |old(Value()).jitter.blocks|
      ensures Value() == Trim(old(Value()), Surplus(old(Value())))
    {
      hide Unrolled, Ring.Valid, CompletePrefix;
      assert jitter.Value().blocks[0..] == jitter.Value().blocks;
      var complete := 0;
      if lowLatency {
        complete := CountComplete(0);
      }
      if lowLatency && wired && complete > latencyBlocks {
        TrimFront(complete - latencyBlocks);
      }
    }

    /** consecutive_missing_blocks_ and the restart it triggers. */
    method Miss()
      requires Valid()
      modifies this`free, this`missing, this`state, jitter, jitter.data
      ensures Valid() && jitter.data == old(jitter.data)
      ensures Value() == CountMiss(old(Value()))
    {
      hide Unrolled, Ring.Valid, JitterFrames;
      missing := missing + 1;
      if missing >= MAX_MISSING {
        missing := 0;
        ResetBuffer();
        state := Buffering;
      }
    }

    method PlaySilence(env: Env) returns (ok: bool)
      requires Valid() && jitter.size == 0
      modifies this`free, this`missing, this`state, this`lastPosition, jitter, jitter.data
      ensures Valid() && jitter.data == old(jitter.data)
      ensures Outcome(Value(), ok, None, []) == PlayNothing(old(Value()), env)
    {
      hide Unrolled, Ring.Valid, JitterFrames, CountMiss;
      if !(lowLatency && state == Active) || !env.writable {
        return false;
      }
      jitter.Advance();
      lastPosition := lastPosition + blockSize;
      Miss();
      ok := true;
    }

    /** Decoding the front block, or concealing it if it is not complete. */
    method PlayBlock(env: Env) returns (ok: bool, played: Option<Block>)
      requires Valid() && jitter.size > 0
      modifies this`free, this`missing, this`state, this`lastPosition, jitter, jitter.data
      ensures Valid() && jitter.data == old(jitter.data)
      ensures Outcome(Value(), ok, played, []) == PlayFront(old(Value()), env)
    {
      hide Unrolled, Occupied, JitterFrames, BlockFrames;
      var front := jitter.data[jitter.tail];
      assert front == jitter.Value().blocks[0];
      played := None;
      if !env.writable {
        PopBuffer();
        return false, None;
      }
      ok := true;
      if front.Complete() {
        played := Some(front);
        if lowLatency {
          missing := 0;
          SkipFront();
        } else {
          PopBuffer();
        }
      } else if lowLatency {
        ConcealFront();
      } else {
        PopBuffer();
      }
    }

    method ConcealFront()
      requires Valid() && jitter.size > 0
      modifies this`free, this`missing, this`state, this`lastPosition, jitter, jitter.data
      ensures Valid() && jitter.data == old(jitter.data)
      ensures var s := old(Value()); var s1 := CountMiss(s.(lastPosition := s.lastPosition + s.blockSize));
              && (s.missing + 1 < MAX_MISSING ==> s1.jitter.blocks != [])
              && Value() == if s.missing + 1 >= MAX_MISSING then s1 else PopFront(s1)
    {
      hide Unrolled, Ring.Valid, JitterFrames, BlockFrames;
      lastPosition := lastPosition + blockSize;
      var previous := missing;
      Miss();
      if previous + 1 < MAX_MISSING {
        PopBuffer();
      }
    }

    /** The part of try_decode_block after buffering. */
    method PlayNext(env: Env) returns (ok: bool, played: Option<Block>)
      requires Valid()
      modifies this`free, this`missing, this`state, this`lastPosition, jitter, jitter.data
      ensures Valid() && jitter.data == old(jitter.data)
      ensures var o := Play(old(Value()), env); Value() == o.sink && ok == o.ok && played == o.played
    {
      hide Unrolled, Ring.Valid, JitterFrames, BlockFrames, CompletePrefix, PlayNothing, PlayFront;
      ghost var s := Value();
      assert Trim(s, 0) == s;
      if state == Active {
        TrimSurplus();
      }
      assert Value() == Decoding(s);
      if jitter.size == 0 {
        ok := PlaySilence(env);
        played := None;
      } else {
        ok, played := PlayBlock(env);
      }
    }

    /** The buffering phase of try_decode_block: drop, trim, and decide whether to go on waiting. */
    method Settle() returns (complete: nat)
      requires Valid()
      modifies this`free, this`lastPosition, jitter, jitter.data
      ensures Valid() && jitter.data == old(jitter.data) && Value() == Settled(old(Value()))
      ensures complete == CompletePrefix(Value().jitter.blocks)
    {
      hide Unrolled, Ring.Valid, JitterFrames, BlockFrames, CompletePrefix, Trim, Surplus, DropStale;
      if lowLatency && wired {
        DropStaleFront();
      }
      TrimSurplus();
      complete := CountComplete(0);
      assert jitter.Value().blocks[0..] == jitter.Value().blocks;
    }

    /** Whether to play, in the state in which to play, or what to return while buffering. */
    method Prepare(env: Env) returns (play: bool, ok: bool)
      requires Valid()
      modifies this`free, this`state, this`lastPosition, this`latencyBlocks, jitter, jitter.data
      ensures Valid() && jitter.data == old(jitter.data)
      ensures play == AtPlay(old(Value()), env).Some?
      ensures play ==> Value() == AtPlay(old(Value()), env).value
      ensures !play ==> Value() == TryDecode(old(Value()), env).sink && ok == TryDecode(old(Value()), env).ok
    {
      hide Unrolled, Ring.Valid, CompletePrefix, Play, Settled, SettledTrimmed;
      Retune(env);
      if state != Buffering {
        return true, true;
      }
      if env.stopped {
        return false, false;
      }
      var complete := Settle();
      if env.early || jitter.size < latencyBlocks || (lowLatency && complete < latencyBlocks) {
        return false, env.writable && (lowLatency || !env.overdue);
      }
      state := Active;
      return true, true;
    }

    /** try_decode_block() */
    method Decode(env: Env) returns (ok: bool, played: Option<Block>)
      requires Valid()
      modifies this`free, this`missing, this`state, this`lastPosition, this`latencyBlocks, jitter, jitter.data
      ensures Valid() && jitter.data == old(jitter.data)
      ensures var o := TryDecode(old(Value()), env); Value() == o.sink && ok == o.ok && played == o.played
    {
      hide Unrolled, Ring.Valid, Play, Settled, SettledTrimmed, KeepBuffering;
      var play;
      play, ok := Prepare(env);
      if play {
        ok, played := PlayNext(env);
      } else {
        played := None;
      }
    }

    /** One packet from the queue into the jitter buffer. */
    method Sort() returns (accepted: bool)
      requires Valid() && Ordered(jitter.Value()) && queue != [] && 0 <= queue[0].sequence < INT32_MAX
      modifies this`queue, this`free, this`state, jitter, jitter.data
      ensures Valid() && jitter.data == old(jitter.data)
      ensures Added(Value(), accepted) == Dequeue(old(Value()))
    {
      hide Ring.Valid, Ring.Value, AddPacket;
      var d := PopPacket();
      accepted := Add(d);
    }

    /** flush_packet_queue() and release_memory(): whatever is in the bins goes back to the system. */
    method PurgeFrames()
      requires Valid()
      modifies this`queue, this`free, this`stock
      ensures Valid() && Value() == Purge(old(Value()))
    {
      hide Ring.Valid, Ring.Value, QueueFrames;
      Flush();
      Release();
    }

    method Release()
      requires Valid()
      modifies this`free, this`stock
      ensures Valid() && Value() == ReleaseMemory(old(Value()))
    {
      hide Ring.Valid, Ring.Value;
      stock := set f | f in stock && f !in free;
      free := multiset{};
    }

    /** update(): resizing the jitter buffer, and releasing the frame memory if the size has changed. */
    method ResizeBuffer(capacity: nat, blocks: nat)
      requires Valid() && 0 < capacity
      modifies this, jitter, jitter.data
      ensures Valid() && Value() == Resize(old(Value()), capacity, blocks)
    {
      hide Ring.Valid, JitterFrames, QueueFrames, Purge, Unrolled;
      var previous := jitter.data.Length;
      ResetBuffer();
      jitter.Resize(capacity);
      latencyBlocks := blocks;
      if previous != capacity {
        PurgeFrames();
      }
    }

    /** The parameters of a new stream. */
    method Reconfigure(e: Event)
      requires Valid() && e.Start?
      modifies this
      ensures Valid() && jitter.data == old(jitter.data)
      ensures Value() == old(Value()).(streamId := e.streamId, lowLatency := e.lowLatency, wired := e.wired,
                                       blockSize := e.blockSize, lastPosition := 0, missing := 0)
    {
      hide Ring.Valid, Ring.Value;
      streamId, lowLatency, wired, blockSize := e.streamId, e.lowLatency, e.wired, e.blockSize;
      lastPosition, missing := 0, 0;
    }

    method ResetBufferHead(key: int)
      requires Valid()
      modifies jitter`lastPushed
      ensures Valid() && Value() == old(Value()).(jitter := ResetHead(old(Value()).jitter, key))
    {
      hide Ring.Valid, Ring.Value;
      jitter.SetHead(key);
    }

    /** handle_start(): the part that concerns the buffers. */
    method StartNew(e: Event)
      requires Valid() && e.Start? && 0 < e.capacity
      modifies this, jitter, jitter.data
      ensures Valid() && Value() == StartStream(old(Value()), e)
    {
      hide Ring.Valid, Ring.Value, Resize, Purge, ResetHead;
      Reconfigure(e);
      ResizeBuffer(e.capacity, e.latencyBlocks);
      if e.formatChanged {
        PurgeFrames();
      }
      ResetBufferHead(e.sequence - 1);
    }
  }
}
