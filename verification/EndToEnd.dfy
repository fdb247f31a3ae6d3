/**
 From the history of the source to the bytes that the sink hands to its decoder, over whole runs
 of the sink: a block is followed through any events as long as it stays in the jitter buffer,
 while frames are written by the network thread, recycled and freed around it.
 */
module EndToEnd {
  import opened Wrappers
  import opened Arithmetic
  import opened Bytes
  import opened JitterBuffer
  import opened Receive
  import opened Playout
  import opened Fragments
  import opened Resend
  import FrameStorage

  // ---------------------------------------------------------------- one block in the buffer

  predicate Holds(s: Sink, q: int) {
    var bs := s.jitter.blocks;
    bs != [] && bs[0].sequence <= q < bs[0].sequence + |bs|
  }

  function BlockAt(s: Sink, q: int): Block
    requires Holds(s, q)
  {
    s.jitter.blocks[q - s.jitter.blocks[0].sequence]
  }

  /** The event sorts a current packet of block q in. */
  ghost predicate Sorts(s: Sink, e: Event, q: int) {
    e.Sort? && s.queue != [] && s.queue[0].sequence == q && s.queue[0].streamId == s.streamId && !Stale(s, s.queue[0])
  }

  lemma AtSequence(s: Sink, q: int)
    requires Ordered(s.jitter) && Holds(s, q)
    ensures BlockAt(s, q).sequence == q && 0 <= q < INT32_MAX && s.jitter.lastPopped < q
  {
    var bs := s.jitter.blocks;
    assert bs[q - bs[0].sequence].sequence == bs[0].sequence + (q - bs[0].sequence);
  }

  /** Blocks dropped from the front do not change those that stay. */
  lemma SuffixBlock(s: Sink, t: Sink, k: nat, q: int)
    requires Ordered(s.jitter) && k <= |s.jitter.blocks| && t.jitter.blocks == s.jitter.blocks[k..]
    requires Holds(s, q) && Holds(t, q)
    ensures BlockAt(t, q) == BlockAt(s, q)
  {
    assert t.jitter.blocks[0] == s.jitter.blocks[k];
    assert s.jitter.blocks[k].sequence == s.jitter.blocks[0].sequence + k;
  }

  /** Blocks added at the back do not change those in front. */
  lemma PrefixBlock(s: Sink, t: Sink, more: seq<Block>, q: int)
    requires t.jitter.blocks == s.jitter.blocks + more && Holds(s, q)
    ensures Holds(t, q) && BlockAt(t, q) == BlockAt(s, q)
  {
  }

  // ---------------------------------------------------------------- decoding

  lemma {:induction false} DropStaleSuffix(s: Sink) returns (k: nat)
    ensures k <= |s.jitter.blocks| && DropStale(s).jitter.blocks == s.jitter.blocks[k..]
    decreases |s.jitter.blocks|
  {
    var bs := s.jitter.blocks;
    if bs == [] || bs[0].Complete() || CompletePrefix(bs[1..]) < s.latencyBlocks {
      k := 0;
    } else {
      k := DropStaleSuffix(Skip(s));
      assert bs[1..][k..] == bs[k + 1..];
      k := k + 1;
    }
  }

  lemma TrimSuffix(s: Sink, bs: seq<Block>, k: nat) returns (l: nat)
    requires k <= |bs| && s.jitter.blocks == bs[k..]
    ensures l <= |bs| && Surplus(s) <= |s.jitter.blocks| && Trim(s, Surplus(s)).jitter.blocks == bs[l..]
  {
    SurplusTrimmed(s);
    TrimBlocks(s, Surplus(s));
    hide CompletePrefix, Trim, Surplus;
    SliceTwice(bs, k, Surplus(s));
    l := k + Surplus(s);
  }

  lemma SettledSuffix(s: Sink) returns (k: nat)
    ensures k <= |s.jitter.blocks| && Settled(s).jitter.blocks == s.jitter.blocks[k..]
  {
    hide DropStale, CompletePrefix, Trim, Surplus;
    if s.lowLatency && s.wired {
      k := DropStaleSuffix(s);
      k := TrimSuffix(DropStale(s), s.jitter.blocks, k);
    } else {
      assert s.jitter.blocks == s.jitter.blocks[0..];
      k := TrimSuffix(s, s.jitter.blocks, 0);
    }
  }

  lemma SliceTwice(bs: seq<Block>, k: nat, l: nat)
    requires k + l <= |bs|
    ensures bs[k..][l..] == bs[k + l..]
  {
  }

  /** What playing leaves of the blocks. */
  lemma PlayRest(s: Sink, env: Env)
    ensures var d, rest := Decoding(s).jitter.blocks, Play(s, env).sink.jitter.blocks;
            rest == [] || rest == d || (d != [] && rest == d[1..])
  {
    hide Decoding, JitterFrames, BlockFrames;
  }

  lemma PlaySuffix(s: Sink, env: Env) returns (k: nat)
    ensures k <= |s.jitter.blocks| && Play(s, env).sink.jitter.blocks == s.jitter.blocks[k..]
  {
    var n, bs := ActiveSurplus(s), s.jitter.blocks;
    SurplusTrimmed(s);
    TrimBlocks(s, n);
    PlayRest(s, env);
    hide Trim, CompletePrefix, Play;
    var rest := Play(s, env).sink.jitter.blocks;
    var d := Decoding(s).jitter.blocks;
    assert d == bs[n..];
    if rest == [] {
      k := |bs|;
    } else if rest == d {
      k := n;
    } else {
      SliceTwice(bs, n, 1);
      k := n + 1;
    }
  }

  /** A call of try_decode_block only ever drops blocks from the front, or all. */
  lemma DecodeSuffix(s: Sink, env: Env) returns (k: nat)
    ensures k <= |s.jitter.blocks| && TryDecode(s, env).sink.jitter.blocks == s.jitter.blocks[k..]
  {
    var s1, bs := Retarget(s, env), s.jitter.blocks;
    assert s1.jitter == s.jitter;
    hide Play, Settled, SettledTrimmed, KeepBuffering, Retarget;
    if s1.state != Buffering {
      k := PlaySuffix(s1, env);
    } else if env.stopped {
      k := 0;
    } else {
      k := BufferingSuffix(s, s1, env);
    }
  }

  lemma BufferingSuffix(s: Sink, s1: Sink, env: Env) returns (k: nat)
    requires s1 == Retarget(s, env) && s1.jitter == s.jitter && s1.state == Buffering && !env.stopped
    ensures k <= |s.jitter.blocks| && TryDecode(s, env).sink.jitter.blocks == s.jitter.blocks[k..]
  {
    hide Play, Settled, SettledTrimmed, KeepBuffering, Retarget;
    k := SettledSuffix(s1);
    var p := Settled(s1).(state := Active);
    var l := PlaySuffix(p, env);
    SliceTwice(s.jitter.blocks, k, l);
    if AtPlay(s, env).Some? {
      assert TryDecode(s, env).sink == Play(p, env).sink;
      k := k + l;
    }
  }

  // ---------------------------------------------------------------- sorting in

  lemma {:induction false} FillGapAppends(j: Jitter, upto: int) returns (holes: seq<Block>)
    requires j.lastPushed != SENTINEL && -1 <= j.lastPushed < upto
    requires |j.blocks| + (upto - 1 - j.lastPushed) <= j.capacity
    ensures FillGap(j, upto).blocks == j.blocks + holes && |holes| == upto - 1 - j.lastPushed
    ensures forall i | 0 <= i < |holes| :: holes[i] == Hole(j.lastPushed + 1 + i)
    decreases upto - j.lastPushed
  {
    if j.lastPushed + 1 == upto {
      holes := [];
    } else {
      var h := Hole(j.lastPushed + 1);
      var more := FillGapAppends(Push(j, h), upto);
      assert (j.blocks + [h]) + more == j.blocks + ([h] + more);
      holes := [h] + more;
    }
  }

  /** What a packet for a new block leaves: the old blocks with more behind them, or its own block alone. */
  lemma AddNewShape(s: Sink, d: Packet) returns (more: seq<Block>)
    requires Ordered(s.jitter) && 0 <= d.sequence < INT32_MAX && s.jitter.lastPopped < d.sequence
    ensures var t, b := AddNew(s, d).sink.jitter.blocks, AddFrame(NewBlock(d), d);
            && (t == [b] || t == s.jitter.blocks + more)
            && (t != s.jitter.blocks && t != [b] ==> more != [] && more[|more| - 1] == b)
            && forall i | 0 <= i < |more| - 1 :: exists q :: more[i] == Hole(q)
  {
    var j, b := s.jitter, AddFrame(NewBlock(d), d);
    more := [];
    if d.sequence > j.lastPushed && j.lastPushed != SENTINEL && d.sequence - j.lastPushed <= j.capacity - |j.blocks| {
      var holes := FillGapAppends(j, d.sequence);
      hide FillGap, AddFrame, Consecutive;
      assert (j.blocks + holes) + [b] == j.blocks + (holes + [b]);
      more := holes + [b];
    } else if d.sequence <= j.lastPushed {
      assert j.blocks + [] == j.blocks;
    } else if j.lastPushed == SENTINEL {
      more := [b];
    }
  }

  /** A packet of a block that is in the buffer. */
  lemma KnownBlock(s: Sink, d: Packet, q: int)
    requires Ordered(s.jitter) && Holds(s, q) && Holds(s, d.sequence) && d.streamId == s.streamId && !Stale(s, d)
    requires 0 <= d.sequence < INT32_MAX
    ensures var t := AddPacket(s, d).sink;
            && Holds(t, q)
            && BlockAt(t, q) == if d.sequence == q then Received(BlockAt(s, q), d) else BlockAt(s, q)
  {
    AtSequence(s, d.sequence);
    var i := d.sequence - s.jitter.blocks[0].sequence;
    AddPacketToBlock(s, i, d);
    ReceivedSequence(s.jitter.blocks[i], d);
    hide AddPacket, Received, Ordered;
  }

  lemma ReceivedSequence(b: Block, d: Packet)
    requires b.sequence == d.sequence
    ensures Received(b, d).sequence == d.sequence
  {
  }

  /** A packet of a block that is not in the buffer: other blocks stay as they are, or are all dropped. */
  lemma UnknownBlock(s: Sink, d: Packet, q: int)
    requires Ordered(s.jitter) && 0 <= d.sequence < INT32_MAX && s.jitter.lastPopped < d.sequence && !Holds(s, d.sequence)
    requires Holds(AddNew(s, d).sink, q)
    ensures var t := AddNew(s, d).sink;
            if Holds(s, q) then BlockAt(t, q) == BlockAt(s, q)
            else BlockAt(t, q) == Hole(q) || (d.sequence == q && BlockAt(t, q) == AddFrame(NewBlock(d), d))
  {
    var t := AddNew(s, d).sink;
    var b := AddFrame(NewBlock(d), d);
    assert b.sequence == d.sequence;
    var more := AddNewShape(s, d);
    AddNewKeepsOrder(s, d);
    AtSequence(t, q);
    hide AddNew, AddFrame, NewBlock, Ordered;
    if t.jitter.blocks == s.jitter.blocks + more {
      if Holds(s, q) {
        PrefixBlock(s, t, more, q);
      } else {
        NewBlockAt(s, t, more, q);
      }
    }
  }

  /** A block that is new in the buffer is a placeholder, or the last one. */
  lemma NewBlockAt(s: Sink, t: Sink, more: seq<Block>, q: int)
    requires t.jitter.blocks == s.jitter.blocks + more && Holds(t, q) && !Holds(s, q) && BlockAt(t, q).sequence == q
    requires forall i | 0 <= i < |more| - 1 :: exists h :: more[i] == Hole(h)
    ensures more != [] && (BlockAt(t, q) == Hole(q) || BlockAt(t, q) == more[|more| - 1])
  {
    var i := q - t.jitter.blocks[0].sequence;
    assert s.jitter.blocks != [] ==> t.jitter.blocks[0] == s.jitter.blocks[0];
    assert i >= |s.jitter.blocks|;
    var k := i - |s.jitter.blocks|;
    assert BlockAt(t, q) == more[k];
    if k < |more| - 1 {
      var h :| more[k] == Hole(h);
    }
  }

  /** What sorting a packet in does to block q. */
  lemma SortBlock(s: Sink, d: Packet, q: int)
    requires Ordered(s.jitter) && 0 <= d.sequence < INT32_MAX
    requires Holds(AddPacket(s, d).sink, q)
    ensures var t := AddPacket(s, d).sink;
            if Holds(s, q) then
              BlockAt(t, q) == if d.sequence == q && d.streamId == s.streamId && !Stale(s, d) then Received(BlockAt(s, q), d)
                               else BlockAt(s, q)
            else
              || BlockAt(t, q) == Hole(q)
              || (d.sequence == q && d.streamId == s.streamId && BlockAt(t, q) == AddFrame(NewBlock(d), d))
  {
    var t := AddPacket(s, d).sink;
    AddPacketBranches(s, d);
    hide AddPacket, AddNew, Received, AddFrame, NewBlock;
    if Holds(s, q) {
      AtSequence(s, q);
    }
    if Discarded(s, d) {
    } else if d.sequence <= s.jitter.lastPopped {
      var s1 := ResetJitter(s);
      hide Ordered, JitterFrames;
      UnknownBlock(s1, d, q);
      AloneAfterReset(s1, d);
    } else if Holds(s, d.sequence) {
      if Holds(s, q) {
        KnownBlock(s, d, q);
      } else {
        SameRange(s, d, q);
      }
    } else {
      UnknownBlock(s, d, q);
    }
  }

  /** The packet is of another stream, too old, or stale. */
  predicate Discarded(s: Sink, d: Packet) {
    || d.streamId != s.streamId || Stale(s, d)
    || (d.sequence <= s.jitter.lastPopped && s.jitter.lastPopped - d.sequence < INT32_MAX / 2)
  }

  lemma AddPacketBranches(s: Sink, d: Packet)
    requires Ordered(s.jitter) && 0 <= d.sequence < INT32_MAX
    ensures var t := AddPacket(s, d);
            && (Discarded(s, d) ==> t.sink.jitter == s.jitter)
            && (!Discarded(s, d) && d.sequence <= s.jitter.lastPopped ==> t == AddNew(ResetJitter(s), d))
            && (!Discarded(s, d) && d.sequence > s.jitter.lastPopped && !Holds(s, d.sequence) ==> t == AddNew(s, d))
  {
    ScanOrdered(s.jitter.blocks, d.sequence);
    ScanOrdered([], d.sequence);
    hide Scan, AddNew, AddExisting, JitterFrames, PacketFrames;
  }

  lemma AloneAfterReset(s: Sink, d: Packet)
    requires s.jitter == Fresh(s.jitter.capacity) && 0 < s.jitter.capacity && 0 <= d.sequence < INT32_MAX
    ensures AddNew(s, d).sink.jitter.blocks == [AddFrame(NewBlock(d), d)]
    ensures AddFrame(NewBlock(d), d).sequence == d.sequence
  {
  }

  lemma SameRange(s: Sink, d: Packet, q: int)
    requires Ordered(s.jitter) && Holds(s, d.sequence) && d.streamId == s.streamId && !Stale(s, d)
    requires 0 <= d.sequence < INT32_MAX
    ensures Holds(AddPacket(s, d).sink, q) ==> Holds(s, q)
  {
    AtSequence(s, d.sequence);
    var i := d.sequence - s.jitter.blocks[0].sequence;
    AddPacketToBlock(s, i, d);
    ReceivedSequence(s.jitter.blocks[i], d);
    hide AddPacket, Received, Ordered;
  }

  /** What an event does to a block that is in the buffer before and after it. */
  lemma StepBlock(s: Sink, e: Event, q: int)
    requires Inv(s) && Enabled(s, e) && Holds(s, q) && Holds(Apply(s, e), q)
    ensures BlockAt(Apply(s, e), q) == if Sorts(s, e, q) then Received(BlockAt(s, q), s.queue[0]) else BlockAt(s, q)
    ensures Apply(s, e).streamId == s.streamId
  {
    hide TryDecode, AddPacket, JitterFrames, QueueFrames, Linear, BlocksOk, QueueFits, QueueAgrees, Conforms, Received, Purge;
    match e {
      case Sort =>
        SequenceInRange(s);
        var s1 := s.(queue := s.queue[1..]);
        AddPacketFrame(s1, s.queue[0]);
        SortBlock(s1, s.queue[0], q);
      case Decode(env) =>
        PositionNeverDecreases(s, env);
        var k := DecodeSuffix(s, env);
        SuffixBlock(s, Apply(s, e), k, q);
      case Update(c, l) =>
        ResizeCore(s, c, l);
      case Start(_, _, _, _, _, _, _, _) =>
        StartEmpties(s, e);
      case _ =>
    }
  }

  lemma StartEmpties(s: Sink, e: Event)
    requires Inv(s) && e.Start? && Enabled(s, e)
    ensures StartStream(s, e).jitter.blocks == []
  {
    hide JitterFrames, QueueFrames;
  }

  // ---------------------------------------------------------------- the memory of the frames

  /** Only the frame that a packet is copied into changes its content. */
  ghost predicate Writes(mem: Content, mem': Content, e: Event) {
    forall x: nat :: (e.Arrive? ==> x != e.f) ==> mem'(x) == mem(x)
  }

  lemma {:induction false} FrameInBlock(frames: map<nat, nat>, n: nat, k: nat)
    requires k in frames && k < n
    ensures frames[k] in FramesUpTo(frames, n)
  {
    if k < n - 1 {
      FrameInBlock(frames, n - 1, k);
    }
  }

  lemma {:induction false} FrameInJitter(blocks: seq<Block>, a: nat, f: nat)
    requires a < |blocks| && f in BlockFrames(blocks[a])
    ensures f in JitterFrames(blocks)
  {
    if a > 0 {
      FrameInJitter(blocks[1..], a - 1, f);
    }
  }

  lemma {:induction false} FrameInQueue(queue: seq<Packet>, a: nat, f: nat)
    requires a < |queue| && queue[a].frame == Some(f)
    ensures f in QueueFrames(queue)
  {
    if a > 0 {
      FrameInQueue(queue[1..], a - 1, f);
    }
  }

  /** A frame that can be allocated is neither in the buffer nor in the queue. */
  lemma NotInUse(s: Sink, f: nat)
    requires Linear(s) && Allocatable(s, f)
    ensures f !in JitterFrames(s.jitter.blocks) && f !in QueueFrames(s.queue)
  {
    hide JitterFrames, QueueFrames;
    var all := s.free + QueueFrames(s.queue) + JitterFrames(s.jitter.blocks);
    assert all[f] == s.free[f] + QueueFrames(s.queue)[f] + JitterFrames(s.jitter.blocks)[f];
    assert multiset(s.stock)[f] <= 1;
    assert f !in s.stock ==> multiset(s.stock)[f] == 0;
  }

  /** So the frames of a block keep their content. */
  lemma BlockUntouched(s: Sink, f: nat, a: nat, k: nat)
    requires Linear(s) && Allocatable(s, f) && a < |s.jitter.blocks|
    requires k in s.jitter.blocks[a].frames && k < s.jitter.blocks[a].numFrames
    ensures s.jitter.blocks[a].frames[k] != f
  {
    NotInUse(s, f);
    var b := s.jitter.blocks[a];
    FrameInBlock(b.frames, b.numFrames, k);
    FrameInJitter(s.jitter.blocks, a, b.frames[k]);
  }

  /** The queued packets of the block, which was sent in stream `id`, carry its frames. */
  ghost predicate QueueFaithful(s: Sink, id: int, sent: Sent, mem: Content)
    requires WellCut(sent)
  {
    forall k | 0 <= k < |s.queue| && s.queue[k].streamId == id && s.queue[k].sequence == sent.sequence ::
      FrameOf(s.queue[k], sent, mem)
  }

  /** A packet of the block arrives with the frame that it says; its payload is in frame f. */
  ghost predicate Carries(d: Packet, f: nat, sent: Sent, mem: Content)
    requires WellCut(sent)
  {
    && d.numFrames == sent.numFrames
    && (sent.numFrames > 0 ==> d.frameIndex < sent.numFrames && mem(f) == Chunk(sent, d.frameIndex))
  }

  ghost predicate GoodArrival(e: Event, id: int, sent: Sent, mem: Content)
    requires WellCut(sent)
  {
    e.Arrive? && e.d.streamId == id && e.d.sequence == sent.sequence ==> Carries(e.d, e.f, sent, mem)
  }

  lemma FaithfulStays(s: Sink, e: Event, a: nat, sent: Sent, mem: Content, mem': Content)
    requires WellCut(sent) && Inv(s) && Enabled(s, e) && Writes(mem, mem', e)
    requires a < |s.jitter.blocks| && Faithful(s.jitter.blocks[a], sent, mem)
    ensures Faithful(s.jitter.blocks[a], sent, mem')
  {
    hide Chunk, WellCut, Ordered, BlocksOk, QueueFits, QueueAgrees, Conforms, Linear, Fits;
    var b := s.jitter.blocks[a];
    forall k | k in b.frames ensures mem'(b.frames[k]) == mem(b.frames[k]) {
      if e.Arrive? {
        BlockUntouched(s, e.f, a, k);
      }
    }
  }

  lemma PacketStays(s: Sink, e: Event, k: nat, sent: Sent, mem: Content, mem': Content)
    requires WellCut(sent) && Inv(s) && Enabled(s, e) && Writes(mem, mem', e)
    requires k < |s.queue| && FrameOf(s.queue[k], sent, mem)
    ensures FrameOf(s.queue[k], sent, mem')
  {
    hide Chunk, WellCut, Ordered, BlocksOk, QueueFits, QueueAgrees, Conforms, Linear, Fits;
    var d := s.queue[k];
    if sent.numFrames > 0 && e.Arrive? {
      NotInUse(s, e.f);
      FrameInQueue(s.queue, k, d.frame.value);
    }
  }

  /** Where the packets in the queue come from. */
  lemma QueueStep(s: Sink, e: Event, k: nat)
    requires Inv(s) && Enabled(s, e) && k < |Apply(s, e).queue|
    ensures var d := Apply(s, e).queue[k];
            || (exists l | 0 <= l < |s.queue| :: s.queue[l] == d)
            || (e.Arrive? && d == e.d.(frame := if e.d.size == 0 then None else Some(e.f)))
  {
    hide TryDecode, AddPacket, JitterFrames, QueueFrames, Linear, BlocksOk, QueueFits, QueueAgrees, Ordered, Purge, Resize;
    match e {
      case Sort =>
        SequenceInRange(s);
        AddPacketFrame(s.(queue := s.queue[1..]), s.queue[0]);
        assert Apply(s, e).queue[k] == s.queue[k + 1];
      case Decode(env) =>
        TryDecodeQueue(s, env);
        assert Apply(s, e).queue[k] == s.queue[k];
      case Update(c, l) =>
        ResizeCore(s, c, l);
        assert Apply(s, e).queue[k] == s.queue[k];
      case Start(_, _, _, _, _, _, _, _) =>
        StartQueue(s, e);
        hide StartStream;
        assert Apply(s, e).queue[k] == s.queue[k];
      case Arrive(d, f) =>
        assert k < |s.queue| ==> Apply(s, e).queue[k] == s.queue[k];
      case _ =>
        assert Apply(s, e).queue[k] == s.queue[k];
    }
  }

  lemma StartQueue(s: Sink, e: Event)
    requires Inv(s) && e.Start? && Enabled(s, e)
    ensures StartStream(s, e).queue == s.queue || StartStream(s, e).queue == []
  {
    hide JitterFrames, QueueFrames, Ordered, Linear;
  }

  lemma QueueStays(s: Sink, e: Event, id: int, sent: Sent, mem: Content, mem': Content)
    requires WellCut(sent) && Inv(s) && Enabled(s, e) && Writes(mem, mem', e)
    requires QueueFaithful(s, id, sent, mem) && GoodArrival(e, id, sent, mem')
    ensures QueueFaithful(Apply(s, e), id, sent, mem')
  {
    var t := Apply(s, e);
    forall k | 0 <= k < |t.queue| && t.queue[k].streamId == id && t.queue[k].sequence == sent.sequence
      ensures FrameOf(t.queue[k], sent, mem')
    {
      QueueStep(s, e, k);
      hide Apply, Inv, Writes, Chunk, WellCut;
      if l :| 0 <= l < |s.queue| && s.queue[l] == t.queue[k] {
        PacketStays(s, e, l, sent, mem, mem');
      }
    }
  }

  // ---------------------------------------------------------------- runs

  /** The contents of the frames along a run. */
  ghost predicate Memory(mem: seq<Content>, es: seq<Event>) {
    |mem| == |es| + 1 && forall i | 0 <= i < |es| :: Writes(mem[i], mem[i + 1], es[i])
  }

  /** Whatever arrives of the block, at any time, is a frame of it. */
  ghost predicate ArrivalsGood(es: seq<Event>, mem: seq<Content>, id: int, sent: Sent)
    requires WellCut(sent) && |mem| == |es| + 1
  {
    forall i | 0 <= i < |es| :: GoodArrival(es[i], id, sent, mem[i + 1])
  }

  /** A run of the sink, the frame memory along it, and a block of stream `id` whose packets are as they were sent. */
  ghost predicate Run(tr: seq<Sink>, es: seq<Event>, mem: seq<Content>, id: int, sent: Sent) {
    WellCut(sent) && Trace(tr, es) && Memory(mem, es) && ArrivalsGood(es, mem, id, sent)
  }

  /** One event of a run. */
  lemma RunStep(tr: seq<Sink>, es: seq<Event>, mem: seq<Content>, id: int, sent: Sent, i: nat)
    requires Run(tr, es, mem, id, sent) && i < |es|
    ensures |tr| == |mem| == |es| + 1 && WellCut(sent)
    ensures Inv(tr[i]) && Enabled(tr[i], es[i]) && tr[i + 1] == Apply(tr[i], es[i])
    ensures Writes(mem[i], mem[i + 1], es[i]) && GoodArrival(es[i], id, sent, mem[i + 1])
  {
    AlwaysInv(tr, es, i);
    hide Inv, Enabled, Writes, GoodArrival, WellCut, Fresh;
  }

  /** From the start of every run on, the queued packets of the block carry its frames. */
  lemma {:induction false} QueueAlwaysFaithful(tr: seq<Sink>, es: seq<Event>, mem: seq<Content>, id: int, sent: Sent, i: nat)
    requires Run(tr, es, mem, id, sent) && i < |tr|
    ensures |mem| == |tr| && WellCut(sent) && QueueFaithful(tr[i], id, sent, mem[i])
  {
    if i > 0 {
      QueueAlwaysFaithful(tr, es, mem, id, sent, i - 1);
      RunStep(tr, es, mem, id, sent, i - 1);
      hide Run;
      QueueStays(tr[i - 1], es[i - 1], id, sent, mem[i - 1], mem[i]);
    }
  }

  /** One event and a block that is in the buffer before and after it. */
  lemma OneStep(s: Sink, e: Event, sent: Sent, mem: Content, mem': Content)
    requires WellCut(sent) && Inv(s) && Enabled(s, e) && Writes(mem, mem', e)
    requires Holds(s, sent.sequence) && Holds(Apply(s, e), sent.sequence)
    requires Faithful(BlockAt(s, sent.sequence), sent, mem) && QueueFaithful(s, s.streamId, sent, mem)
    ensures var t, q := Apply(s, e), sent.sequence;
            && t.streamId == s.streamId && Faithful(BlockAt(t, q), sent, mem')
            && BlockAt(s, q).frames.Keys <= BlockAt(t, q).frames.Keys
            && (!BlockAt(s, q).Placeholder() || Sorts(s, e, q) ==> !BlockAt(t, q).Placeholder())
            && (Sorts(s, e, q) && sent.numFrames > 0 ==> s.queue[0].frameIndex in BlockAt(t, q).frames)
  {
    hide Apply, Enabled, Writes, Inv, WellCut, Received, Faithful, FrameOf, QueueFaithful;
    var q := sent.sequence;
    StepBlock(s, e, q);
    FaithfulStays(s, e, q - s.jitter.blocks[0].sequence, sent, mem, mem');
    if Sorts(s, e, q) {
      HeadIsFrame(s, q, sent, mem);
      PacketStays(s, e, 0, sent, mem, mem');
      ReceivedFaithful(BlockAt(s, q), s.queue[0], sent, mem');
    }
  }

  lemma HeadIsFrame(s: Sink, q: int, sent: Sent, mem: Content)
    requires WellCut(sent) && q == sent.sequence && QueueFaithful(s, s.streamId, sent, mem) && Sorts(s, Sort, q)
    ensures FrameOf(s.queue[0], sent, mem)
  {
    hide FrameOf, WellCut;
  }

  /** A block that comes into the buffer is a placeholder or begins with one of its frames. */
  lemma BlockIsBorn(s: Sink, e: Event, sent: Sent, mem: Content, mem': Content)
    requires WellCut(sent) && Inv(s) && Enabled(s, e) && Writes(mem, mem', e)
    requires !Holds(s, sent.sequence) && Holds(Apply(s, e), sent.sequence) && QueueFaithful(s, s.streamId, sent, mem)
    ensures e.Sort? && Apply(s, e).streamId == s.streamId && Faithful(BlockAt(Apply(s, e), sent.sequence), sent, mem')
  {
    var q := sent.sequence;
    OnlySortAdds(s, e, q);
    SortBirth(s, q);
    hide Apply, Inv;
    var d := s.queue[0];
    if BlockAt(Apply(s, e), q) != Hole(q) {
      PacketStays(s, e, 0, sent, mem, mem');
      FirstPacketFaithful(d, sent, mem');
    }
  }

  /** In every run, while the stream of the block is current, what the buffer holds of it are frames that were sent. */
  lemma {:induction false} BlockAlwaysFaithful(tr: seq<Sink>, es: seq<Event>, mem: seq<Content>, id: int, sent: Sent, i: nat)
    requires Run(tr, es, mem, id, sent) && i < |tr| && tr[i].streamId == id && Holds(tr[i], sent.sequence)
    ensures |mem| == |tr| && WellCut(sent) && Faithful(BlockAt(tr[i], sent.sequence), sent, mem[i])
  {
    hide Run, Apply, Enabled, Inv, Writes, GoodArrival, WellCut, Faithful, QueueFaithful, Holds, BlockAt;
    StartsEmpty(tr, es, mem, id, sent);
    if i > 0 {
      RunStep(tr, es, mem, id, sent, i - 1);
      QueueAlwaysFaithful(tr, es, mem, id, sent, i - 1);
      StreamStays(tr[i - 1], es[i - 1], sent.sequence);
      if Holds(tr[i - 1], sent.sequence) {
        BlockAlwaysFaithful(tr, es, mem, id, sent, i - 1);
      }
      FaithfulStep(tr[i - 1], es[i - 1], sent, mem[i - 1], mem[i]);
    }
  }

  lemma StartsEmpty(tr: seq<Sink>, es: seq<Event>, mem: seq<Content>, id: int, sent: Sent)
    requires Run(tr, es, mem, id, sent)
    ensures |tr| == |mem| == |es| + 1 && WellCut(sent) && !Holds(tr[0], sent.sequence)
  {
    hide Inv, Enabled, WellCut;
  }

  /** A block that is in the buffer after an event is of the stream that was current before. */
  lemma StreamStays(s: Sink, e: Event, q: int)
    requires Inv(s) && Enabled(s, e) && Holds(Apply(s, e), q)
    ensures Apply(s, e).streamId == s.streamId
  {
    hide Apply, Inv, Enabled, Holds;
    if Holds(s, q) {
      StepBlock(s, e, q);
    } else {
      OnlySortAdds(s, e, q);
      SortBirth(s, q);
    }
  }

  lemma FaithfulStep(s: Sink, e: Event, sent: Sent, mem: Content, mem': Content)
    requires WellCut(sent) && Inv(s) && Enabled(s, e) && Writes(mem, mem', e)
    requires Holds(Apply(s, e), sent.sequence) && QueueFaithful(s, s.streamId, sent, mem)
    requires Holds(s, sent.sequence) ==> Faithful(BlockAt(s, sent.sequence), sent, mem)
    ensures Faithful(BlockAt(Apply(s, e), sent.sequence), sent, mem')
  {
    hide Apply, Enabled, Inv, Writes, WellCut, Faithful, QueueFaithful, Holds, BlockAt;
    if Holds(s, sent.sequence) {
      OneStep(s, e, sent, mem, mem');
    } else {
      BlockIsBorn(s, e, sent, mem, mem');
    }
  }

  /** What is known of a block that has been followed from state i to state j. */
  ghost predicate Followed(tr: seq<Sink>, es: seq<Event>, q: int, numFrames: nat, i: nat, j: nat)
    requires |tr| == |es| + 1 && i <= j < |tr| && Holds(tr[i], q) && Holds(tr[j], q)
  {
    var b, b' := BlockAt(tr[i], q), BlockAt(tr[j], q);
    && tr[j].streamId == tr[i].streamId
    && b.frames.Keys <= b'.frames.Keys && (!b.Placeholder() ==> !b'.Placeholder())
    && forall k | i <= k < j && Sorts(tr[k], es[k], q) ::
         !b'.Placeholder() && (numFrames > 0 ==> tr[k].queue[0].frameIndex in b'.frames)
  }

  /** A block that stays in the buffer never loses a frame, and gets those that are sorted in. */
  lemma {:induction false} Follow(tr: seq<Sink>, es: seq<Event>, mem: seq<Content>, id: int, sent: Sent, i: nat, j: nat)
    requires Run(tr, es, mem, id, sent) && i <= j < |tr| && tr[i].streamId == id
    requires forall k | i <= k <= j :: Holds(tr[k], sent.sequence)
    ensures |tr| == |es| + 1 && Followed(tr, es, sent.sequence, sent.numFrames, i, j)
    decreases j - i
  {
    if i < j {
      Follow(tr, es, mem, id, sent, i, j - 1);
      FollowStep(tr, es, mem, id, sent, i, j - 1);
    } else {
      hide Run;
    }
  }

  lemma FollowStep(tr: seq<Sink>, es: seq<Event>, mem: seq<Content>, id: int, sent: Sent, i: nat, j: nat)
    requires Run(tr, es, mem, id, sent) && |tr| == |es| + 1 && i <= j < |es| && tr[i].streamId == id
    requires Holds(tr[i], sent.sequence) && Holds(tr[j], sent.sequence) && Holds(tr[j + 1], sent.sequence)
    requires Followed(tr, es, sent.sequence, sent.numFrames, i, j)
    ensures Followed(tr, es, sent.sequence, sent.numFrames, i, j + 1)
  {
    hide Run, Inv, Apply, Enabled, Faithful, QueueFaithful, Writes, GoodArrival, Sorts, Holds, BlockAt, WellCut;
    RunStep(tr, es, mem, id, sent, j);
    QueueAlwaysFaithful(tr, es, mem, id, sent, j);
    BlockAlwaysFaithful(tr, es, mem, id, sent, j);
    OneStep(tr[j], es[j], sent, mem[j], mem[j + 1]);
  }

  lemma OnlySortAdds(s: Sink, e: Event, q: int)
    requires Inv(s) && Enabled(s, e) && !Holds(s, q) && Holds(Apply(s, e), q)
    ensures e.Sort?
  {
    hide TryDecode, AddPacket, JitterFrames, QueueFrames, Linear, BlocksOk, QueueFits, QueueAgrees, Conforms, Purge;
    match e {
      case Decode(env) =>
        var k := DecodeSuffix(s, env);
        SuffixRange(s, Apply(s, e), k, q);
      case Update(c, l) => ResizeCore(s, c, l);
      case Start(_, _, _, _, _, _, _, _) => StartEmpties(s, e);
      case _ =>
    }
  }

  lemma SuffixRange(s: Sink, t: Sink, k: nat, q: int)
    requires Ordered(s.jitter) && k <= |s.jitter.blocks| && t.jitter.blocks == s.jitter.blocks[k..]
    ensures Holds(t, q) ==> Holds(s, q)
  {
    if Holds(t, q) {
      assert t.jitter.blocks[0] == s.jitter.blocks[k];
      assert s.jitter.blocks[k].sequence == s.jitter.blocks[0].sequence + k;
    }
  }

  lemma SortBirth(s: Sink, q: int)
    requires Inv(s) && Enabled(s, Sort) && !Holds(s, q) && Holds(Apply(s, Sort), q)
    ensures var t, d := Apply(s, Sort), s.queue[0];
            && t.streamId == s.streamId
            && (BlockAt(t, q) == Hole(q)
                || (d.sequence == q && d.streamId == s.streamId && BlockAt(t, q) == AddFrame(NewBlock(d), d)))
  {
    hide AddPacket, JitterFrames, QueueFrames, Linear, BlocksOk, QueueFits, QueueAgrees, AddFrame, NewBlock;
    SequenceInRange(s);
    var s1 := s.(queue := s.queue[1..]);
    AddPacketFrame(s1, s.queue[0]);
    SortBlock(s1, s.queue[0], q);
  }

  /** Some event from i to j sorts in a packet of the block with this frame index. */
  ghost predicate SortedIn(tr: seq<Sink>, es: seq<Event>, i: nat, j: nat, q: int, index: nat)
    requires |tr| == |es| + 1 && i <= j < |tr|
  {
    exists k | i <= k < j :: Sorts(tr[k], es[k], q) && tr[k].queue[0].frameIndex == index
  }

  /** The replies to the requests for block b, as the source finds the block in its history, are sorted in. */
  ghost predicate RepliesSorted(tr: seq<Sink>, es: seq<Event>, i: nat, j: nat, b: Block, buf: seq<Sent>, head: nat, size: nat)
    requires |tr| == |es| + 1 && i <= j < |tr| && Layout(buf, head, size) && forall x | x in buf :: WellCut(x)
  {
    forall a | 0 <= a < |Requests(b)| ::
      var found := Lookup(buf, head, size, Requests(b)[a].sequence);
      found.Some? ==>
        forall c | 0 <= c < |Reply(buf[found.value], Requests(b)[a])| ::
          SortedIn(tr, es, i, j, b.sequence, Reply(buf[found.value], Requests(b)[a])[c].index)
  }

  /**
   End to end, over any run of the sink from its first event on: an incomplete block is in the
   jitter buffer and stays there from state i to state j, whatever else arrives, is sorted in,
   played, trimmed or freed in between. Its requests reach a source whose history still holds the block and has not wrapped
   around. Once the replies have been sorted in, the block is complete and its frames, read in
   order out of the recycled frame memory, are the bytes that were sent.
   */
  lemma ResentBlockIsRecovered(tr: seq<Sink>, es: seq<Event>, mem: seq<Content>, id: int, sent: Sent, i: nat, j: nat,
                               buf: seq<Sent>, head: nat, size: nat)
    requires Run(tr, es, mem, id, sent) && i <= j < |tr| && tr[i].streamId == id
    requires forall k | i <= k <= j :: Holds(tr[k], sent.sequence)
    requires Layout(buf, head, size) && (forall x | x in buf :: WellCut(x))
    requires sent in HeldIn(buf, head, size) && Successive(HeldIn(buf, head, size)) && !Wraps(HeldIn(buf, head, size))
    requires !BlockAt(tr[i], sent.sequence).Complete()
    requires RepliesSorted(tr, es, i, j, BlockAt(tr[i], sent.sequence), buf, head, size)
    ensures var b := BlockAt(tr[j], sent.sequence);
            && b.Complete() && b.numFrames == sent.numFrames && (forall k | 0 <= k < b.numFrames :: k in b.frames)
            && Copied(b.frames, mem[j], b.numFrames) == sent.data
  {
    var q := sent.sequence;
    var b, b' := BlockAt(tr[i], q), BlockAt(tr[j], q);
    Follow(tr, es, mem, id, sent, i, j);
    BlockAlwaysFaithful(tr, es, mem, id, sent, i);
    BlockAlwaysFaithful(tr, es, mem, id, sent, j);
    var slot := FoundInHistory(sent, buf, head, size);
    forall k | 0 <= k < sent.numFrames ensures k in b'.frames {
      if k !in b.frames {
        ReplyIsSorted(tr, es, i, j, sent, buf, head, size, slot, k);
      }
    }
    if b.Placeholder() {
      SomethingIsSorted(tr, es, i, j, sent, buf, head, size, slot);
    }
    hide Run, RepliesSorted;
    CompleteMeansAllFrames(b', sent.numFrames);
    CompleteYieldsData(b', sent, mem[j]);
  }

  lemma FoundInHistory(sent: Sent, buf: seq<Sent>, head: nat, size: nat) returns (slot: nat)
    requires Layout(buf, head, size) && sent in HeldIn(buf, head, size)
    requires Successive(HeldIn(buf, head, size)) && !Wraps(HeldIn(buf, head, size))
    ensures slot < |buf| && Lookup(buf, head, size, sent.sequence) == Some(slot) && buf[slot] == sent
  {
    var held := HeldIn(buf, head, size);
    var i :| 0 <= i < |held| && held[i] == sent;
    SuccessiveIncreases(held);
    IncreasingIsFound(buf, head, size, i);
    HeldAt(buf, head, size, i);
    slot := SlotOf(|buf|, head, size, i);
  }

  lemma ReplyIsSorted(tr: seq<Sink>, es: seq<Event>, i: nat, j: nat, sent: Sent, buf: seq<Sent>, head: nat, size: nat,
                      slot: nat, k: nat)
    requires |tr| == |es| + 1 && i <= j < |tr| && WellCut(sent) && Layout(buf, head, size) && forall x | x in buf :: WellCut(x)
    requires slot < |buf| && Lookup(buf, head, size, sent.sequence) == Some(slot) && buf[slot] == sent
    requires Holds(tr[i], sent.sequence)
    requires var b := BlockAt(tr[i], sent.sequence);
             && b.sequence == sent.sequence && BlockOk(b, sent.numFrames) && !b.Complete() && k < sent.numFrames && k !in b.frames
             && RepliesSorted(tr, es, i, j, b, buf, head, size)
    ensures SortedIn(tr, es, i, j, sent.sequence, k)
  {
    var b := BlockAt(tr[i], sent.sequence);
    RequestsAskExactly(b, sent.numFrames, k);
    hide Requests, Asked, Lookup, SortedIn, BlockOk, WellCut;
    var rs := Requests(b);
    var a :| 0 <= a < |rs| && k in Asked(rs[a], sent.numFrames);
    var asked := Asked(rs[a], sent.numFrames);
    var c :| 0 <= c < |asked| && asked[c] == k;
    assert Reply(sent, rs[a])[c].index == k;
  }

  lemma SomethingIsSorted(tr: seq<Sink>, es: seq<Event>, i: nat, j: nat, sent: Sent, buf: seq<Sent>, head: nat, size: nat, slot: nat)
    requires |tr| == |es| + 1 && i <= j < |tr| && WellCut(sent) && Layout(buf, head, size) && forall x | x in buf :: WellCut(x)
    requires slot < |buf| && Lookup(buf, head, size, sent.sequence) == Some(slot) && buf[slot] == sent
    requires Holds(tr[i], sent.sequence)
    requires var b := BlockAt(tr[i], sent.sequence);
             && b.sequence == sent.sequence && BlockOk(b, sent.numFrames) && b.Placeholder()
             && RepliesSorted(tr, es, i, j, b, buf, head, size)
    ensures SortedIn(tr, es, i, j, sent.sequence, 0)
  {
    var b := BlockAt(tr[i], sent.sequence);
    if sent.numFrames > 0 {
      ReplyIsSorted(tr, es, i, j, sent, buf, head, size, slot, 0);
    } else {
      hide Lookup, SortedIn;
      var r := Requests(b)[0];
      assert r.sequence == sent.sequence && Reply(sent, r)[0].index == 0;
    }
  }

  // ---------------------------------------------------------------- the stored frames

  /** The storage of a received block has the frames of the block, with the bytes that are in them. */
  ghost predicate Stores(storage: FrameStorage.FrameStorage, b: Block, mem: Content)
    reads storage
  {
    && storage.size == b.numFrames && storage.frames.Keys == b.frames.Keys
    && forall k | k in b.frames :: storage.frames[k].data == mem(b.frames[k])
  }

  /** received_block::add_frame on the storage is AddFrame on the block. */
  method StoreFrame(storage: FrameStorage.FrameStorage, node: FrameStorage.Node, b: Block, d: Packet, ghost mem: Content)
    requires storage.Valid() && Stores(storage, b, mem) && node !in storage.frames.Values
    requires d.frame.Some? && d.frameIndex < b.numFrames && d.frameIndex !in b.frames && node.data == mem(d.frame.value)
    modifies storage, storage.slots, storage.bitset, node, storage.frames.Values
    ensures storage.Valid() && Stores(storage, AddFrame(b, d), mem)
  {
    storage.AddFrame(d.frameIndex, node);
  }

  lemma {:induction false} PartsAreCopied(nodes: map<nat, FrameStorage.Node>, frames: map<nat, nat>, mem: Content, n: nat)
    requires forall k | 0 <= k < n :: k in nodes && k in frames && nodes[k].data == mem(frames[k])
    ensures Concat(FrameStorage.Parts(nodes, n)) == Copied(frames, mem, n)
  {
    if n == 0 {
      ConcatNone();
    } else {
      PartsAreCopied(nodes, frames, mem, n - 1);
      FrameStorage.PartsStep(nodes, n - 1);
      hide Concat, FrameStorage.Parts;
    }
  }

  /** copy_frames() on the slots or the linked list of a complete block yields the bytes that were sent. */
  method CopySent(storage: FrameStorage.FrameStorage, b: Block, ghost sent: Sent, ghost mem: Content) returns (out: Data)
    requires storage.Valid() && Stores(storage, b, mem)
    requires WellCut(sent) && Faithful(b, sent, mem) && !b.Placeholder() && b.Complete()
    ensures out == sent.data
  {
    CompleteYieldsData(b, sent, mem);
    hide Faithful, Chunk;
    assert |storage.frames| == |storage.frames.Keys| && |b.frames| == |b.frames.Keys|;
    out := storage.CopyFrames();
    PartsAreCopied(storage.frames, b.frames, mem, b.numFrames);
  }
}
