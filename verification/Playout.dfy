/**
 The playout state machine of aoo/src/sink.cpp (try_decode_block with its low-latency branches)
 and whole runs of the sink: packets arriving, being sorted in, blocks being played, underruns,
 restarts. The decoder, the resampler and the clocks appear as the choices in `Env`.

 BUFFER_METHOD is the default BUFFER_BLOCKS_AND_SAMPLES; sample positions are unbounded.
 */
module Playout {
  import opened Wrappers
  import opened Arithmetic
  import opened JitterBuffer
  import opened Receive

  /** The fourth block in a row that cannot be played forces a new start. */
  const MAX_MISSING: nat := 4

  /** What one call of try_decode_block sees of its surroundings. */
  datatype Env = Env(
    target: Option<nat>,     // a new target latency in frames was requested
    stopped: bool,           // a stop message has arrived
    early: bool,             // fewer than latency_samples_ samples have elapsed
    overdue: bool,           // more than four times latency_samples_ have elapsed
    writable: bool)          // the resampler is bypassed or takes the decoded block

  /** `played` is the complete block that was decoded, `trimmed` are complete blocks that were skipped. */
  datatype Outcome = Outcome(sink: Sink, ok: bool, played: Option<Block>, trimmed: seq<Block>)

  /** Number of leading complete blocks. */
  function CompletePrefix(blocks: seq<Block>): (n: nat)
    ensures n <= |blocks|
    ensures forall i | 0 <= i < n :: blocks[i].Complete()
    ensures n < |blocks| ==> !blocks[n].Complete()
  {
    if blocks == [] || !blocks[0].Complete() then 0 else 1 + CompletePrefix(blocks[1..])
  }

  function Max(a: nat, b: nat): nat { if a > b then a else b }

  /** The sample position right after a block. */
  function BlockEnd(s: Sink, b: Block): nat { b.position + Max(b.blockFrames, s.blockSize) }

  /** Popping a block and never going back before its end. */
  function Skip(s: Sink): Sink
    requires s.jitter.blocks != []
  {
    PopFront(s).(lastPosition := Max(s.lastPosition, BlockEnd(s, s.jitter.blocks[0])))
  }

  function Trim(s: Sink, n: nat): Sink
    requires n <= |s.jitter.blocks|
    decreases n
  {
    if n == 0 then s else Trim(Skip(s), n - 1)
  }

  /** The wired profile drops an incomplete front block when enough complete blocks wait behind it. */
  function DropStale(s: Sink): Sink
    decreases |s.jitter.blocks|
  {
    var bs := s.jitter.blocks;
    if bs == [] || bs[0].Complete() || CompletePrefix(bs[1..]) < s.latencyBlocks then s
    else DropStale(Skip(s))
  }

  /** low_latency_resident_blocks() */
  function ResidentBlocks(targetFrames: nat, blockFrames: nat): (n: nat)
    ensures n >= 1
    ensures targetFrames > 0 && blockFrames > 0 ==> (n - 2) * blockFrames < targetFrames <= (n - 1) * blockFrames
  {
    if targetFrames == 0 || blockFrames == 0 then 1
    else (targetFrames + blockFrames - 1) / blockFrames + 1
  }

  function Retarget(s: Sink, env: Env): Sink {
    if !s.lowLatency || env.target.None? then s
    else
      var blocks := ResidentBlocks(env.target.value, s.blockSize);
      if blocks > s.latencyBlocks && s.state == Active then s.(latencyBlocks := blocks, state := Buffering)
      else s.(latencyBlocks := blocks)
  }

  /** Complete blocks beyond the target are dropped from the front (wired profile). */
  function Surplus(s: Sink): nat {
    var n := CompletePrefix(s.jitter.blocks);
    if s.lowLatency && s.wired && n > s.latencyBlocks then n - s.latencyBlocks else 0
  }

  /** The jitter buffer as the buffering phase leaves it before it decides. */
  function Settled(s: Sink): Sink {
    var s1 := if s.lowLatency && s.wired then DropStale(s) else s;
    Trim(s1, Surplus(s1))
  }

  /** The complete blocks the buffering phase skips to get there. */
  function SettledTrimmed(s: Sink): seq<Block> {
    var s1 := if s.lowLatency && s.wired then DropStale(s) else s;
    s1.jitter.blocks[..Surplus(s1)]
  }

  predicate KeepBuffering(s: Sink, env: Env) {
    env.early || |s.jitter.blocks| < s.latencyBlocks
    || (s.lowLatency && CompletePrefix(s.jitter.blocks) < s.latencyBlocks)
  }

  /** One more block that could not be played. */
  function CountMiss(s: Sink): Sink {
    if s.missing + 1 >= MAX_MISSING then ResetJitter(s).(missing := 0, state := Buffering)
    else s.(missing := s.missing + 1)
  }

  /** Nothing to play. */
  function PlayNothing(s: Sink, env: Env): Outcome
    requires s.jitter.blocks == []
  {
    if s.lowLatency && s.state == Active && env.writable then
      var s1 := s.(jitter := AdvanceMissing(s.jitter), lastPosition := s.lastPosition + s.blockSize);
      Outcome(CountMiss(s1), true, None, [])
    else Outcome(s, false, None, [])
  }

  /** Playing, or dropping, the front block. */
  function PlayFront(s: Sink, env: Env): Outcome
    requires s.jitter.blocks != []
  {
    var b := s.jitter.blocks[0];
    if !env.writable then Outcome(PopFront(s), false, None, [])
    else if !s.lowLatency then Outcome(PopFront(s), true, if b.Complete() then Some(b) else None, [])
    else if b.Complete() then Outcome(Skip(s).(missing := 0), true, Some(b), [])
    else
      var s1 := CountMiss(s.(lastPosition := s.lastPosition + s.blockSize));
      Outcome(if s.missing + 1 >= MAX_MISSING then s1 else PopFront(s1), true, None, [])
  }

  function ActiveSurplus(s: Sink): nat { if s.state == Active then Surplus(s) else 0 }

  /** The state from which a block is decoded. */
  function Decoding(s: Sink): Sink { Trim(s, ActiveSurplus(s)) }

  /** The part of try_decode_block after buffering. */
  function Play(s: Sink, env: Env): Outcome {
    var s1 := Decoding(s);
    var o := if s1.jitter.blocks == [] then PlayNothing(s1, env) else PlayFront(s1, env);
    o.(trimmed := s.jitter.blocks[..ActiveSurplus(s)])
  }

  /** The state in which a call decides what to play, if it gets that far. */
  function AtPlay(s: Sink, env: Env): Option<Sink> {
    var s1 := Retarget(s, env);
    if s1.state != Buffering then Some(s1)
    else if env.stopped || KeepBuffering(Settled(s1), env) then None
    else Some(Settled(s1).(state := Active))
  }

  /** try_decode_block() */
  function TryDecode(s: Sink, env: Env): Outcome {
    var s1, p := Retarget(s, env), AtPlay(s, env);
    if p.Some? then
      var o := Play(p.value, env);
      if s1.state == Buffering then o.(trimmed := SettledTrimmed(s1) + o.trimmed) else o
    else if env.stopped then Outcome(s1, false, None, [])
    else Outcome(Settled(s1), env.writable && (s.lowLatency || !env.overdue), None, SettledTrimmed(s1))
  }

  // ---------------------------------------------------------------- prefixes and trimming

  lemma {:induction false} TrimBlocks(s: Sink, n: nat)
    requires n <= |s.jitter.blocks|
    ensures Trim(s, n).jitter.blocks == s.jitter.blocks[n..]
    ensures var t := Trim(s, n); t == s.(jitter := t.jitter, free := t.free, lastPosition := t.lastPosition)
    ensures Trim(s, n).jitter.capacity == s.jitter.capacity
    ensures s.lastPosition <= Trim(s, n).lastPosition
    ensures forall i | 0 <= i < n :: BlockEnd(s, s.jitter.blocks[i]) <= Trim(s, n).lastPosition
    decreases n
  {
    if n > 0 {
      TrimBlocks(Skip(s), n - 1);
      var t := Trim(s, n);
      forall i | 0 <= i < n ensures BlockEnd(s, s.jitter.blocks[i]) <= t.lastPosition {
        if i > 0 {
          assert s.jitter.blocks[i] == Skip(s).jitter.blocks[i - 1];
          assert BlockEnd(s, s.jitter.blocks[i]) == BlockEnd(Skip(s), Skip(s).jitter.blocks[i - 1]);
        }
      }
    }
  }

  lemma {:induction false} PrefixAfterTrim(blocks: seq<Block>, n: nat)
    requires n <= CompletePrefix(blocks)
    ensures CompletePrefix(blocks[n..]) == CompletePrefix(blocks) - n
  {
    if n > 0 {
      PrefixAfterTrim(blocks[1..], n - 1);
      assert blocks[1..][n - 1..] == blocks[n..];
    } else {
      assert blocks[0..] == blocks;
    }
  }

  /** The stale-front loop drops at most one block. */
  lemma StaleDropsOne(s: Sink)
    requires s.latencyBlocks >= 1
    ensures DropStale(s) == s || (s.jitter.blocks != [] && DropStale(s) == Skip(s))
    ensures DropStale(s) != s ==> !s.jitter.blocks[0].Complete() && CompletePrefix(DropStale(s).jitter.blocks) >= s.latencyBlocks
  {
    var bs := s.jitter.blocks;
    if !(bs == [] || bs[0].Complete() || CompletePrefix(bs[1..]) < s.latencyBlocks) {
      assert Skip(s).jitter.blocks == bs[1..];
      assert bs[1..][0].Complete();
      assert DropStale(Skip(s)) == Skip(s);
    }
  }

  lemma SurplusTrimmed(s: Sink)
    ensures Surplus(s) <= |s.jitter.blocks|
    ensures var t := Trim(s, Surplus(s));
            CompletePrefix(t.jitter.blocks) == CompletePrefix(s.jitter.blocks) - Surplus(s)
    ensures s.lowLatency && s.wired ==> CompletePrefix(Trim(s, Surplus(s)).jitter.blocks) <= s.latencyBlocks
  {
    TrimBlocks(s, Surplus(s));
    PrefixAfterTrim(s.jitter.blocks, Surplus(s));
  }

  lemma SettledFrame(s: Sink)
    ensures var t := Settled(s); t == s.(jitter := t.jitter, free := t.free, lastPosition := t.lastPosition)
    ensures s.lastPosition <= Settled(s).lastPosition
    ensures Settled(s).jitter.capacity == s.jitter.capacity
    ensures forall b | b in SettledTrimmed(s) :: b.Complete() && BlockEnd(s, b) <= Settled(s).lastPosition
    ensures s.lowLatency && s.wired ==> CompletePrefix(Settled(s).jitter.blocks) <= s.latencyBlocks
  {
    var s1 := if s.lowLatency && s.wired then DropStale(s) else s;
    DropStaleFrame(s);
    SurplusTrimmed(s1);
    TrimBlocks(s1, Surplus(s1));
    forall b | b in SettledTrimmed(s) ensures b.Complete() && BlockEnd(s, b) <= Settled(s).lastPosition {
      var i :| 0 <= i < Surplus(s1) && s1.jitter.blocks[i] == b;
      assert BlockEnd(s1, b) == BlockEnd(s, b);
    }
  }

  lemma {:induction false} DropStaleFrame(s: Sink)
    ensures var t := DropStale(s); t == s.(jitter := t.jitter, free := t.free, lastPosition := t.lastPosition)
    ensures s.lastPosition <= DropStale(s).lastPosition
    ensures DropStale(s).jitter.capacity == s.jitter.capacity
    decreases |s.jitter.blocks|
  {
    var bs := s.jitter.blocks;
    if !(bs == [] || bs[0].Complete() || CompletePrefix(bs[1..]) < s.latencyBlocks) {
      DropStaleFrame(Skip(s));
    }
  }

  // ---------------------------------------------------------------- low-latency playout

  /**
   A call leaves "buffering" for "active" only with the full number of leading complete blocks,
   and with exactly that number in the wired profile.
   */
  lemma DepthAtEntry(s: Sink, env: Env)
    requires s.lowLatency && Retarget(s, env).state == Buffering && AtPlay(s, env).Some?
    ensures var p := AtPlay(s, env).value;
            && p.state == Active && p.lowLatency && p.wired == s.wired && p.latencyBlocks == Retarget(s, env).latencyBlocks
            && CompletePrefix(p.jitter.blocks) >= p.latencyBlocks
            && (s.wired ==> CompletePrefix(p.jitter.blocks) == p.latencyBlocks)
  {
    hide CompletePrefix;
    SettledFrame(Retarget(s, env));
    hide Settled;
  }

  /** In the wired profile an active stream decodes with no more complete blocks than the target. */
  lemma PrefixAtDecoding(s: Sink)
    requires s.lowLatency && s.wired && s.state == Active
    ensures CompletePrefix(Decoding(s).jitter.blocks) <= s.latencyBlocks
  {
    SurplusTrimmed(s);
  }

  /** What is left of the leading complete blocks when one of them has been played. */
  lemma PrefixAfterPlay(s: Sink, env: Env)
    requires s.lowLatency && s.state == Active && env.writable && CompletePrefix(s.jitter.blocks) >= 1
    requires s.wired ==> s.latencyBlocks >= 1
    ensures var o := Play(s, env);
            && Decoding(s).jitter.blocks != []
            && o.played == Some(Decoding(s).jitter.blocks[0]) && Decoding(s).jitter.blocks[0].Complete()
            && o.sink.state == Active && o.sink.latencyBlocks == s.latencyBlocks
            && CompletePrefix(o.sink.jitter.blocks) == CompletePrefix(s.jitter.blocks) - ActiveSurplus(s) - 1
  {
    hide JitterFrames, BlockFrames;
    SurplusTrimmed(s);
    TrimBlocks(s, ActiveSurplus(s));
    var d := Decoding(s);
    hide Trim;
    assert CompletePrefix(d.jitter.blocks) >= 1;
    PrefixAfterTrim(d.jitter.blocks, 1);
  }

  /** The counter of missed blocks stays below four. */
  lemma MissingStaysBounded(s: Sink, env: Env)
    requires s.missing < MAX_MISSING
    ensures TryDecode(s, env).sink.missing < MAX_MISSING
  {
    hide DropStale, CompletePrefix, Trim, JitterFrames, BlockFrames, Play;
    var s1 := Retarget(s, env);
    SettledFrame(s1);
    PlayMissing(s1, env);
    PlayMissing(Settled(s1).(state := Active), env);
  }

  /**
   A call of an active low-latency stream that plays something clears the counter; one that has
   nothing complete to play counts, and the fourth in a row empties the buffer and restarts
   buffering.
   */
  lemma FourthMissRestarts(s: Sink, env: Env)
    requires s.lowLatency && s.missing < MAX_MISSING && env.writable
    requires AtPlay(s, env).Some? && AtPlay(s, env).value.state == Active
    ensures var o := TryDecode(s, env);
            && o.ok
            && (o.played.Some? ==> o.sink.missing == 0 && o.sink.state == Active)
            && (o.played.None? && s.missing < MAX_MISSING - 1 ==> o.sink.missing == s.missing + 1 && o.sink.state == Active)
            && (o.played.None? && s.missing == MAX_MISSING - 1
                ==> o.sink.missing == 0 && o.sink.state == Buffering && o.sink.jitter.blocks == [])
  {
    hide DropStale, CompletePrefix, Trim, JitterFrames, BlockFrames, Play;
    var s1 := Retarget(s, env);
    SettledFrame(s1);
    PlayMissing(s1, env);
    PlayMissing(Settled(s1).(state := Active), env);
  }

  lemma PlayMissing(s: Sink, env: Env)
    requires s.missing < MAX_MISSING
    ensures var o := Play(s, env);
            && o.sink.missing < MAX_MISSING
            && (s.lowLatency && s.state == Active && env.writable ==>
                  && o.ok
                  && (o.played.Some? ==> o.sink.missing == 0 && o.sink.state == Active)
                  && (o.played.None? && s.missing < MAX_MISSING - 1 ==> o.sink.missing == s.missing + 1 && o.sink.state == Active)
                  && (o.played.None? && s.missing == MAX_MISSING - 1
                      ==> o.sink.missing == 0 && o.sink.state == Buffering && o.sink.jitter.blocks == []))
  {
    hide CompletePrefix, Trim, JitterFrames, BlockFrames;
    SurplusTrimmed(s);
    TrimBlocks(s, ActiveSurplus(s));
  }

  // ---------------------------------------------------------------- the playout position

  lemma PlayPosition(s: Sink, env: Env)
    ensures var o := Play(s, env);
            && s.lastPosition <= o.sink.lastPosition
            && (s.lowLatency && o.played.Some? ==> BlockEnd(s, o.played.value) <= o.sink.lastPosition)
            && (forall b | b in o.trimmed :: BlockEnd(s, b) <= o.sink.lastPosition)
            && o.sink.streamId == s.streamId && o.sink.lowLatency == s.lowLatency && o.sink.blockSize == s.blockSize
  {
    hide CompletePrefix, Trim, JitterFrames, BlockFrames;
    var n := ActiveSurplus(s);
    SurplusTrimmed(s);
    TrimBlocks(s, n);
    forall b | b in s.jitter.blocks[..n] ensures BlockEnd(s, b) <= Trim(s, n).lastPosition {
      var i :| 0 <= i < n && s.jitter.blocks[i] == b;
    }
  }

  /** No call moves the playout position back, and it ends up past every block played or trimmed. */
  lemma PositionNeverDecreases(s: Sink, env: Env)
    ensures var o := TryDecode(s, env);
            && s.lastPosition <= o.sink.lastPosition
            && (s.lowLatency && o.played.Some? ==> BlockEnd(s, o.played.value) <= o.sink.lastPosition)
            && (forall b | b in o.trimmed :: BlockEnd(s, b) <= o.sink.lastPosition)
            && o.sink.streamId == s.streamId && o.sink.lowLatency == s.lowLatency && o.sink.blockSize == s.blockSize
  {
    hide Play, DropStale, CompletePrefix, Trim, Settled, SettledTrimmed;
    var s1 := Retarget(s, env);
    SettledFrame(s1);
    PlayPosition(s1, env);
    PlayPosition(Settled(s1).(state := Active), env);
  }

  // ---------------------------------------------------------------- whole runs

  datatype Event =
    | Arrive(d: Packet, f: nat)            // the network thread receives a packet
    | Sort                                 // the audio thread takes one packet from the queue
    | Decode(env: Env)                     // the audio thread needs a block
    | Recover                              // handle_underrun
    | Deactivate
    | Activate
    | Update(capacity: nat, latencyBlocks: nat)   // at least one block of latency, which the buffer holds
    | Start(streamId: int, sequence: int, lowLatency: bool, wired: bool, blockSize: nat,
            capacity: nat, latencyBlocks: nat, formatChanged: bool)

  /** update(): the jitter buffer is resized; the frame memory is released if its size has changed. */
  function Resize(s: Sink, capacity: nat, latencyBlocks: nat): Sink {
    var s1 := ResetJitter(s).(jitter := Fresh(capacity), latencyBlocks := latencyBlocks);
    if capacity != s.jitter.capacity then Purge(s1) else s1
  }

  /** flush_packet_queue() followed by release_memory() */
  function Purge(s: Sink): Sink { ReleaseMemory(FlushQueue(s)) }

  function StartStream(s: Sink, e: Event): Sink
    requires e.Start?
  {
    var s1 := s.(streamId := e.streamId, lowLatency := e.lowLatency, wired := e.wired, blockSize := e.blockSize,
                 lastPosition := 0, missing := 0);
    var s2 := Resize(s1, e.capacity, e.latencyBlocks);
    var s3 := if e.formatChanged then Purge(s2) else s2;
    s3.(jitter := ResetHead(s3.jitter, e.sequence - 1))
  }

  ghost predicate Enabled(s: Sink, e: Event) {
    match e
    case Arrive(d, f) => Conforms(d) && Fits(s, d) && Allocatable(s, f)
    case Sort => s.queue != []
    case Update(c, l) => 1 <= l <= c
    case Start(_, q, _, _, _, c, l, _) => 0 <= q < INT32_MAX && 1 <= l <= c
    case _ => true
  }

  ghost predicate Inv(s: Sink) {
    && Ordered(s.jitter) && Linear(s)
    && BlocksOk(s.jitter.blocks) && QueueFits(s.queue, s.jitter.blocks, s.streamId) && QueueAgrees(s.queue)
    && (forall i | 0 <= i < |s.queue| :: Conforms(s.queue[i]))
    && s.missing < MAX_MISSING && 1 <= s.latencyBlocks
  }

  function Dequeue(s: Sink): Added
    requires Ordered(s.jitter) && s.queue != [] && 0 <= s.queue[0].sequence < INT32_MAX
  {
    AddPacket(s.(queue := s.queue[1..]), s.queue[0])
  }

  ghost function Apply(s: Sink, e: Event): Sink
    requires Inv(s) && Enabled(s, e)
  {
    match e
    case Arrive(d, f) => HandleData(s, d, f)
    case Sort => Dequeue(s).sink
    case Decode(env) =>
      var o := TryDecode(s, env);
      if o.ok then o.sink else o.sink.(state := Inactive) // on_underrun
    case Recover => ResetJitter(s).(state := Buffering)
    case Deactivate => s.(state := Inactive)
    case Activate => s.(state := Buffering)
    case Update(c, l) => Resize(s, c, l)
    case Start(_, _, _, _, _, _, _, _) => StartStream(s, e)
  }

  // the parts of the invariant that concern the buffer and its frames
  ghost predicate Core(s: Sink) {
    Ordered(s.jitter) && Linear(s) && BlocksOk(s.jitter.blocks) && QueueFits(s.queue, s.jitter.blocks, s.streamId)
  }

  lemma PopCore(s: Sink)
    requires Core(s) && s.jitter.blocks != []
    ensures Core(PopFront(s)) && Core(Skip(s))
  {
    PopKeepsOrder(s.jitter);
    PopLinear(s);
  }

  lemma ResetCore(s: Sink)
    requires Core(s)
    ensures Core(ResetJitter(s))
  {
    ResetLinear(s);
  }

  lemma {:induction false} TrimCore(s: Sink, n: nat)
    requires Core(s) && n <= |s.jitter.blocks|
    ensures Core(Trim(s, n))
    decreases n
  {
    if n > 0 {
      PopCore(s);
      TrimCore(Skip(s), n - 1);
    }
  }

  lemma {:induction false} DropStaleCore(s: Sink)
    requires Core(s)
    ensures Core(DropStale(s))
    decreases |s.jitter.blocks|
  {
    var bs := s.jitter.blocks;
    if !(bs == [] || bs[0].Complete() || CompletePrefix(bs[1..]) < s.latencyBlocks) {
      PopCore(s);
      DropStaleCore(Skip(s));
    }
  }

  lemma SettledCore(s: Sink)
    requires Core(s)
    ensures Core(Settled(s))
  {
    DropStaleCore(s);
    var s1 := if s.lowLatency && s.wired then DropStale(s) else s;
    SurplusTrimmed(s1);
    TrimCore(s1, Surplus(s1));
  }

  lemma CountMissCore(s: Sink)
    requires Core(s)
    ensures Core(CountMiss(s))
  {
    ResetCore(s);
  }

  /** Fields other than the buffer, the queue, the frames and the stream do not matter to the core. */
  lemma CoreFrame(s: Sink, t: Sink)
    requires Core(s)
    requires t.jitter == s.jitter && t.queue == s.queue && t.free == s.free && t.stock == s.stock && t.streamId == s.streamId
    ensures Core(t)
  {
  }

  lemma PlayNothingCore(s: Sink, env: Env)
    requires Core(s) && s.jitter.blocks == []
    ensures Core(PlayNothing(s, env).sink)
  {
    AdvanceKeepsOrder(s.jitter);
    var s1 := s.(jitter := AdvanceMissing(s.jitter), lastPosition := s.lastPosition + s.blockSize);
    assert Core(s1);
    CountMissCore(s1);
  }

  lemma PlayFrontCore(s: Sink, env: Env)
    requires Core(s) && s.jitter.blocks != []
    ensures Core(PlayFront(s, env).sink)
  {
    PopCore(s);
    hide Core, Skip;
    CoreFrame(Skip(s), Skip(s).(missing := 0));
    var s0 := s.(lastPosition := s.lastPosition + s.blockSize);
    CoreFrame(s, s0);
    CountMissCore(s0);
    if s.missing + 1 < MAX_MISSING {
      PopCore(CountMiss(s0));
    }
  }

  lemma PlayCore(s: Sink, env: Env)
    requires Core(s)
    ensures Core(Play(s, env).sink)
  {
    hide Core, Trim, PlayNothing, PlayFront;
    SurplusTrimmed(s);
    TrimCore(s, ActiveSurplus(s));
    var s1 := Decoding(s);
    if s1.jitter.blocks == [] {
      PlayNothingCore(s1, env);
    } else {
      PlayFrontCore(s1, env);
    }
  }

  lemma TryDecodeCore(s: Sink, env: Env)
    requires Core(s)
    ensures Core(TryDecode(s, env).sink)
  {
    hide Core, Play, Settled, SettledTrimmed;
    var s1 := Retarget(s, env);
    CoreFrame(s, s1);
    PlayCore(s1, env);
    SettledCore(s1);
    CoreFrame(Settled(s1), Settled(s1).(state := Active));
    PlayCore(Settled(s1).(state := Active), env);
  }

  lemma PlayQueue(s: Sink, env: Env)
    ensures Play(s, env).sink.queue == s.queue && Play(s, env).sink.latencyBlocks == s.latencyBlocks
  {
    hide CompletePrefix, Trim, JitterFrames, BlockFrames;
    SurplusTrimmed(s);
    TrimBlocks(s, ActiveSurplus(s));
  }

  lemma TryDecodeQueue(s: Sink, env: Env)
    ensures TryDecode(s, env).sink.queue == s.queue
    ensures TryDecode(s, env).sink.latencyBlocks == Retarget(s, env).latencyBlocks
    ensures 1 <= s.latencyBlocks ==> 1 <= TryDecode(s, env).sink.latencyBlocks
  {
    hide Play, Settled, SettledTrimmed;
    var s1 := Retarget(s, env);
    SettledFrame(s1);
    PlayQueue(s1, env);
    PlayQueue(Settled(s1).(state := Active), env);
  }

  lemma DecodeKeeps(s: Sink, env: Env)
    requires Inv(s)
    ensures Inv(Apply(s, Decode(env)))
  {
    hide TryDecode, Ordered, Linear, BlocksOk, Conforms;
    TryDecodeCore(s, env);
    MissingStaysBounded(s, env);
    TryDecodeQueue(s, env);
    var t := TryDecode(s, env).sink;
    CoreFrame(t, t.(state := Inactive));
  }

  lemma SortKeeps(s: Sink)
    requires Inv(s) && s.queue != []
    ensures Inv(Apply(s, Sort))
  {
    var d, s1 := s.queue[0], s.(queue := s.queue[1..]);
    assert Conforms(d);
    DequeuedLinear(s);
    AddPacketKeepsOrder(s1, d);
    assert d.streamId == s.streamId ==> Agrees(d, s.jitter.blocks);
    hide Linear, LinearWith;
    AddPacketLinear(s1, d);
    AddPacketBlocksOk(s1, d);
    AddPacketFrame(s1, d);
    RestFits(s);
    hide AddPacket, Ordered, BlocksOk, Conforms, QueueFits;
    assert forall i | 0 <= i < |s1.queue| :: s1.queue[i] == s.queue[i + 1];
  }

  lemma DequeuedLinear(s: Sink)
    requires Linear(s) && s.queue != []
    ensures LinearWith(s.(queue := s.queue[1..]), s.queue[0])
  {
    hide JitterFrames, FramesUpTo, PacketFrames;
    var d, q, f := s.queue[0], QueueFrames(s.queue[1..]), JitterFrames(s.jitter.blocks);
    assert s.free + (PacketFrames(d) + q) + f == s.free + q + f + PacketFrames(d);
  }

  /** The packets behind the one that is sorted in agree with the result. */
  lemma RestFits(s: Sink)
    requires Ordered(s.jitter) && s.queue != [] && Conforms(s.queue[0])
    requires QueueFits(s.queue, s.jitter.blocks, s.streamId) && QueueAgrees(s.queue)
    ensures QueueFits(s.queue[1..], Dequeue(s).sink.jitter.blocks, s.streamId) && QueueAgrees(s.queue[1..])
  {
    hide AddPacket, Ordered, Agrees;
    var rest := s.queue[1..];
    forall k | 0 <= k < |rest| && rest[k].streamId == s.streamId
      ensures Agrees(rest[k], Dequeue(s).sink.jitter.blocks)
    {
      assert rest[k] == s.queue[k + 1] && SameBlock(s.queue[0], s.queue[k + 1]);
      AddPacketAgrees(s.(queue := rest), s.queue[0], rest[k]);
    }
  }

  /** add_packet leaves the queue and the stream parameters alone. */
  lemma AddPacketFrame(s: Sink, d: Packet)
    requires Ordered(s.jitter) && 0 <= d.sequence < INT32_MAX
    ensures var t := AddPacket(s, d).sink;
            t == s.(jitter := t.jitter, free := t.free, state := t.state)
  {
    hide Scan, JitterFrames, PacketFrames, AddNew, AddExisting;
    if d.streamId == s.streamId && !Stale(s, d)
       && !(d.sequence <= s.jitter.lastPopped && s.jitter.lastPopped - d.sequence < INT32_MAX / 2)
    {
      var s1 := if d.sequence <= s.jitter.lastPopped then ResetJitter(s) else s;
      var found := Scan(s1.jitter.blocks, d.sequence);
      if found == None {
        AddNewFrame(s1, d);
      } else {
        AddExistingFrame(s1, d, found.value);
      }
    }
  }

  lemma AddNewFrame(s: Sink, d: Packet)
    requires Ordered(s.jitter) && 0 <= d.sequence < INT32_MAX && s.jitter.lastPopped < d.sequence
    ensures var t := AddNew(s, d).sink; t == s.(jitter := t.jitter, free := t.free, state := t.state)
  {
    hide FillGap, AddFrame, JitterFrames, PacketFrames;
  }

  lemma AddExistingFrame(s: Sink, d: Packet, i: nat)
    requires i < |s.jitter.blocks|
    ensures var t := AddExisting(s, d, i).sink; t == s.(jitter := t.jitter, free := t.free, state := t.state)
  {
    hide AddFrame, PacketFrames;
  }

  lemma ArriveKeeps(s: Sink, d: Packet, f: nat)
    requires Inv(s) && Enabled(s, Arrive(d, f))
    ensures Inv(Apply(s, Arrive(d, f)))
  {
    hide Linear, QueueFrames, JitterFrames, Ordered, BlocksOk, Agrees, Allocatable;
    HandleDataLinear(s, d, f);
    var t := HandleData(s, d, f);
    assert t.jitter == s.jitter && t.streamId == s.streamId && t.missing == s.missing && t.latencyBlocks == s.latencyBlocks;
    if t.queue != s.queue {
      var e := if d.size == 0 then d.(frame := None) else d.(frame := Some(f));
      assert t.queue == s.queue + [e];
      QueuedFits(s, d, e);
    }
  }

  /** The frame of a packet does not matter to what it agrees with. */
  lemma QueuedFits(s: Sink, d: Packet, e: Packet)
    requires QueueFits(s.queue, s.jitter.blocks, s.streamId) && QueueAgrees(s.queue)
    requires (forall i | 0 <= i < |s.queue| :: Conforms(s.queue[i])) && Conforms(d) && Fits(s, d)
    requires e == d.(frame := e.frame) && (e.frame.Some? <==> d.size > 0)
    ensures QueueFits(s.queue + [e], s.jitter.blocks, s.streamId) && QueueAgrees(s.queue + [e])
    ensures forall i | 0 <= i < |s.queue + [e]| :: Conforms((s.queue + [e])[i])
  {
    assert d.streamId == s.streamId ==> Agrees(e, s.jitter.blocks);
  }

  lemma PurgeCore(s: Sink)
    requires Core(s) && s.jitter.blocks == []
    ensures Core(Purge(s)) && Purge(s).stock == {}
    ensures var t := Purge(s); t == s.(queue := [], free := t.free, stock := {})
  {
    NothingLeaks(s);
    assert ResetJitter(s).free == s.free && JitterFrames(s.jitter.blocks) == multiset{};
    assert FlushQueue(ResetJitter(s)).free == FlushQueue(s).free;
  }

  lemma ResizeKeeps(s: Sink, c: nat, l: nat)
    requires Ordered(s.jitter) && Linear(s) && 0 < c
    ensures Core(Resize(s, c, l)) && Resize(s, c, l).jitter == Fresh(c)
    ensures c != s.jitter.capacity ==> Resize(s, c, l).stock == {}
    ensures var t := Resize(s, c, l); t == s.(jitter := t.jitter, queue := t.queue, free := t.free, stock := t.stock, latencyBlocks := l)
    ensures Resize(s, c, l).queue == s.queue || Resize(s, c, l).queue == []
  {
    var s1 := ResetJitter(s).(jitter := Fresh(c), latencyBlocks := l);
    ResetLinear(s);
    assert Core(s1);
    PurgeCore(s1);
  }

  lemma StartKeeps(s: Sink, e: Event)
    requires Inv(s) && e.Start? && Enabled(s, e)
    ensures Inv(StartStream(s, e))
    ensures e.capacity != s.jitter.capacity || e.formatChanged ==> StartStream(s, e).stock == {}
  {
    hide Linear, BlocksOk, QueueFits, Conforms, Ordered, SameBlock, StartStream;
    StartCore(s, e);
  }

  lemma StartCore(s: Sink, e: Event)
    requires Ordered(s.jitter) && Linear(s) && e.Start? && Enabled(s, e)
    ensures var t := StartStream(s, e);
            && Core(t) && t.missing == 0 && t.latencyBlocks == e.latencyBlocks && (t.queue == s.queue || t.queue == [])
            && (e.capacity != s.jitter.capacity || e.formatChanged ==> t.stock == {})
  {
    var s1 := s.(streamId := e.streamId, lowLatency := e.lowLatency, wired := e.wired, blockSize := e.blockSize,
                 lastPosition := 0, missing := 0);
    hide Resize, Linear, Core, Purge, Ordered;
    LinearFrame(s, s1);
    ResizeCore(s1, e.capacity, e.latencyBlocks);
    var s2 := Resize(s1, e.capacity, e.latencyBlocks);
    PurgeIfCore(s2, e.formatChanged);
    var s3 := if e.formatChanged then Purge(s2) else s2;
    HeadCore(s3, e.capacity, e.sequence - 1);
  }

  /** What StartKeeps needs of update(). */
  lemma ResizeCore(s: Sink, c: nat, l: nat)
    requires Ordered(s.jitter) && Linear(s) && 0 < c
    ensures var t := Resize(s, c, l);
            && Core(t) && t.jitter == Fresh(c) && (t.queue == s.queue || t.queue == [])
            && t.missing == s.missing && t.latencyBlocks == l && (c != s.jitter.capacity ==> t.stock == {})
  {
    hide Resize, Core, Ordered, Linear;
    ResizeKeeps(s, c, l);
  }

  lemma PurgeIfCore(s: Sink, b: bool)
    requires Core(s) && s.jitter.blocks == []
    ensures var t := if b then Purge(s) else s;
            && Core(t) && t.jitter == s.jitter && (t.queue == s.queue || t.queue == [])
            && t.missing == s.missing && t.latencyBlocks == s.latencyBlocks && (s.stock == {} || b ==> t.stock == {})
  {
    hide Purge, Core;
    PurgeCore(s);
  }

  lemma LinearFrame(s: Sink, t: Sink)
    requires Linear(s) && t.jitter == s.jitter && t.queue == s.queue && t.free == s.free && t.stock == s.stock
    ensures Linear(t)
  {
  }

  lemma HeadCore(s: Sink, c: nat, q: int)
    requires Core(s) && s.jitter == Fresh(c) && -1 <= q < INT32_MAX
    ensures Core(s.(jitter := ResetHead(s.jitter, q)))
  {
  }

  lemma StepKeeps(s: Sink, e: Event)
    requires Inv(s) && Enabled(s, e)
    ensures Inv(Apply(s, e))
  {
    hide TryDecode, HandleData, Dequeue, Resize, StartStream, Ordered, BlocksOk;
    match e {
      case Arrive(d, f) => ArriveKeeps(s, d, f);
      case Sort => SortKeeps(s);
      case Decode(env) => DecodeKeeps(s, env);
      case Recover => ResetCore(s);
      case Update(c, l) => ResizeKeeps(s, c, l);
      case Start(_, _, _, _, _, _, _, _) => StartKeeps(s, e);
      case _ =>
    }
  }

  /** A run of the sink from a state in which nothing has been received yet. */
  ghost predicate Trace(tr: seq<Sink>, es: seq<Event>) {
    && |tr| == |es| + 1
    && tr[0].jitter.capacity > 0 && tr[0].jitter == Fresh(tr[0].jitter.capacity)
    && tr[0].queue == [] && tr[0].free == multiset{} && tr[0].stock == {} && tr[0].missing == 0
    && 1 <= tr[0].latencyBlocks
    && forall i | 0 <= i < |es| ::
         Enabled(tr[i], es[i]) && (Inv(tr[i]) ==> tr[i + 1] == Apply(tr[i], es[i]))
  }

  /**
   Over every run the buffer holds consecutive sequence numbers ending at last_pushed, every
   frame is in exactly one place, and at most three blocks in a row are counted as missing.
   */
  lemma {:induction false} AlwaysInv(tr: seq<Sink>, es: seq<Event>, i: nat)
    requires Trace(tr, es) && i < |tr|
    ensures Inv(tr[i])
  {
    if i > 0 {
      AlwaysInv(tr, es, i - 1);
      StepKeeps(tr[i - 1], es[i - 1]);
    }
  }

  /**
   In every run, a call that turns a low-latency stream from "buffering" to "active" starts playing
   with at least as many leading complete blocks as the latency asks for, and with exactly that
   many in the wired profile; it plays the first one, so one less is left.
   */
  lemma ActiveOnlyWithFullDepth(tr: seq<Sink>, es: seq<Event>, i: nat)
    requires Trace(tr, es) && i < |es| && es[i].Decode? && tr[i].lowLatency
    requires Retarget(tr[i], es[i].env).state == Buffering && tr[i + 1].state == Active
    ensures var p, n := AtPlay(tr[i], es[i].env), tr[i + 1].latencyBlocks;
            && p.Some? && CompletePrefix(p.value.jitter.blocks) >= n
            && (tr[i].wired ==> CompletePrefix(p.value.jitter.blocks) == n)
    ensures var o, n := TryDecode(tr[i], es[i].env), tr[i + 1].latencyBlocks;
            && o.played.Some? && o.played.value.Complete()
            && CompletePrefix(tr[i + 1].jitter.blocks) >= (if tr[i].wired then 0 else n - 1)
            && (tr[i].wired ==> CompletePrefix(tr[i + 1].jitter.blocks) == n - 1)
  {
    AlwaysInv(tr, es, i);
    var s, env := tr[i], es[i].env;
    SettledFrame(Retarget(s, env));
    assert tr[i + 1] == Apply(s, Decode(env));
    hide Inv, Play, Settled, KeepBuffering, CompletePrefix;
    TryDecodeQueue(s, env);
    DepthAtEntry(s, env);
    var p := AtPlay(s, env).value;
    LatencyPositive(s);
    assert p.latencyBlocks >= 1;
    PlayNeedsWritable(p, env);
    PrefixAfterPlay(p, env);
    WiredSurplus(p);
  }

  lemma LatencyPositive(s: Sink)
    requires Inv(s)
    ensures 1 <= s.latencyBlocks
  {
    hide Ordered, Linear, BlocksOk, QueueFits, QueueAgrees, Conforms;
  }

  lemma PlayNeedsWritable(s: Sink, env: Env)
    requires s.lowLatency && s.state == Active
    ensures !env.writable ==> !Play(s, env).ok
  {
  }

  lemma WiredSurplus(s: Sink)
    requires s.lowLatency && s.state == Active
    ensures s.wired && CompletePrefix(s.jitter.blocks) <= s.latencyBlocks ==> ActiveSurplus(s) == 0
    ensures !s.wired ==> ActiveSurplus(s) == 0
  {
    hide CompletePrefix;
  }

  /**
   In every run, a call of an active stream in the wired profile decodes with no more leading
   complete blocks than the latency asks for. It is the trimming of active streams that sees to
   it: a stream that an underrun has made inactive decodes with what is there.
   */
  lemma WiredNeverLags(tr: seq<Sink>, es: seq<Event>, i: nat)
    requires Trace(tr, es) && i < |es| && es[i].Decode? && tr[i].lowLatency && tr[i].wired && AtPlay(tr[i], es[i].env).Some?
    ensures var p := AtPlay(tr[i], es[i].env).value;
            CompletePrefix(Decoding(p).jitter.blocks) <= p.latencyBlocks
            <==> p.state == Active || CompletePrefix(p.jitter.blocks) <= p.latencyBlocks
    ensures var p, o := AtPlay(tr[i], es[i].env).value, TryDecode(tr[i], es[i].env);
            p.state == Active && o.played.Some? ==> CompletePrefix(o.sink.jitter.blocks) < o.sink.latencyBlocks
  {
    AlwaysInv(tr, es, i);
    var s, env := tr[i], es[i].env;
    SettledFrame(Retarget(s, env));
    LatencyPositive(s);
    hide Inv, Settled, KeepBuffering, CompletePrefix;
    var p := AtPlay(s, env).value;
    assert p.lowLatency && p.wired && p.latencyBlocks >= 1;
    WiredDecoding(p);
    if p.state == Active {
      PlayedHasPrefix(p, env);
    }
    hide Play;
  }

  lemma WiredDecoding(s: Sink)
    requires s.lowLatency && s.wired
    ensures CompletePrefix(Decoding(s).jitter.blocks) <= s.latencyBlocks
            <==> s.state == Active || CompletePrefix(s.jitter.blocks) <= s.latencyBlocks
  {
    if s.state == Active {
      PrefixAtDecoding(s);
    }
  }

  lemma PlayedHasPrefix(s: Sink, env: Env)
    requires s.lowLatency && s.wired && s.state == Active && s.latencyBlocks >= 1
    ensures var o := Play(s, env); o.played.Some? ==> CompletePrefix(o.sink.jitter.blocks) < o.sink.latencyBlocks
  {
    var o := Play(s, env);
    SurplusTrimmed(s);
    hide Trim, CountMiss, JitterFrames, BlockFrames;
    if o.played.Some? {
      var d := Decoding(s);
      assert d.jitter.blocks != [] && d.jitter.blocks[0].Complete() && env.writable;
      assert CompletePrefix(d.jitter.blocks) >= 1;
      assert CompletePrefix(s.jitter.blocks) >= 1;
      PrefixAfterPlay(s, env);
      PrefixAtDecoding(s);
    }
  }

  /** In every run the stale-front loop of a call drops at most one block, an incomplete one. */
  lemma StaleLoopDropsAtMostOne(tr: seq<Sink>, es: seq<Event>, i: nat)
    requires Trace(tr, es) && i < |es| && es[i].Decode?
    ensures var s := Retarget(tr[i], es[i].env);
            && (DropStale(s) == s || (s.jitter.blocks != [] && DropStale(s) == Skip(s)))
            && (DropStale(s) != s ==> !s.jitter.blocks[0].Complete()
                                      && CompletePrefix(DropStale(s).jitter.blocks) >= s.latencyBlocks >= 1)
  {
    AlwaysInv(tr, es, i);
    LatencyPositive(tr[i]);
    hide Inv;
    StaleDropsOne(Retarget(tr[i], es[i].env));
  }

  /** Whenever update or handle_start releases the frame memory, no frame is left over. */
  lemma ReleaseFindsNoLeak(tr: seq<Sink>, es: seq<Event>, i: nat)
    requires Trace(tr, es) && i < |es|
    requires || (es[i].Update? && es[i].capacity != tr[i].jitter.capacity)
             || (es[i].Start? && (es[i].capacity != tr[i].jitter.capacity || es[i].formatChanged))
    ensures tr[i + 1].stock == {}
  {
    AlwaysInv(tr, es, i);
    hide Resize, StartStream, Ordered, Linear, BlocksOk, Conforms;
    if es[i].Update? {
      ResizeCore(tr[i], es[i].capacity, es[i].latencyBlocks);
    } else {
      StartKeeps(tr[i], es[i]);
    }
  }

  /**
   After the start of a stream nothing is held, and a packet of the stream is taken if and only if
   it is not from before the first block that the source has announced.
   */
  lemma StartTakesFromSequence(tr: seq<Sink>, es: seq<Event>, i: nat, d: Packet)
    requires Trace(tr, es) && i < |es| && es[i].Start? && 0 <= d.sequence < INT32_MAX
    requires d.streamId == es[i].streamId && 0 < d.position + d.blockFrames
    ensures var e, t := es[i], tr[i + 1];
            && t.streamId == e.streamId && t.lowLatency == e.lowLatency && t.wired == e.wired && t.blockSize == e.blockSize
            && t.latencyBlocks == e.latencyBlocks && t.lastPosition == 0 && t.missing == 0 && t.state == tr[i].state
            && t.jitter.blocks == [] && t.jitter.capacity == e.capacity && t.jitter.lastPopped == SENTINEL
            && Ordered(t.jitter) && (AddPacket(t, d).accepted <==> e.sequence <= d.sequence)
  {
    AlwaysInv(tr, es, i);
    AlwaysInv(tr, es, i + 1);
    StartIs(tr[i], es[i]);
    hide StartStream, Inv;
    InvOrdered(tr[i + 1]);
    AcceptedIs(tr[i + 1], d);
    hide AddPacket;
  }

  /** What the other events do: sorting in takes the packets in order, an update keeps the queue if the size stays. */
  ghost predicate Effect(s: Sink, e: Event, t: Sink) {
    match e
    case Sort =>
      && s.queue != [] && Ordered(s.jitter) && 0 <= s.queue[0].sequence < INT32_MAX && t.queue == s.queue[1..]
      && t == AddPacket(s.(queue := s.queue[1..]), s.queue[0]).sink
    case Recover =>
      t == s.(jitter := Fresh(s.jitter.capacity), state := Buffering, free := s.free + JitterFrames(s.jitter.blocks))
    case Deactivate => t == s.(state := Inactive)
    case Activate => t == s.(state := Buffering)
    case Update(c, l) =>
      && t == s.(jitter := Fresh(c), latencyBlocks := l, queue := t.queue, free := t.free, stock := t.stock)
      && if c == s.jitter.capacity then t.queue == s.queue && t.stock == s.stock else t.queue == [] && t.stock == {}
    case _ => true
  }

  lemma EventIs(tr: seq<Sink>, es: seq<Event>, i: nat)
    requires Trace(tr, es) && i < |es|
    ensures Effect(tr[i], es[i], tr[i + 1])
  {
    AlwaysInv(tr, es, i);
    StepIs(tr[i], es[i]);
    hide Inv, Apply, Effect, Enabled;
  }

  lemma StepIs(s: Sink, e: Event)
    requires Inv(s) && Enabled(s, e)
    ensures Effect(s, e, Apply(s, e))
  {
    hide Linear, JitterFrames, QueueFrames, AddPacket, Ordered, BlocksOk, QueueFits, QueueAgrees, Conforms;
    match e {
      case Sort =>
        SequenceInRange(s);
        AddPacketFrame(s.(queue := s.queue[1..]), s.queue[0]);
      case Update(c, l) => ResizeKeeps(s, c, l);
      case _ =>
    }
  }

  lemma InvOrdered(s: Sink)
    requires Inv(s)
    ensures Ordered(s.jitter)
  {
    hide Ordered, Linear, BlocksOk, QueueFits, QueueAgrees, Conforms;
  }

  lemma StartIs(s: Sink, e: Event)
    requires Inv(s) && Enabled(s, e) && e.Start?
    ensures var t := StartStream(s, e);
            && t == s.(streamId := e.streamId, lowLatency := e.lowLatency, wired := e.wired, blockSize := e.blockSize,
                       latencyBlocks := e.latencyBlocks, lastPosition := 0, missing := 0,
                       jitter := Jitter(e.capacity, [], e.sequence - 1, SENTINEL),
                       queue := t.queue, free := t.free, stock := t.stock)
  {
    hide JitterFrames, QueueFrames, Inv;
  }

  lemma StepPosition(s: Sink, e: Event)
    requires Inv(s) && Enabled(s, e) && !e.Start?
    ensures var t := Apply(s, e);
            s.lastPosition <= t.lastPosition && t.lowLatency == s.lowLatency && t.streamId == s.streamId && t.blockSize == s.blockSize
  {
    hide TryDecode, AddPacket, Ordered, BlocksOk, Linear, Conforms;
    match e {
      case Sort =>
        assert Conforms(s.queue[0]);
        SequenceInRange(s);
        AddPacketFrame(s.(queue := s.queue[1..]), s.queue[0]);
      case Decode(env) => PositionNeverDecreases(s, env);
      case _ =>
    }
  }

  lemma SequenceInRange(s: Sink)
    requires Inv(s) && s.queue != []
    ensures 0 <= s.queue[0].sequence < INT32_MAX
  {
    assert Conforms(s.queue[0]);
  }

  /** Within a stream the playout position never decreases. */
  lemma {:induction false} PositionMonotone(tr: seq<Sink>, es: seq<Event>, i: nat, j: nat)
    requires Trace(tr, es) && i <= j < |tr| && forall k | i <= k < j :: !es[k].Start?
    ensures tr[i].lastPosition <= tr[j].lastPosition
    ensures tr[j].lowLatency == tr[i].lowLatency && tr[j].streamId == tr[i].streamId && tr[j].blockSize == tr[i].blockSize
    decreases j - i
  {
    if i < j {
      PositionMonotone(tr, es, i, j - 1);
      AlwaysInv(tr, es, j - 1);
      StepPosition(tr[j - 1], es[j - 1]);
    }
  }

  /**
   Once a complete block has been played or trimmed in a low-latency stream, no packet that ends
   at or before the end of that block is accepted for the rest of the stream.
   */
  lemma NothingOldIsAccepted(tr: seq<Sink>, es: seq<Event>, i: nat, j: nat, b: Block)
    requires Trace(tr, es) && i < j < |es| && forall k | i <= k < j :: !es[k].Start?
    requires es[i].Decode? && tr[i].lowLatency && es[j].Sort?
    requires var o := TryDecode(tr[i], es[i].env); o.played == Some(b) || b in o.trimmed
    ensures Inv(tr[j]) && 0 <= tr[j].queue[0].sequence < INT32_MAX
    ensures tr[j].queue[0].position + tr[j].queue[0].blockFrames <= b.position + b.blockFrames ==> !Dequeue(tr[j]).accepted
  {
    AlwaysInv(tr, es, i);
    AlwaysInv(tr, es, j);
    SequenceInRange(tr[j]);
    PositionNeverDecreases(tr[i], es[i].env);
    PositionMonotone(tr, es, i + 1, j);
    hide TryDecode, Inv;
    assert BlockEnd(tr[i], b) <= tr[i + 1].lastPosition by {
      assert tr[i + 1] == Apply(tr[i], es[i]);
    }
  }
}
