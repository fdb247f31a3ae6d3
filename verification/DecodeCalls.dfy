/**
 What one call of try_decode_block (aoo/src/sink.cpp) does, for every state and every choice of its
 surroundings, said about the blocks in the buffer: which of them go, which one is played, when
 buffering ends. `Playout` has the function; the theorems here do not mention its parts.
 */
module DecodeCalls {
  import opened Wrappers
  import opened Arithmetic
  import opened JitterBuffer
  import opened Receive
  import opened Playout

  /** The latency in force during the call. */
  function Depth(s: Sink, env: Env): nat {
    if s.lowLatency && env.target.Some? then ResidentBlocks(env.target.value, s.blockSize) else s.latencyBlocks
  }

  /** A larger latency sends an active stream back to buffering. */
  predicate Deepened(s: Sink, env: Env) { s.state == Active && Depth(s, env) > s.latencyBlocks }

  /** How many complete blocks at the front are too many; only the wired profile drops them. */
  function Excess(s: Sink, blocks: seq<Block>, depth: nat): (n: nat)
    ensures n <= |blocks|
  {
    if s.lowLatency && s.wired && CompletePrefix(blocks) > depth then CompletePrefix(blocks) - depth else 0
  }

  /** An incomplete front block is dropped if as many complete ones as the latency asks for wait behind it. */
  predicate FrontIsStale(s: Sink, depth: nat) {
    var bs := s.jitter.blocks;
    s.lowLatency && s.wired && bs != [] && !bs[0].Complete() && CompletePrefix(bs[1..]) >= depth
  }

  /** The buffer without its first n blocks. */
  function Behind(j: Jitter, n: nat): Jitter
    requires n <= |j.blocks|
  {
    Jitter(j.capacity, j.blocks[n..], j.lastPushed, if n == 0 then j.lastPopped else j.blocks[n - 1].sequence)
  }

  /** The sample position right after a block; a block is at least as long as the stream's blocks. */
  function EndOf(s: Sink, b: Block): nat { b.position + (if b.blockFrames > s.blockSize then b.blockFrames else s.blockSize) }

  /** p is the largest of the playout position and the ends of the blocks. */
  ghost predicate Latest(s: Sink, blocks: seq<Block>, p: nat) {
    && s.lastPosition <= p && (forall i | 0 <= i < |blocks| :: EndOf(s, blocks[i]) <= p)
    && (p == s.lastPosition || exists i :: 0 <= i < |blocks| && p == EndOf(s, blocks[i]))
  }

  /** Up to the frames that have gone back to the bins, the sink is s with the given changes. */
  predicate Becomes(t: Sink, s: Sink, depth: nat, state: StreamState, jitter: Jitter, missing: nat) {
    t == s.(latencyBlocks := depth, state := state, jitter := jitter, missing := missing,
            lastPosition := t.lastPosition, free := t.free)
  }

  /** A block of the stream that could not be played; the fourth in a row starts buffering anew. */
  ghost predicate Misses(s: Sink, depth: nat, n: nat, state: StreamState, t: Sink, jitter: Jitter)
    requires n <= |s.jitter.blocks|
  {
    && s.blockSize <= t.lastPosition && Latest(s, s.jitter.blocks[..n], t.lastPosition - s.blockSize)
    && if s.missing < 3 then Becomes(t, s, depth, state, jitter, s.missing + 1)
       else Becomes(t, s, depth, Buffering, Fresh(s.jitter.capacity), 0)
  }

  /** With nothing left, the next sequence number counts as popped, if there has been one. */
  function Nothing(j: Jitter, n: nat): Jitter
    requires n == |j.blocks|
  {
    var k := Behind(j, n);
    var next := if k.lastPopped == INT32_MAX - 1 then 0 else k.lastPopped + 1;
    if k.lastPopped == SENTINEL then k else k.(lastPushed := next, lastPopped := next)
  }

  /** The call decides what to play when the first n blocks have gone; the front one is then block n. */
  ghost predicate Plays(s: Sink, env: Env, depth: nat, n: nat, state: StreamState, o: Outcome)
    requires n <= |s.jitter.blocks|
  {
    var j, t := s.jitter, o.sink;
    if n == |j.blocks| then
      && o.played == None
      && if s.lowLatency && state == Active && env.writable then
           o.ok && Misses(s, depth, n, state, t, Nothing(j, n))
         else
           !o.ok && Latest(s, j.blocks, t.lastPosition) && Becomes(t, s, depth, state, Behind(j, n), s.missing)
    else if !env.writable then
      && o.played == None && !o.ok
      && Latest(s, j.blocks[..n], t.lastPosition) && Becomes(t, s, depth, state, Behind(j, n + 1), s.missing)
    else
      && o.ok && o.played == (if j.blocks[n].Complete() then Some(j.blocks[n]) else None)
      && if !s.lowLatency then
           t.lastPosition == s.lastPosition && Becomes(t, s, depth, state, Behind(j, n + 1), s.missing)
         else if j.blocks[n].Complete() then
           Latest(s, j.blocks[..n + 1], t.lastPosition) && Becomes(t, s, depth, state, Behind(j, n + 1), 0)
         else
           Misses(s, depth, n, state, t, Behind(j, n + 1))
  }

  /** Enough blocks, and with low latency enough complete ones, for buffering to end. */
  predicate Deep(s: Sink, env: Env, blocks: seq<Block>) {
    !env.early && |blocks| >= Depth(s, env) && (s.lowLatency ==> CompletePrefix(blocks) >= Depth(s, env))
  }

  /** How many blocks a call drops while buffering. */
  function BufferingDrops(s: Sink, env: Env): (n: nat)
    ensures n <= |s.jitter.blocks| && (FrontIsStale(s, Depth(s, env)) ==> 1 <= n)
  {
    var d := if FrontIsStale(s, Depth(s, env)) then 1 else 0;
    d + Excess(s, s.jitter.blocks[d..], Depth(s, env))
  }

  /** A call while buffering. */
  ghost predicate BufferingCall(s: Sink, env: Env, o: Outcome) {
    var bs, depth, n := s.jitter.blocks, Depth(s, env), BufferingDrops(s, env);
    var d := if FrontIsStale(s, depth) then 1 else 0;
    if env.stopped then
      o == Outcome(s.(latencyBlocks := depth, state := Buffering), false, None, [])
    else
      && o.trimmed == bs[d..n]
      && if Deep(s, env, bs[n..]) then Plays(s, env, depth, n, Active, o)
         else
           && o.ok == (env.writable && (s.lowLatency || !env.overdue)) && o.played == None
           && Latest(s, bs[..n], o.sink.lastPosition) && Becomes(o.sink, s, depth, Buffering, Behind(s.jitter, n), s.missing)
  }

  /** What a call does. */
  ghost predicate CallIs(s: Sink, env: Env, o: Outcome) {
    if s.state == Buffering || Deepened(s, env) then BufferingCall(s, env, o)
    else
      var n := if s.state == Active then Excess(s, s.jitter.blocks, Depth(s, env)) else 0;
      Plays(s, env, Depth(s, env), n, s.state, o) && o.trimmed == s.jitter.blocks[..n]
  }

  // ---------------------------------------------------------------- dropping blocks

  lemma BehindOnce(j: Jitter, n: nat)
    requires n < |j.blocks|
    ensures Behind(j, n).blocks != [] && Behind(j, n).blocks[0] == j.blocks[n] && Pop(Behind(j, n)) == Behind(j, n + 1)
  {
  }

  lemma LatestOnce(s: Sink, blocks: seq<Block>, n: nat, p: nat)
    requires n < |blocks| && Latest(s, blocks[..n], p)
    ensures Latest(s, blocks[..n + 1], Max(p, EndOf(s, blocks[n])))
  {
    var p', bs := Max(p, EndOf(s, blocks[n])), blocks[..n + 1];
    assert forall i | 0 <= i < n :: bs[i] == blocks[..n][i];
    assert bs[n] == blocks[n];
    if p' != EndOf(s, blocks[n]) && p' != s.lastPosition {
      var i :| 0 <= i < n && p == EndOf(s, blocks[..n][i]);
      assert p' == EndOf(s, bs[i]);
    }
  }

  lemma NoneDropped(s: Sink)
    ensures Behind(s.jitter, 0) == s.jitter && Latest(s, s.jitter.blocks[..0], s.lastPosition)
  {
  }

  /** p is s after n blocks have been dropped one by one. */
  ghost predicate Dropped(s: Sink, n: nat, p: Sink) {
    && n <= |s.jitter.blocks| && Latest(s, s.jitter.blocks[..n], p.lastPosition)
    && p == s.(jitter := Behind(s.jitter, n), lastPosition := p.lastPosition, free := p.free)
  }

  lemma SkipDrops(s: Sink, n: nat, p: Sink)
    requires Dropped(s, n, p) && n < |s.jitter.blocks|
    ensures p.jitter.blocks != [] && Dropped(s, n + 1, Skip(p))
  {
    BehindOnce(s.jitter, n);
    LatestOnce(s, s.jitter.blocks, n, p.lastPosition);
    hide Latest, BlockFrames;
  }

  lemma {:induction false} TrimDrops(s: Sink, n: nat, p: Sink, k: nat)
    requires Dropped(s, n, p) && n + k <= |s.jitter.blocks|
    ensures k <= |p.jitter.blocks| && Dropped(s, n + k, Trim(p, k))
    decreases k
  {
    if k > 0 {
      SkipDrops(s, n, p);
      hide Dropped, Skip;
      TrimDrops(s, n + 1, Skip(p), k - 1);
    }
  }

  /** The buffering phase drops the stale front block and the excess. */
  lemma SettledDrops(s: Sink)
    requires s.latencyBlocks >= 1
    ensures var bs, depth := s.jitter.blocks, s.latencyBlocks;
            var d := if FrontIsStale(s, depth) then 1 else 0;
            var n := d + Excess(s, bs[d..], depth);
            Dropped(s, n, Settled(s)) && SettledTrimmed(s) == bs[d..n]
  {
    var bs, depth := s.jitter.blocks, s.latencyBlocks;
    var d := if FrontIsStale(s, depth) then 1 else 0;
    var s1 := if s.lowLatency && s.wired then DropStale(s) else s;
    NoneDropped(s);
    StaleIs(s);
    if d == 1 {
      SkipDrops(s, 0, s);
    }
    hide DropStale, CompletePrefix, Skip, Latest;
    assert Dropped(s, d, s1);
    assert s1.jitter.blocks == bs[d..];
    assert Surplus(s1) == Excess(s, bs[d..], depth);
    hide Excess, Surplus, FrontIsStale;
    TrimDrops(s, d, s1, Excess(s, bs[d..], depth));
    Middle(bs, d, Excess(s, bs[d..], depth));
  }

  lemma Middle(bs: seq<Block>, d: nat, k: nat)
    requires d + k <= |bs|
    ensures bs[d..][..k] == bs[d..d + k]
  {
  }

  lemma StaleIs(s: Sink)
    requires s.latencyBlocks >= 1
    ensures s.lowLatency && s.wired ==> DropStale(s) == if FrontIsStale(s, s.latencyBlocks) then Skip(s) else s
  {
    StaleDropsOne(s);
    if FrontIsStale(s, s.latencyBlocks) {
      assert Skip(s).jitter.blocks == s.jitter.blocks[1..];
      assert s.jitter.blocks[1..][0].Complete();
    }
  }

  // ---------------------------------------------------------------- playing

  /** From the state in which a call decides what to play. */
  lemma PlayFrom(s: Sink, env: Env, depth: nat, n: nat, state: StreamState, p: Sink)
    requires n <= |s.jitter.blocks| && Latest(s, s.jitter.blocks[..n], p.lastPosition)
    requires Becomes(p, s, depth, state, Behind(s.jitter, n), s.missing)
    requires !s.lowLatency ==> p.lastPosition == s.lastPosition
    ensures Plays(s, env, depth, n, state, if p.jitter.blocks == [] then PlayNothing(p, env) else PlayFront(p, env))
  {
    if n == |s.jitter.blocks| {
      assert s.jitter.blocks[..n] == s.jitter.blocks;
      hide Latest, JitterFrames, BlockFrames, PlayFront, BlockEnd;
    } else {
      PlayFrontFrom(s, env, depth, n, state, p);
      hide Plays, Latest, PlayNothing, PlayFront;
    }
  }

  lemma PlayFrontFrom(s: Sink, env: Env, depth: nat, n: nat, state: StreamState, p: Sink)
    requires n < |s.jitter.blocks| && Latest(s, s.jitter.blocks[..n], p.lastPosition)
    requires Becomes(p, s, depth, state, Behind(s.jitter, n), s.missing)
    requires !s.lowLatency ==> p.lastPosition == s.lastPosition
    ensures p.jitter.blocks != [] && Plays(s, env, depth, n, state, PlayFront(p, env))
  {
    hide Latest, JitterFrames, BlockFrames, PlayNothing;
    BehindOnce(s.jitter, n);
    LatestOnce(s, s.jitter.blocks, n, p.lastPosition);
  }

  lemma OpenCallIs(s: Sink, env: Env)
    requires s.state != Buffering && !Deepened(s, env)
    ensures CallIs(s, env, TryDecode(s, env))
  {
    var depth := Depth(s, env);
    var s1 := Retarget(s, env);
    var n := if s.state == Active then Excess(s, s.jitter.blocks, depth) else 0;
    assert s1 == s.(latencyBlocks := depth) && ActiveSurplus(s1) == n;
    NoneDropped(s1);
    TrimDrops(s1, 0, s1, n);
    var p := Decoding(s1);
    SameLatest(s, s1, n, p.lastPosition);
    assert !s.lowLatency ==> n == 0;
    hide Excess, Trim, CompletePrefix, Latest, PlayNothing, PlayFront;
    PlayFrom(s, env, depth, n, s.state, p);
    hide Plays;
    assert AtPlay(s, env) == Some(s1);
  }

  lemma SameLatest(s: Sink, t: Sink, n: nat, p: nat)
    requires n <= |s.jitter.blocks| && t.jitter == s.jitter && t.lastPosition == s.lastPosition && t.blockSize == s.blockSize
    requires Latest(t, t.jitter.blocks[..n], p)
    ensures Latest(s, s.jitter.blocks[..n], p)
  {
  }

  lemma SettledIs(s: Sink, env: Env)
    requires 1 <= s.latencyBlocks && (s.state == Buffering || Deepened(s, env))
    ensures var s1, n := Retarget(s, env), BufferingDrops(s, env);
            var q, d := Settled(s1), if FrontIsStale(s, Depth(s, env)) then 1 else 0;
            && s1 == s.(latencyBlocks := Depth(s, env), state := Buffering)
            && Becomes(q, s, Depth(s, env), Buffering, Behind(s.jitter, n), s.missing)
            && Latest(s, s.jitter.blocks[..n], q.lastPosition)
            && d <= n && SettledTrimmed(s1) == s.jitter.blocks[d..n]
            && ActiveSurplus(q.(state := Active)) == 0
            && (!s.lowLatency ==> n == 0)
  {
    var bs, depth := s.jitter.blocks, Depth(s, env);
    var s1 := Retarget(s, env);
    assert s1 == s.(latencyBlocks := depth, state := Buffering);
    var d := if FrontIsStale(s, depth) then 1 else 0;
    assert FrontIsStale(s1, depth) == FrontIsStale(s, depth) && Excess(s1, bs[d..], depth) == Excess(s, bs[d..], depth);
    SettledDrops(s1);
    hide CompletePrefix;
    NoExcessLeft(s1);
    hide Latest, Settled, SettledTrimmed, ActiveSurplus;
    SameLatest(s, s1, BufferingDrops(s, env), Settled(s1).lastPosition);
  }

  /** The three ways through a call while buffering. */
  lemma WhileBuffering(s: Sink, env: Env)
    requires Retarget(s, env).state == Buffering
    ensures var s1 := Retarget(s, env);
            var q := Settled(s1);
            var o := Play(q.(state := Active), env);
            TryDecode(s, env) ==
              if env.stopped then Outcome(s1, false, None, [])
              else if KeepBuffering(q, env) then
                Outcome(q, env.writable && (s.lowLatency || !env.overdue), None, SettledTrimmed(s1))
              else o.(trimmed := SettledTrimmed(s1) + o.trimmed)
  {
    hide Retarget, Settled, SettledTrimmed, Play, KeepBuffering;
  }

  lemma BufferingCallIs(s: Sink, env: Env)
    requires 1 <= s.latencyBlocks && (s.state == Buffering || Deepened(s, env))
    ensures BufferingCall(s, env, TryDecode(s, env))
  {
    hide CompletePrefix, Retarget, Settled, SettledTrimmed, ActiveSurplus, FrontIsStale, Excess, BufferingDrops, Play, Plays, TryDecode;
    SettledIs(s, env);
    hide Latest;
    WhileBuffering(s, env);
    var n, q := BufferingDrops(s, env), Settled(Retarget(s, env));
    assert KeepBuffering(q, env) == !Deep(s, env, s.jitter.blocks[n..]);
    if !env.stopped && Deep(s, env, s.jitter.blocks[n..]) {
      StartsPlaying(s, env, n, q);
      var o := Play(q.(state := Active), env);
      PlaysAnyway(s, env, n, Active, o, SettledTrimmed(Retarget(s, env)) + o.trimmed);
      assert SettledTrimmed(Retarget(s, env)) + [] == SettledTrimmed(Retarget(s, env));
    }
    hide KeepBuffering, Deep, Depth;
  }

  lemma PlaysAnyway(s: Sink, env: Env, n: nat, state: StreamState, o: Outcome, trimmed: seq<Block>)
    requires n <= |s.jitter.blocks| && Plays(s, env, Depth(s, env), n, state, o)
    ensures Plays(s, env, Depth(s, env), n, state, o.(trimmed := trimmed))
  {
    hide Latest, Depth;
  }

  lemma NoExcessLeft(s: Sink)
    requires s.latencyBlocks >= 1
    ensures ActiveSurplus(Settled(s).(state := Active)) == 0
  {
    SettledFrame(s);
    hide Settled, CompletePrefix;
  }

  lemma StartsPlaying(s: Sink, env: Env, n: nat, q: Sink)
    requires n <= |s.jitter.blocks| && Latest(s, s.jitter.blocks[..n], q.lastPosition)
    requires Becomes(q, s, Depth(s, env), Buffering, Behind(s.jitter, n), s.missing)
    requires ActiveSurplus(q.(state := Active)) == 0 && (!s.lowLatency ==> n == 0)
    ensures Plays(s, env, Depth(s, env), n, Active, Play(q.(state := Active), env))
    ensures Play(q.(state := Active), env).trimmed == []
  {
    var p := q.(state := Active);
    assert Decoding(p) == p;
    if !s.lowLatency {
      assert q.lastPosition == s.lastPosition;
    }
    hide ActiveSurplus, Decoding, Latest, PlayNothing, PlayFront;
    PlayFrom(s, env, Depth(s, env), n, Active, p);
    hide Plays;
  }

  /** Every call does what `CallIs` says. */
  lemma DecodeIs(s: Sink, env: Env)
    requires 1 <= s.latencyBlocks
    ensures CallIs(s, env, TryDecode(s, env))
  {
    hide BufferingCall, Plays, TryDecode, Depth, Excess;
    if s.state == Buffering || Deepened(s, env) {
      BufferingCallIs(s, env);
    } else {
      OpenCallIs(s, env);
    }
  }

  // ---------------------------------------------------------------- every call of every run

  ghost predicate IsCall(tr: seq<Sink>, es: seq<Event>, i: nat) {
    Trace(tr, es) && i < |es| && es[i].Decode?
  }

  /** Every call of every run does what `CallIs` says; a call that fails makes the stream inactive. */
  lemma EveryCall(tr: seq<Sink>, es: seq<Event>, i: nat)
    requires IsCall(tr, es, i)
    ensures var o := TryDecode(tr[i], es[i].env);
            && CallIs(tr[i], es[i].env, o) && tr[i + 1] == (if o.ok then o.sink else o.sink.(state := Inactive))
            && 1 <= tr[i].latencyBlocks
  {
    AlwaysInv(tr, es, i);
    LatencyPositive(tr[i]);
    DecodeIs(tr[i], es[i].env);
    hide Inv, CallIs, TryDecode;
  }

  /**
   A call of an active stream with a complete block in front plays a block and leaves what is behind
   it: the front one, or in the wired profile the first one that is not too many.
   */
  lemma CompleteBlockIsPlayed(tr: seq<Sink>, es: seq<Event>, i: nat)
    requires IsCall(tr, es, i) && tr[i].state == Active && !Deepened(tr[i], es[i].env) && es[i].env.writable
    requires tr[i].jitter.blocks != [] && tr[i].jitter.blocks[0].Complete()
    ensures var s, o := tr[i], TryDecode(tr[i], es[i].env);
            var bs, n := s.jitter.blocks, Excess(s, s.jitter.blocks, Depth(s, es[i].env));
            && n < |bs| && bs[n].Complete() && o.ok && o.played == Some(bs[n]) && o.trimmed == bs[..n]
            && tr[i + 1].jitter.blocks == bs[n + 1..] && tr[i + 1].state == Active
            && (n > 0 ==> s.lowLatency && s.wired)
  {
    EveryCall(tr, es, i);
    var s := tr[i];
    assert CompletePrefix(s.jitter.blocks) >= 1;
    DepthPositive(s, es[i].env);
    hide IsCall, TryDecode, Latest, CompletePrefix, Depth, Misses;
  }

  lemma DepthPositive(s: Sink, env: Env)
    requires 1 <= s.latencyBlocks
    ensures 1 <= Depth(s, env)
  {
  }

  /** With an incomplete block in front nothing is played, and the stream goes on; an ordinary one drops that block. */
  lemma IncompleteBlockIsSkipped(tr: seq<Sink>, es: seq<Event>, i: nat)
    requires IsCall(tr, es, i) && tr[i].state == Active && !Deepened(tr[i], es[i].env) && es[i].env.writable
    requires tr[i].jitter.blocks != [] && !tr[i].jitter.blocks[0].Complete()
    ensures var s, o := tr[i], TryDecode(tr[i], es[i].env);
            && o.ok && o.played == None && o.trimmed == []
            && tr[i + 1].jitter.blocks == (if s.lowLatency && s.missing >= 3 then [] else s.jitter.blocks[1..])
            && tr[i + 1].state == (if s.lowLatency && s.missing >= 3 then Buffering else Active)
  {
    EveryCall(tr, es, i);
    assert CompletePrefix(tr[i].jitter.blocks) == 0;
    hide IsCall, TryDecode, Latest, CompletePrefix, Depth;
  }

  /**
   A stream that is not low-latency ends buffering exactly when it is neither stopped nor early and
   has as many blocks as the latency asks for; the same call then plays the front block, if it is
   complete and the resampler takes it.
   */
  lemma OrdinaryBuffering(tr: seq<Sink>, es: seq<Event>, i: nat)
    requires IsCall(tr, es, i) && tr[i].state == Buffering && !tr[i].lowLatency
    ensures var s, env, o := tr[i], es[i].env, TryDecode(tr[i], es[i].env);
            var bs := s.jitter.blocks;
            && (o.sink.state == Active <==> !env.stopped && !env.early && |bs| >= s.latencyBlocks)
            && (o.sink.state != Active ==> o.played == None && tr[i + 1].jitter == s.jitter)
            && (o.sink.state == Active ==>
                  && bs != [] && o.ok == env.writable && tr[i + 1].jitter.blocks == bs[1..]
                  && o.played == (if env.writable && bs[0].Complete() then Some(bs[0]) else None))
  {
    EveryCall(tr, es, i);
    var s, env := tr[i], es[i].env;
    assert Depth(s, env) == s.latencyBlocks && BufferingDrops(s, env) == 0;
    assert s.jitter.blocks[0..] == s.jitter.blocks;
    assert Behind(s.jitter, 0) == s.jitter;
    hide IsCall, TryDecode, Latest, CompletePrefix, Misses, BufferingDrops, Depth;
  }

  /**
   A low-latency stream ends buffering exactly when it is neither stopped nor early and what is left
   after dropping begins with as many complete blocks as the latency asks for.
   */
  lemma LowLatencyBuffering(tr: seq<Sink>, es: seq<Event>, i: nat)
    requires IsCall(tr, es, i) && tr[i].lowLatency && (tr[i].state == Buffering || Deepened(tr[i], es[i].env))
    ensures var s, env, o := tr[i], es[i].env, TryDecode(tr[i], es[i].env);
            var bs, n := s.jitter.blocks, BufferingDrops(s, env);
            var ends := !env.stopped && !env.early && CompletePrefix(bs[n..]) >= Depth(s, env);
            && (o.sink.state == Active <==> ends)
            && (ends ==> n < |bs| && o.ok == env.writable && o.played == (if env.writable then Some(bs[n]) else None)
                         && tr[i + 1].jitter.blocks == bs[n + 1..])
            && (!ends ==> o.played == None && tr[i + 1].jitter.blocks == (if env.stopped then bs else bs[n..]))
  {
    EveryCall(tr, es, i);
    var s, env := tr[i], es[i].env;
    DepthPositive(s, env);
    var n := BufferingDrops(s, env);
    assert CompletePrefix(s.jitter.blocks[n..]) >= 1 ==> n < |s.jitter.blocks| && s.jitter.blocks[n..][0].Complete();
    hide IsCall, TryDecode, Latest, CompletePrefix, Misses, BufferingDrops, Depth;
  }
}
