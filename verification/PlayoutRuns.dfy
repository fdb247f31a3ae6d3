/**
 Two runs of the sink, from the first event on, that reach states one might take for impossible.
 Every block of them is one frame of 64 samples, and block q is held in frame q.
 */
module PlayoutRuns {
  import opened Wrappers
  import opened Arithmetic
  import opened JitterBuffer
  import opened Receive
  import opened Playout

  function Data(q: nat): Packet { Packet(0, q, 1, 0, 1, Some(q), 64 * q, 64) }

  function Whole(q: nat): Block { Block(q, 1, 1, map[0 := q], 64 * q, 64) }

  const Good: Env := Env(None, false, false, false, true)
  const Broken: Env := Good.(writable := false)

  /** A sink of stream 0 that plays blocks of 64 samples. */
  predicate Plain(s: Sink, lowLatency: bool) {
    s.streamId == 0 && s.lowLatency == lowLatency && s.wired == lowLatency && s.blockSize == 64 && s.latencyBlocks == 1
  }

  function Arrived(s: Sink, q: nat): Sink { s.(queue := s.queue + [Data(q)], stock := s.stock + {q}) }

  /** Block q is new: its packet is stored in a frame from the system. */
  lemma ArriveStep(s: Sink, q: nat)
    requires Plain(s, s.lowLatency) && q < INT32_MAX && q !in s.stock && q !in s.free && s.lastPosition <= 64 * q
    requires forall k | 0 <= k < |s.queue| :: s.queue[k].sequence != q
    requires forall k | 0 <= k < |s.jitter.blocks| :: s.jitter.blocks[k].sequence != q
    ensures Enabled(s, Arrive(Data(q), q))
    ensures Inv(s) ==> Apply(s, Arrive(Data(q), q)) == Arrived(s, q)
  {
    hide Inv;
  }

  /** The jitter buffer with block q behind what it holds, and a placeholder before it if one block is missing. */
  function Appended(j: Jitter, q: nat): Jitter {
    var gap := if j.lastPushed == SENTINEL || j.lastPushed + 1 == q then [] else [Hole(q - 1)];
    j.(blocks := j.blocks + gap + [Whole(q)], lastPushed := q)
  }

  /** There is room for block q and a placeholder, if it needs one. */
  predicate Room(j: Jitter, q: nat) {
    && j.lastPopped < q && |j.blocks| < j.capacity
    && (|| j.lastPushed == SENTINEL || j.lastPushed == q - 1
        || (0 <= j.lastPushed == q - 2 && |j.blocks| + 1 < j.capacity))
  }

  lemma SortStep(s: Sink, q: nat)
    requires Inv(s) && Plain(s, true) && s.queue != [] && s.queue[0] == Data(q) && s.lastPosition <= 64 * q < 64 * INT32_MAX
    requires Room(s.jitter, q)
    ensures Apply(s, Sort) == s.(jitter := Appended(s.jitter, q), queue := s.queue[1..])
  {
    var j, b := s.jitter, AddFrame(NewBlock(Data(q)), Data(q));
    assert b == Whole(q);
    ScanOrdered(j.blocks, q);
    hide Scan, JitterFrames, QueueFrames, BlocksOk, QueueFits, QueueAgrees, Linear, AddFrame, NewBlock;
    var s1 := s.(queue := s.queue[1..]);
    assert AddPacket(s1, Data(q)) == AddNew(s1, Data(q));
    if j.lastPushed != SENTINEL {
      if j.lastPushed + 1 != q {
        assert FillGap(j, q) == Push(j, Hole(q - 1));
      }
      assert Push(FillGap(j, q), b) == Appended(j, q);
    }
  }

  /** A front block that is complete, played from "buffering" on: the stream becomes active. */
  lemma DecodeFirst(s: Sink, q: nat)
    requires Inv(s) && Plain(s, true) && s.jitter.blocks == [Whole(q)] && s.state == Buffering && s.lastPosition <= 64 * q
    ensures Apply(s, Decode(Good)) ==
            s.(jitter := s.jitter.(blocks := [], lastPopped := q), free := s.free + multiset{q},
               lastPosition := 64 * q + 64, missing := 0, state := Active)
  {
    FramesOfWhole(q);
    PrefixOf([Whole(q)], 1);
    hide BlockFrames, JitterFrames, Inv, CompletePrefix;
    assert Settled(s) == s;
    assert AtPlay(s, Good) == Some(s.(state := Active));
    assert Decoding(s.(state := Active)) == s.(state := Active);
    assert [Whole(q)][1..] == [];
  }

  lemma FramesOfWhole(q: nat)
    ensures BlockFrames(Whole(q)) == multiset{q} && BlockFrames(Hole(q)) == multiset{}
  {
    assert FramesUpTo(map[0 := q], 1) == FramesUpTo(map[0 := q], 0) + multiset{q};
  }

  lemma {:induction false} PrefixOf(blocks: seq<Block>, n: nat)
    requires n <= |blocks| && (forall i | 0 <= i < n :: blocks[i].Complete()) && (n < |blocks| ==> !blocks[n].Complete())
    ensures CompletePrefix(blocks) == n
  {
  }

  /** The resampler does not take the block of an active stream: it is lost and the stream becomes inactive. */
  lemma DecodeBroken(s: Sink, q: nat)
    requires Inv(s) && Plain(s, true) && s.state == Active && s.jitter.blocks != [] && s.jitter.blocks[0] == Whole(q)
    requires CompletePrefix(s.jitter.blocks) == 1
    ensures Apply(s, Decode(Broken)) ==
            s.(jitter := s.jitter.(blocks := s.jitter.blocks[1..], lastPopped := q), free := s.free + multiset{q}, state := Inactive)
    ensures !TryDecode(s, Broken).ok
  {
    FramesOfWhole(q);
    hide BlockFrames, JitterFrames, Inv, CompletePrefix;
    assert Decoding(s) == s;
    assert AtPlay(s, Broken) == Some(s);
  }

  /** An inactive stream skips a placeholder. */
  lemma DecodeHole(s: Sink, q: nat)
    requires Inv(s) && Plain(s, true) && s.state == Inactive && s.jitter.blocks != [] && s.jitter.blocks[0] == Hole(q)
    requires s.missing == 0
    ensures Apply(s, Decode(Good)) ==
            s.(jitter := s.jitter.(blocks := s.jitter.blocks[1..], lastPopped := q),
               lastPosition := s.lastPosition + 64, missing := 1)
    ensures TryDecode(s, Good).ok
  {
    FramesOfWhole(q);
    hide BlockFrames, JitterFrames, Inv, CompletePrefix;
    assert Decoding(s) == s;
    assert AtPlay(s, Good) == Some(s);
  }

  /** An inactive stream plays a block. */
  lemma DecodeWhole(s: Sink, q: nat)
    requires Inv(s) && Plain(s, true) && s.state == Inactive && s.jitter.blocks != [] && s.jitter.blocks[0] == Whole(q)
    requires s.lastPosition <= 64 * q
    ensures TryDecode(s, Good).played == Some(Whole(q)) && AtPlay(s, Good) == Some(s) && Decoding(s) == s
    ensures Apply(s, Decode(Good)) ==
            s.(jitter := s.jitter.(blocks := s.jitter.blocks[1..], lastPopped := q), free := s.free + multiset{q},
               lastPosition := 64 * q + 64, missing := 0)
  {
    FramesOfWhole(q);
    hide BlockFrames, JitterFrames, Inv, CompletePrefix;
    assert Decoding(s) == s;
    assert AtPlay(s, Good) == Some(s);
  }

  // ---------------------------------------------------------------- an inactive stream lags

  /** One more event. */
  lemma Grow(tr: seq<Sink>, es: seq<Event>, e: Event, t: Sink)
    requires Trace(tr, es) && Enabled(tr[|es|], e) && (Inv(tr[|es|]) ==> t == Apply(tr[|es|], e))
    ensures Trace(tr + [t], es + [e])
  {
    hide Inv, Enabled, Apply, Fresh;
    var tr', es' := tr + [t], es + [e];
    forall i | 0 <= i < |es'| ensures Enabled(tr'[i], es'[i]) && (Inv(tr'[i]) ==> tr'[i + 1] == Apply(tr'[i], es'[i])) {
      assert tr'[i] == tr[i];
      assert i < |es| ==> es'[i] == es[i] && tr'[i + 1] == tr[i + 1];
    }
  }

  /** A wired sink with a target of one block and a ring of four. */
  function Wired(blocks: seq<Block>, pushed: int, popped: int, queue: seq<Packet>, free: multiset<nat>, stock: set<nat>,
                 position: nat, missing: nat, state: StreamState): Sink
  {
    Sink(Jitter(4, blocks, pushed, popped), queue, free, stock, 0, true, true, 64, 1, position, missing, state)
  }

  lemma Arriving(tr: seq<Sink>, es: seq<Event>, q: nat, t: Sink) returns (tr': seq<Sink>, es': seq<Event>)
    requires Trace(tr, es)
    requires var s := tr[|es|];
             && Plain(s, s.lowLatency) && q < INT32_MAX && q !in s.stock && q !in s.free && s.lastPosition <= 64 * q
             && (forall k | 0 <= k < |s.queue| :: s.queue[k].sequence != q)
             && (forall k | 0 <= k < |s.jitter.blocks| :: s.jitter.blocks[k].sequence != q)
             && t == Arrived(s, q)
    ensures Trace(tr', es') && |tr'| == |es'| + 1 && tr' == tr + [t] && es' == es + [Arrive(Data(q), q)]
  {
    hide Inv, Apply, Enabled, Plain;
    ArriveStep(tr[|es|], q);
    Grow(tr, es, Arrive(Data(q), q), t);
    tr', es' := tr + [t], es + [Arrive(Data(q), q)];
  }

  lemma Sorting(tr: seq<Sink>, es: seq<Event>, q: nat, t: Sink) returns (tr': seq<Sink>, es': seq<Event>)
    requires Trace(tr, es)
    requires var s := tr[|es|];
             && Plain(s, true) && s.queue != [] && s.queue[0] == Data(q) && s.lastPosition <= 64 * q < 64 * INT32_MAX
             && Room(s.jitter, q) && t == s.(jitter := Appended(s.jitter, q), queue := s.queue[1..])
    ensures Trace(tr', es') && |tr'| == |es'| + 1 && tr' == tr + [t] && es' == es + [Sort]
  {
    var s := tr[|es|];
    assert Enabled(s, Sort);
    hide Inv, Apply, Enabled, Trace, Plain;
    AlwaysInv(tr, es, |es|);
    SortStep(s, q);
    Grow(tr, es, Sort, t);
    tr', es' := tr + [t], es + [Sort];
  }

  lemma Playing(tr: seq<Sink>, es: seq<Event>, env: Env, t: Sink) returns (tr': seq<Sink>, es': seq<Event>)
    requires Trace(tr, es) && (Inv(tr[|es|]) ==> t == Apply(tr[|es|], Decode(env)))
    ensures Trace(tr', es') && |tr'| == |es'| + 1 && tr' == tr + [t] && es' == es + [Decode(env)]
  {
    assert Enabled(tr[|es|], Decode(env));
    hide Inv, Apply, Enabled;
    Grow(tr, es, Decode(env), t);
    tr', es' := tr + [t], es + [Decode(env)];
  }

  /** Block 0 arrives and is played. */
  lemma PlayZero() returns (tr: seq<Sink>, es: seq<Event>)
    ensures Trace(tr, es) && |es| == 3 && |tr| == 4 && tr[3] == Wired([], 0, 0, [], multiset{0}, {0}, 64, 0, Active)
  {
    hide Inv, Apply, Enabled;
    tr, es := [Wired([], SENTINEL, SENTINEL, [], multiset{}, {}, 0, 0, Buffering)], [];
    tr, es := Arriving(tr, es, 0, Wired([], SENTINEL, SENTINEL, [Data(0)], multiset{}, {0}, 0, 0, Buffering));
    tr, es := Sorting(tr, es, 0, Wired([Whole(0)], 0, SENTINEL, [], multiset{}, {0}, 0, 0, Buffering));
    AlwaysInv(tr, es, 2);
    DecodeFirst(tr[2], 0);
    tr, es := Playing(tr, es, Good, Wired([], 0, 0, [], multiset{0}, {0}, 64, 0, Active));
  }

  /** Blocks 1, 3 and 4 arrive. */
  lemma ArriveThree() returns (tr: seq<Sink>, es: seq<Event>)
    ensures Trace(tr, es) && |es| == 6 && |tr| == 7
    ensures tr[6] == Wired([], 0, 0, [Data(1), Data(3), Data(4)], multiset{0}, {0, 1, 3, 4}, 64, 0, Active)
  {
    hide Inv, Apply, Enabled;
    tr, es := PlayZero();
    hide Trace;
    tr, es := Arriving(tr, es, 1, Wired([], 0, 0, [Data(1)], multiset{0}, {0, 1}, 64, 0, Active));
    tr, es := Arriving(tr, es, 3, Wired([], 0, 0, [Data(1), Data(3)], multiset{0}, {0, 1, 3}, 64, 0, Active));
    tr, es := Arriving(tr, es, 4, Wired([], 0, 0, [Data(1), Data(3), Data(4)], multiset{0}, {0, 1, 3, 4}, 64, 0, Active));
  }

  /** They are sorted in, with a placeholder for block 2. */
  lemma SortThree() returns (tr: seq<Sink>, es: seq<Event>)
    ensures Trace(tr, es) && |es| == 9 && |tr| == 10
    ensures tr[9] == Wired([Whole(1), Hole(2), Whole(3), Whole(4)], 4, 0, [], multiset{0}, {0, 1, 3, 4}, 64, 0, Active)
  {
    hide Inv, Apply, Enabled;
    tr, es := ArriveThree();
    hide Trace;
    var stock := {0, 1, 3, 4};
    tr, es := Sorting(tr, es, 1, Wired([Whole(1)], 1, 0, [Data(3), Data(4)], multiset{0}, stock, 64, 0, Active));
    tr, es := Sorting(tr, es, 3, Wired([Whole(1), Hole(2), Whole(3)], 3, 0, [Data(4)], multiset{0}, stock, 64, 0, Active));
    tr, es := Sorting(tr, es, 4, Wired([Whole(1), Hole(2), Whole(3), Whole(4)], 4, 0, [], multiset{0}, stock, 64, 0, Active));
  }

  /**
   A run of a wired stream with a target of one block. A failed write to the resampler makes the
   stream inactive; the next call skips a gap, and the one after that plays with two complete
   blocks in the buffer, one more than the target.
   */
  lemma InactiveMayLag() returns (tr: seq<Sink>, es: seq<Event>)
    ensures Trace(tr, es) && |es| == 12 && |tr| == 13
    ensures es[9] == Decode(Broken) && tr[9].state == Active && !TryDecode(tr[9], Broken).ok && tr[10].state == Inactive
    ensures es[10] == Decode(Good) && TryDecode(tr[10], Good).ok
    ensures var s := tr[11];
            && es[11] == Decode(Good) && s.lowLatency && s.wired && s.latencyBlocks == 1
            && AtPlay(s, Good) == Some(s) && CompletePrefix(Decoding(s).jitter.blocks) == 2 && TryDecode(s, Good).played.Some?
  {
    hide Inv, Apply, Enabled, TryDecode, AtPlay, Decoding, CompletePrefix;
    tr, es := SortThree();
    hide Trace;
    var stock := {0, 1, 3, 4};
    AlwaysInv(tr, es, 9);
    PrefixOf(tr[9].jitter.blocks, 1);
    DecodeBroken(tr[9], 1);
    tr, es := Playing(tr, es, Broken,
                      Wired([Hole(2), Whole(3), Whole(4)], 4, 1, [], multiset{0, 1}, stock, 64, 0, Inactive));
    AlwaysInv(tr, es, 10);
    DecodeHole(tr[10], 2);
    tr, es := Playing(tr, es, Good, Wired([Whole(3), Whole(4)], 4, 2, [], multiset{0, 1}, stock, 128, 1, Inactive));
    AlwaysInv(tr, es, 11);
    PrefixOf(tr[11].jitter.blocks, 2);
    DecodeWhole(tr[11], 3);
    tr, es := Playing(tr, es, Good, Wired([Whole(4)], 4, 3, [], multiset{0, 1, 3}, stock, 256, 0, Inactive));
  }

  // ---------------------------------------------------------------- a packet from before the start

  /** A stream starts with block 5 in a sink that holds nothing. */
  lemma StartStep(s: Sink, e: Event)
    requires s == Wired([], SENTINEL, SENTINEL, [], multiset{}, {}, 0, 0, Inactive)
    requires e == Start(0, 5, true, true, 64, 4, 1, false)
    ensures Enabled(s, e)
    ensures Inv(s) ==> Apply(s, e) == Wired([], 4, SENTINEL, [], multiset{}, {}, 0, 0, Inactive)
  {
    hide Inv;
    assert JitterFrames([]) == multiset{};
  }

  /**
   A run in which the branch for an unknown block that is not newer than the newest one is taken:
   the stream starts with block 5 and a packet of block 3 arrives.
   */
  lemma OutdatedHappens() returns (tr: seq<Sink>, es: seq<Event>)
    ensures Trace(tr, es) && |es| == 3 && |tr| == 4
    ensures es[0].Start? && es[0].sequence == 5 && es[1] == Arrive(Data(3), 3) && es[2] == Sort
    ensures var s, d := tr[2], Data(3);
            && s.queue == [d] && d.streamId == s.streamId && !Stale(s, d) && s.jitter.lastPopped < d.sequence
            && Scan(s.jitter.blocks, d.sequence) == None && d.sequence <= s.jitter.lastPushed
            && Inv(s) && !Dequeue(s).accepted && tr[3].free == multiset{3}
  {
    hide Inv, Apply, Enabled;
    var e := Start(0, 5, true, true, 64, 4, 1, false);
    tr, es := [Wired([], SENTINEL, SENTINEL, [], multiset{}, {}, 0, 0, Inactive)], [];
    StartStep(tr[0], e);
    Grow(tr, es, e, Wired([], 4, SENTINEL, [], multiset{}, {}, 0, 0, Inactive));
    tr, es := tr + [Wired([], 4, SENTINEL, [], multiset{}, {}, 0, 0, Inactive)], es + [e];
    tr, es := Arriving(tr, es, 3, Wired([], 4, SENTINEL, [Data(3)], multiset{}, {3}, 0, 0, Inactive));
    AlwaysInv(tr, es, 2);
    RefuseStep(tr[2]);
    Grow(tr, es, Sort, Wired([], 4, SENTINEL, [], multiset{3}, {3}, 0, 0, Inactive));
    tr, es := tr + [Wired([], 4, SENTINEL, [], multiset{3}, {3}, 0, 0, Inactive)], es + [Sort];
  }

  lemma RefuseStep(s: Sink)
    requires Inv(s) && s == Wired([], 4, SENTINEL, [Data(3)], multiset{}, {3}, 0, 0, Inactive)
    ensures Enabled(s, Sort) && Apply(s, Sort) == Wired([], 4, SENTINEL, [], multiset{3}, {3}, 0, 0, Inactive)
    ensures Ordered(s.jitter) && !Dequeue(s).accepted
  {
    assert [Data(3)][1..] == [];
  }
}
