/**
 The jitter buffer of aoo/src/packet_buffer.hpp and .cpp: a ring of received blocks.

 The value type `Jitter` is the buffer as the sink sees it, a queue of blocks with the two
 sequence numbers last pushed and last popped. The class below is the ring itself; its
 methods are proved to act on the queue it represents.
 */
module JitterBuffer {
  import opened Wrappers
  import opened Arithmetic

  /** Marks "nothing pushed or popped since the last reset" (INT32_MIN). */
  const SENTINEL: int := -0x8000_0000

  /** Below this fill level find() scans, from it on it searches by bisection. */
  const SEARCH_THRESHOLD: nat := 10

  /**
   A received block. `frames` maps a frame index to the frame held there; a placeholder for a
   block of which nothing has arrived has `received == -1`.
   */
  datatype Block = Block(
    sequence: int, numFrames: nat, received: int, frames: map<nat, nat>,
    position: nat, blockFrames: nat)
  {
    predicate Complete() { received == numFrames }

    predicate Placeholder() { received < 0 }

    predicate Empty() { numFrames == 0 }
  }

  /** received_block::init(int32_t) */
  function Hole(sequence: int): Block { Block(sequence, 0, -1, map[], 0, 0) }

  /** received_block::clear: the frames go back to the allocator. */
  function Cleared(b: Block): Block { b.(numFrames := 0, received := 0, frames := map[]) }

  datatype Jitter = Jitter(capacity: nat, blocks: seq<Block>, lastPushed: int, lastPopped: int)

  function Fresh(capacity: nat): Jitter { Jitter(capacity, [], SENTINEL, SENTINEL) }

  function Reset(j: Jitter): Jitter { Fresh(j.capacity) }

  /** push(seq) followed by the initialisation of the slot it returns. */
  function Push(j: Jitter, b: Block): Jitter
    requires |j.blocks| < j.capacity
    requires j.lastPushed == SENTINEL || b.sequence - j.lastPushed == 1
  {
    j.(blocks := j.blocks + [b], lastPushed := b.sequence)
  }

  function Pop(j: Jitter): Jitter
    requires j.blocks != []
  {
    j.(blocks := j.blocks[1..], lastPopped := j.blocks[0].sequence)
  }

  /** advance_missing(): with nothing to play, count the next block as gone. */
  function AdvanceMissing(j: Jitter): Jitter
    requires j.blocks == []
  {
    if j.lastPopped == SENTINEL then j
    else
      var next := if j.lastPopped == INT32_MAX - 1 then 0 else j.lastPopped + 1;
      j.(lastPushed := next, lastPopped := next)
  }

  function ResetHead(j: Jitter, key: int): Jitter { j.(lastPushed := key) }

  /** A plain scan from the oldest block on. */
  function Scan(blocks: seq<Block>, sequence: int): (r: Option<nat>)
    ensures r.Some? ==> r.value < |blocks| && blocks[r.value].sequence == sequence
    ensures r == None <==> forall b | b in blocks :: b.sequence != sequence
  {
    if blocks == [] then None
    else if blocks[0].sequence == sequence then Some(0)
    else
      var r := Scan(blocks[1..], sequence);
      assert blocks == [blocks[0]] + blocks[1..];
      if r == None then None else Some(r.value + 1)
  }

  ghost predicate Consecutive(blocks: seq<Block>) {
    forall i | 0 <= i < |blocks| :: blocks[i].sequence == blocks[0].sequence + i
  }

  /**
   What every operation of the sink keeps: the held sequence numbers are consecutive, end at
   the last pushed one and start right after the last popped one.
   */
  ghost predicate Ordered(j: Jitter) {
    && 0 < j.capacity && |j.blocks| <= j.capacity
    && Consecutive(j.blocks)
    && (j.blocks != [] ==> 0 <= j.blocks[0].sequence && j.lastPushed == j.blocks[0].sequence + |j.blocks| - 1)
    && (j.blocks != [] && j.lastPopped != SENTINEL ==> j.blocks[0].sequence == j.lastPopped + 1)
    && (j.blocks == [] && j.lastPopped != SENTINEL ==> j.lastPushed == j.lastPopped)
    && (j.lastPushed == SENTINEL || -1 <= j.lastPushed)
    && (j.lastPopped == SENTINEL || 0 <= j.lastPopped)
    && j.lastPushed < INT32_MAX
  }

  lemma PushKeepsOrder(j: Jitter, b: Block)
    requires Ordered(j) && |j.blocks| < j.capacity && 0 <= b.sequence < INT32_MAX
    requires j.lastPushed == SENTINEL || b.sequence - j.lastPushed == 1
    ensures Ordered(Push(j, b))
  {
  }

  lemma PopKeepsOrder(j: Jitter)
    requires Ordered(j) && j.blocks != []
    ensures Ordered(Pop(j))
    ensures j.lastPopped != SENTINEL ==> Pop(j).lastPopped == j.lastPopped + 1
  {
    assert forall i | 0 <= i < |j.blocks[1..]| :: j.blocks[1..][i] == j.blocks[i + 1];
  }

  lemma AdvanceKeepsOrder(j: Jitter)
    requires Ordered(j) && j.blocks == []
    ensures Ordered(AdvanceMissing(j))
  {
  }

  /** In an ordered buffer the scan is arithmetic: exactly the numbers from the oldest to last_pushed are held. */
  lemma {:induction false} ScanOrdered(blocks: seq<Block>, sequence: int)
    requires Consecutive(blocks)
    ensures Scan(blocks, sequence) ==
            if blocks != [] && blocks[0].sequence <= sequence < blocks[0].sequence + |blocks|
            then Some(sequence - blocks[0].sequence) else None
  {
    var r := Scan(blocks, sequence);
    assert r.Some? ==> blocks[r.value].sequence == blocks[0].sequence + r.value;
    if blocks != [] && blocks[0].sequence <= sequence < blocks[0].sequence + |blocks| {
      assert blocks[sequence - blocks[0].sequence].sequence == sequence;
      assert blocks[sequence - blocks[0].sequence] in blocks;
    }
  }

  // ---------------------------------------------------------------- the ring

  /** The queue held by a ring of slots from `tail` on. */
  function Unrolled(data: seq<Block>, tail: nat, size: nat): (s: seq<Block>)
    requires tail < |data| && size <= |data|
    ensures |s| == size
    ensures forall i | 0 <= i < size :: s[i] == data[Slot(|data|, tail, i)]
  {
    if tail + size <= |data| then data[tail..tail + size]
    else data[tail..] + data[..tail + size - |data|]
  }

  /** The slot of the i-th held block. */
  function Slot(capacity: nat, tail: nat, i: nat): (k: nat)
    requires tail < capacity && i < capacity
    ensures k < capacity
  {
    if tail + i < capacity then tail + i else tail + i - capacity
  }

  /** `head` is the slot after the last held block. */
  predicate Placed(capacity: nat, head: nat, tail: nat, size: nat) {
    && tail < capacity && head < capacity && size <= capacity
    && head == (if tail + size < capacity then tail + size else tail + size - capacity)
  }

  /** Whether a slot holds a block of the (non-empty) queue. */
  predicate Occupied(head: nat, tail: nat, i: nat) {
    if head > tail then tail <= i < head else i < head || tail <= i
  }

  /** Both parts of the ring searched means the queue searched. */
  lemma SearchedAll(data: seq<Block>, head: nat, tail: nat, size: nat, key: int, r: Option<nat>)
    requires Placed(|data|, head, tail, size) && size > 0 && Consecutive(Unrolled(data, tail, size))
    requires r.Some? ==> r.value < |data| && data[r.value].sequence == key && Occupied(head, tail, r.value)
    requires r == None ==> forall i | 0 <= i < |data| && Occupied(head, tail, i) :: data[i].sequence != key
    ensures var s := Scan(Unrolled(data, tail, size), key);
            r == if s == None then None else Some(Slot(|data|, tail, s.value))
  {
    hide Scan, Unrolled;
    var blocks := Unrolled(data, tail, size);
    ScanOrdered(blocks, key);
    var s := Scan(blocks, key);
    if r.Some? {
      var i := if r.value >= tail then r.value - tail else r.value + |data| - tail;
      assert blocks[i] == data[r.value] && blocks[i] in blocks;
    } else {
      assert s.Some? ==> Occupied(head, tail, Slot(|data|, tail, s.value));
    }
  }

  /** The occupied slots have rising sequence numbers on either side of the wrap. */
  lemma Rising(data: seq<Block>, head: nat, tail: nat, size: nat, i: nat, j: nat)
    requires Placed(|data|, head, tail, size) && size > 0 && Consecutive(Unrolled(data, tail, size))
    requires i < j < |data| && Occupied(head, tail, i) && Occupied(head, tail, j) && (i < tail <==> j < tail)
    ensures data[i].sequence < data[j].sequence
  {
    var blocks := Unrolled(data, tail, size);
    var a := if i >= tail then i - tail else i + |data| - tail;
    var b := if j >= tail then j - tail else j + |data| - tail;
    assert blocks[a] == data[i] && blocks[b] == data[j];
  }

  class Ring {
    var data: array<Block>
    var size: nat
    var head: nat
    var tail: nat
    var lastPushed: int
    var lastPopped: int

    /** A slot outside the queue holds no frames. */
    ghost predicate Valid()
      reads this, data
    {
      && 0 < data.Length && Placed(data.Length, head, tail, size)
      && forall i | 0 <= i < data.Length && (size == 0 || !Occupied(head, tail, i)) ::
           data[i].numFrames == 0 && data[i].frames == map[]
    }

    ghost function Value(): Jitter
      requires Valid()
      reads this, data
    {
      Jitter(data.Length, Unrolled(data[..], tail, size), lastPushed, lastPopped)
    }

    constructor (capacity: nat)
      requires 0 < capacity
      ensures Valid() && fresh(data)
      ensures Value() == Fresh(capacity)
    {
      data := new Block[capacity](_ => Cleared(Hole(-1)));
      size, head, tail := 0, 0, 0;
      lastPushed, lastPopped := SENTINEL, SENTINEL;
    }

    /** reset(): every slot is cleared, whether it is part of the queue or not. */
    method ResetAll()
      requires Valid()
      modifies this, data
      ensures Valid() && data == old(data)
      ensures Value() == Reset(old(Value()))
      ensures forall i | 0 <= i < data.Length :: data[i] == Cleared(old(data[i]))
    {
      for k := 0 to data.Length
        invariant forall i | 0 <= i < k :: data[i] == Cleared(old(data[i]))
        invariant forall i | k <= i < data.Length :: data[i] == old(data[i])
        modifies data
      {
        data[k] := Cleared(data[k]);
      }
      size, head, tail := 0, 0, 0;
      lastPushed, lastPopped := SENTINEL, SENTINEL;
    }

    method Resize(capacity: nat)
      requires 0 < capacity
      modifies this
      ensures Valid() && fresh(data)
      ensures Value() == Fresh(capacity)
    {
      data := new Block[capacity](_ => Cleared(Hole(-1)));
      size, head, tail := 0, 0, 0;
      lastPushed, lastPopped := SENTINEL, SENTINEL;
    }

    method PushBlock(b: Block)
      requires Valid() && size < data.Length
      requires lastPushed == SENTINEL || b.sequence - lastPushed == 1
      modifies this, data
      ensures Valid() && data == old(data)
      ensures Value() == Push(old(Value()), b)
    {
      hide Unrolled;
      var current := head;
      head := head + 1;
      if head == data.Length {
        head := 0;
      }
      size := size + 1;
      lastPushed := b.sequence;
      data[current] := b;
      assert Value().blocks == old(Value()).blocks + [b];
    }

    /** pop() returns the frames of the oldest block to the allocator and drops the block. */
    method PopBlock() returns (b: Block)
      requires Valid() && size > 0
      modifies this, data
      ensures Valid() && data == old(data)
      ensures b == old(Value()).blocks[0]
      ensures Value() == Pop(old(Value()))
    {
      hide Unrolled;
      b := data[tail];
      data[tail] := Cleared(data[tail]);
      lastPopped := data[tail].sequence;
      tail := tail + 1;
      if tail == data.Length {
        tail := 0;
      }
      size := size - 1;
      assert Value().blocks == old(Value()).blocks[1..];
    }

    method Advance()
      requires Valid() && size == 0
      modifies this
      ensures Valid() && data == old(data)
      ensures Value() == AdvanceMissing(old(Value()))
    {
      if lastPopped != SENTINEL {
        var next := if lastPopped == INT32_MAX - 1 then 0 else lastPopped + 1;
        lastPushed, lastPopped := next, next;
      }
    }

    method SetHead(key: int)
      requires Valid()
      modifies this`lastPushed
      ensures Valid() && Value() == ResetHead(old(Value()), key)
    {
      lastPushed := key;
    }

    /** Overwriting the block in a slot of the queue. */
    method Update(ghost i: nat, slot: nat, b: Block)
      requires Valid() && i < size && slot == Slot(data.Length, tail, i)
      modifies data
      ensures Valid() && Value() == old(Value()).(blocks := old(Value()).blocks[i := b])
    {
      data[slot] := b;
      assert Value().blocks == old(Value()).blocks[i := b];
    }

    /** std::lower_bound on a range of slots with rising sequence numbers. */
    method LowerBound(begin: nat, end: nat, key: int) returns (k: nat)
      requires begin <= end <= data.Length
      requires forall i, j | begin <= i < j < end :: data[i].sequence < data[j].sequence
      ensures begin <= k <= end
      ensures forall i | begin <= i < k :: data[i].sequence < key
      ensures forall i | k <= i < end :: key <= data[i].sequence
    {
      k := begin;
      var hi := end;
      while k < hi
        invariant begin <= k <= hi <= end
        invariant forall i | begin <= i < k :: data[i].sequence < key
        invariant forall i | hi <= i < end :: key <= data[i].sequence
      {
        var mid := k + (hi - k) / 2;
        if data[mid].sequence < key { k := mid + 1; } else { hi := mid; }
      }
    }

    method FindIn(begin: nat, end: nat, key: int) returns (r: Option<nat>)
      requires begin <= end <= data.Length
      requires forall i, j | begin <= i < j < end :: data[i].sequence < data[j].sequence
      ensures r.Some? ==> begin <= r.value < end && data[r.value].sequence == key
      ensures r == None ==> forall i | begin <= i < end :: data[i].sequence != key
    {
      var k := LowerBound(begin, end, key);
      if k != end && data[k].sequence == key {
        return Some(k);
      }
      return None;
    }

    method ScanIn(begin: nat, end: nat, key: int) returns (r: Option<nat>)
      requires begin <= end <= data.Length
      ensures r.Some? ==> begin <= r.value < end && data[r.value].sequence == key
      ensures r == None ==> forall i | begin <= i < end :: data[i].sequence != key
    {
      for k := begin to end
        invariant forall i | begin <= i < k :: data[i].sequence != key
      {
        if data[k].sequence == key {
          return Some(k);
        }
      }
      return None;
    }

    /** The slot a search of the occupied part of the ring must come up with. */
    ghost predicate Found(key: int, r: Option<nat>)
      requires Valid()
      reads this, data
    {
      var s := Scan(Value().blocks, key);
      if s == None then r == None else r == Some(Slot(data.Length, tail, s.value))
    }

    /** What a search of the occupied slots has established. */
    ghost predicate Searched(key: int, r: Option<nat>)
      reads this, data
    {
      && (r.Some? ==> r.value < data.Length && data[r.value].sequence == key && Occupied(head, tail, r.value))
      && (r == None ==> forall i | 0 <= i < data.Length && Occupied(head, tail, i) :: data[i].sequence != key)
    }

    method ScanAll(key: int) returns (r: Option<nat>)
      requires Valid()
      ensures Searched(key, r)
    {
      if head > tail {
        r := ScanIn(tail, head, key);
      } else {
        r := ScanIn(0, head, key);
        if r == None {
          r := ScanIn(tail, data.Length, key);
        }
      }
    }

    method BisectAll(key: int) returns (r: Option<nat>)
      requires Valid() && size > 0 && Consecutive(Value().blocks)
      ensures Searched(key, r)
    {
      hide Unrolled;
      forall i, j | 0 <= i < j < data.Length && Occupied(head, tail, i) && Occupied(head, tail, j) && (i < tail <==> j < tail)
        ensures data[i].sequence < data[j].sequence
      {
        Rising(data[..], head, tail, size, i, j);
      }
      if head > tail {
        r := FindIn(tail, head, key);
      } else {
        r := FindIn(0, head, key);
        if r == None {
          r := FindIn(tail, data.Length, key);
        }
      }
    }

    /**
     find(): the last block first, then a scan or a bisection depending on the fill level. For
     every fill level, wrap position and key it returns what a plain scan of the queue finds.
     */
    method Find(key: int) returns (r: Option<nat>)
      requires Valid() && Consecutive(Value().blocks)
      ensures Found(key, r)
    {
      if size == 0 {
        return None;
      }
      hide Scan, Unrolled;
      var back := if head == 0 then data.Length - 1 else head - 1;
      if data[back].sequence == key {
        r := Some(back);
      } else if size < SEARCH_THRESHOLD {
        r := ScanAll(key);
      } else {
        r := BisectAll(key);
      }
      SearchedAll(data[..], head, tail, size, key, r);
    }
  }
}
