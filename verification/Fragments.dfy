/**
 The send path: an encoded block is cut into frames of at most the packet size
 (aoo/src/source.cpp, send_data), kept in the history, and cut again on request
 (aoo/src/packet_buffer.cpp, sent_block and history_buffer).
 */
module Fragments {
  import opened Wrappers
  import opened Arithmetic
  import opened Bytes

  /** The pieces of a block: all full but the last, which is not empty. */
  function Chunks(data: Data, max: nat): (r: seq<Data>)
    requires max > 0
  {
    if data == [] then []
    else if |data| <= max then [data]
    else [data[..max]] + Chunks(data[max..], max)
  }

  lemma {:induction false} ChunksConcat(data: Data, max: nat)
    requires max > 0
    ensures Concat(Chunks(data, max)) == data
  {
    if |data| > max {
      ChunksConcat(data[max..], max);
      var rest := Chunks(data[max..], max);
      assert ([data[..max]] + rest)[1..] == rest;
      assert data == data[..max] + data[max..];
    } else if data != [] {
      assert Concat([data]) == data + Concat([]);
    }
  }

  /** num_frames: the quotient, rounded up. */
  function NumFrames(total: nat, max: nat): nat
    requires max > 0
  {
    total / max + (if total % max != 0 then 1 else 0)
  }

  lemma {:induction false} ChunkCount(data: Data, max: nat)
    requires max > 0
    ensures |Chunks(data, max)| == NumFrames(|data|, max)
    decreases |data|
  {
    if |data| > max {
      ChunkCount(data[max..], max);
      DivStep(|data|, max);
    } else if |data| == max {
      DivUnique(|data|, max, 1);
    } else if |data| > 0 {
      DivUnique(|data|, max, 0);
    }
  }

  /** The i-th piece starts at i * max and is full unless it is the last one. */
  lemma {:induction false} ChunkAt(data: Data, max: nat, i: nat)
    requires max > 0 && i < |Chunks(data, max)|
    ensures i * max < |data|
    ensures i + 1 < |Chunks(data, max)| ==> (i + 1) * max < |data| && Chunks(data, max)[i] == data[i * max..(i + 1) * max]
    ensures i + 1 == |Chunks(data, max)| ==> |data| <= (i + 1) * max && Chunks(data, max)[i] == data[i * max..]
    decreases |data|
  {
    if |data| > max {
      var rest := Chunks(data[max..], max);
      if i > 0 {
        ChunkAt(data[max..], max, i - 1);
        ShiftedSlice(data, max, i);
      } else {
        assert rest != [];
      }
    }
  }

  lemma ShiftedSlice(data: Data, max: nat, i: nat)
    requires max <= |data| && i > 0 && (i - 1) * max <= |data| - max
    ensures i * max <= |data| && data[max..][(i - 1) * max..] == data[i * max..]
    ensures i * max <= |data| - max ==> data[max..][(i - 1) * max..i * max] == data[i * max..(i + 1) * max]
  {
    assert (i - 1) * max == i * max - max && (i + 1) * max == i * max + max;
  }

  /** A frame as it goes out. */
  datatype Frame = Frame(index: nat, data: Data)

  /** The pieces in terms of quotient and remainder. */
  lemma ChunkByQuotient(data: Data, max: nat, q: nat, r: nat, i: nat)
    requires max > 0 && |data| == q * max + r && r < max && i < |Chunks(data, max)|
    requires |Chunks(data, max)| == q + (if r != 0 then 1 else 0)
    ensures i < q ==> i * max + max <= |data| && Chunks(data, max)[i] == data[i * max..i * max + max]
    ensures i == q ==> Chunks(data, max)[i] == data[i * max..]
  {
    ChunkAt(data, max, i);
    hide Chunks;
    var x := i * max;
    assert (i + 1) * max == x + max;
    if i + 1 == |Chunks(data, max)| && i < q {
      assert |data| == x + max;
      assert data[x..x + max] == data[x..];
    }
  }

  /**
   The send loop of send_data: full frames first, then the remaining bytes, or a single empty
   frame for an empty block.
   */
  method SendFrames(data: Data, max: nat) returns (out: seq<Frame>)
    requires max > 0
    ensures data != [] ==> |out| == |Chunks(data, max)| && forall i | 0 <= i < |out| :: out[i] == Frame(i, Chunks(data, max)[i])
    ensures data == [] ==> out == [Frame(0, [])]
  {
    ChunkCount(data, max);
    hide Chunks;
    var quot, rem := |data| / max, |data| % max;
    assert |data| == quot * max + rem;
    out := [];
    var ptr := 0;
    var j := 0;
    while j < quot
      invariant j <= quot && ptr == j * max && |out| == j
      invariant forall i | 0 <= i < j :: out[i] == Frame(i, Chunks(data, max)[i])
    {
      ChunkByQuotient(data, max, quot, rem, j);
      out := out + [Frame(j, data[ptr..ptr + max])];
      assert (j + 1) * max == j * max + max;
      ptr := ptr + max;
      j := j + 1;
    }
    if rem != 0 || |data| == 0 {
      if rem != 0 {
        ChunkByQuotient(data, max, quot, rem, quot);
      }
      out := out + [Frame(quot, data[ptr..ptr + rem])];
    }
  }

  /** sent_block: an encoded block and how it was cut. */
  datatype Sent = Sent(sequence: int, frameSize: nat, numFrames: nat, data: Data)

  /** A block as send_data saves it; the empty blocks of send_xruns have no frame size. */
  ghost predicate WellCut(b: Sent) {
    if b.frameSize == 0 then b.numFrames == 0 && b.data == [] else b.numFrames == NumFrames(|b.data|, b.frameSize)
  }

  /** sent_block::get_frame; with too small a buffer nothing is copied. */
  function GetFrame(b: Sent, index: nat, count: nat): (r: Data)
    requires WellCut(b) && index < b.numFrames
    ensures var c := Chunks(b.data, b.frameSize);
            index < |c| && c[index] != [] && r == if count >= |c[index]| then c[index] else []
  {
    ChunkCount(b.data, b.frameSize);
    ChunkAt(b.data, b.frameSize, index);
    var onset := index * b.frameSize;
    var size := if index == b.numFrames - 1 then |b.data| - onset else b.frameSize;
    assert onset + b.frameSize == (index + 1) * b.frameSize;
    if count >= size then b.data[onset..onset + size] else []
  }

  // ---------------------------------------------------------------- history

  /** What the history keeps: the most recent `capacity` blocks. */
  function Keep(held: seq<Sent>, capacity: nat, b: Sent): (r: seq<Sent>)
    requires |held| <= capacity && 0 < capacity
  {
    (if |held| == capacity then held[1..] else held) + [b]
  }

  ghost predicate Increasing(held: seq<Sent>) {
    forall i, j | 0 <= i < j < |held| :: held[i].sequence < held[j].sequence
  }

  /** The last `capacity` of all blocks ever pushed. */
  function Recent(all: seq<Sent>, capacity: nat): seq<Sent> {
    if |all| <= capacity then all else all[|all| - capacity..]
  }

  /** The history holds the most recent blocks, so one is found until `capacity` newer ones have been pushed. */
  lemma KeepIsRecent(all: seq<Sent>, capacity: nat, b: Sent)
    requires 0 < capacity
    ensures Keep(Recent(all, capacity), capacity, b) == Recent(all + [b], capacity)
    ensures forall i | |all| - capacity < i < |all| :: 0 <= i ==> all[i] in Recent(all + [b], capacity)
  {
    var r := Recent(all + [b], capacity);
    var d := if |all| < capacity then 0 else |all| + 1 - capacity;
    assert r == all[d..] + [b];
    assert forall i | d <= i < |all| :: r[i - d] == all[i];
    if |all| >= capacity {
      assert Recent(all, capacity) == all[|all| - capacity..];
      assert all[|all| - capacity..][1..] == all[d..];
    } else {
      assert all[0..] == all;
    }
  }

  /** Rising sequence numbers stay rising until the sequence wraps around. */
  lemma KeepIncreasing(held: seq<Sent>, capacity: nat, b: Sent)
    requires |held| <= capacity && 0 < capacity && Increasing(held)
    ensures Increasing(Keep(held, capacity, b)) <==> forall i | 0 <= i < |held| && (i > 0 || |held| < capacity) :: held[i].sequence < b.sequence
  {
    var r := Keep(held, capacity, b);
    var d := if |held| == capacity then 1 else 0;
    assert r[|r| - 1] == b;
    assert forall i | 0 <= i < |r| - 1 :: r[i] == held[i + d];
    assert forall i | d <= i < |held| :: held[i] == r[i - d];
  }

  // ---------------------------------------------------------------- sequence numbers that wrap around

  /** sequence_++ in send_data and send_xruns */
  function Successor(sequence: int): int { if sequence == INT32_MAX - 1 then 0 else sequence + 1 }

  /** What the source pushes: one number after the other. */
  ghost predicate Successive(held: seq<Sent>) {
    && (forall i | 0 <= i < |held| :: 0 <= held[i].sequence < INT32_MAX)
    && forall i | 0 < i < |held| :: held[i].sequence == Successor(held[i - 1].sequence)
  }

  /** The numbers wrap around inside the history. */
  ghost predicate Wraps(held: seq<Sent>) { exists i | 0 < i < |held| :: held[i].sequence == 0 }

  lemma KeepSuccessive(held: seq<Sent>, capacity: nat, b: Sent)
    requires |held| <= capacity && 0 < capacity && Successive(held) && 0 <= b.sequence < INT32_MAX
    requires held != [] ==> b.sequence == Successor(held[|held| - 1].sequence)
    ensures Successive(Keep(held, capacity, b))
  {
    var r := Keep(held, capacity, b);
    var d := if |held| == capacity then 1 else 0;
    assert forall i | 0 <= i < |r| - 1 :: r[i] == held[i + d];
  }

  /** Without a wrap the numbers are consecutive, so they increase. */
  lemma {:induction false} SuccessiveAt(held: seq<Sent>, i: nat)
    requires Successive(held) && !Wraps(held) && i < |held|
    ensures held[i].sequence == held[0].sequence + i
  {
    if i > 0 {
      SuccessiveAt(held, i - 1);
    }
  }

  lemma SuccessiveIncreases(held: seq<Sent>)
    requires Successive(held) && !Wraps(held)
    ensures Increasing(held)
  {
    forall i, j | 0 <= i < j < |held| ensures held[i].sequence < held[j].sequence {
      SuccessiveAt(held, i);
      SuccessiveAt(held, j);
    }
  }

  // ---------------------------------------------------------------- lookup

  /** The held blocks in the order in which they were pushed; once the ring is full the oldest is at `head`. */
  function HeldIn(buf: seq<Sent>, head: nat, size: nat): (s: seq<Sent>)
    requires Layout(buf, head, size)
    ensures |s| == size
  {
    if size < |buf| then buf[..size] else buf[head..] + buf[..head]
  }

  /** The ring fills from slot 0. */
  predicate Layout(buf: seq<Sent>, head: nat, size: nat) {
    0 < |buf| && head < |buf| && size <= |buf| && (size < |buf| ==> head == size)
  }

  /** std::lower_bound */
  function LowerBound(buf: seq<Sent>, lo: nat, hi: nat, key: int): (k: nat)
    requires lo <= hi <= |buf|
    ensures lo <= k <= hi
    decreases hi - lo
  {
    if lo == hi then lo
    else
      var mid := lo + (hi - lo) / 2;
      if buf[mid].sequence < key then LowerBound(buf, mid + 1, hi, key) else LowerBound(buf, lo, mid, key)
  }

  function FoundIn(buf: seq<Sent>, lo: nat, hi: nat, key: int): (r: Option<nat>)
    requires lo <= hi <= |buf|
    ensures r.Some? ==> lo <= r.value < hi && buf[r.value].sequence == key
  {
    var k := LowerBound(buf, lo, hi, key);
    if k != hi && buf[k].sequence == key then Some(k) else None
  }

  /** history_buffer::find: the slot of the block with the given number. */
  function Lookup(buf: seq<Sent>, head: nat, size: nat, key: int): (r: Option<nat>)
    requires Layout(buf, head, size)
    ensures r.Some? ==> r.value < size && buf[r.value].sequence == key
  {
    var tail := if size == |buf| then head else 0;
    if size == 0 || key < buf[tail].sequence then None
    else if head != tail then FoundIn(buf, tail, head, key)
    else
      var r := FoundIn(buf, 0, head, key);
      if r.None? then FoundIn(buf, head, |buf|, key) else r
  }

  ghost predicate Rising(buf: seq<Sent>, lo: nat, hi: nat)
    requires hi <= |buf|
  {
    forall i, j | lo <= i < j < hi :: buf[i].sequence < buf[j].sequence
  }

  /** In a range of rising numbers the bisection finds what is there. */
  lemma {:induction false} BisectionFinds(buf: seq<Sent>, lo: nat, hi: nat, key: int, i: nat)
    requires lo <= i < hi <= |buf| && Rising(buf, lo, hi) && buf[i].sequence == key
    ensures LowerBound(buf, lo, hi, key) == i
    decreases hi - lo
  {
    var mid := lo + (hi - lo) / 2;
    if buf[mid].sequence < key {
      BisectionFinds(buf, mid + 1, hi, key, i);
    } else if i < mid {
      BisectionFinds(buf, lo, mid, key, i);
    } else {
      AllBelow(buf, lo, mid, key);
    }
  }

  lemma {:induction false} AllBelow(buf: seq<Sent>, lo: nat, hi: nat, key: int)
    requires lo <= hi <= |buf| && forall j | lo <= j < hi :: buf[j].sequence < key
    ensures LowerBound(buf, lo, hi, key) == hi
    decreases hi - lo
  {
    if lo < hi {
      AllBelow(buf, lo + (hi - lo) / 2 + 1, hi, key);
    }
  }

  /** The slot of the i-th held block. */
  function SlotOf(length: nat, head: nat, size: nat, i: nat): (k: nat)
    requires head < length && i < size <= length
    ensures k < length
  {
    if size < length then i else if head + i < length then head + i else head + i - length
  }

  lemma HeldAt(buf: seq<Sent>, head: nat, size: nat, i: nat)
    requires Layout(buf, head, size) && i < size
    ensures HeldIn(buf, head, size)[i] == buf[SlotOf(|buf|, head, size, i)]
  {
  }

  lemma HalvesRise(buf: seq<Sent>, head: nat, size: nat)
    requires Layout(buf, head, size) && Increasing(HeldIn(buf, head, size))
    ensures if size < |buf| then Rising(buf, 0, size) else Rising(buf, 0, head) && Rising(buf, head, |buf|)
  {
    var held := HeldIn(buf, head, size);
    if size == |buf| {
      forall i, j | 0 <= i < j < |buf| && (j < head || head <= i) ensures buf[i].sequence < buf[j].sequence {
        var d: int := if j < head then |buf| - head else 0 - head;
        assert buf[i] == held[i + d] && buf[j] == held[j + d];
      }
    } else {
      assert forall i | 0 <= i < size :: buf[i] == held[i];
    }
  }

  /** While the numbers increase, every held block is found. */
  lemma IncreasingIsFound(buf: seq<Sent>, head: nat, size: nat, i: nat)
    requires Layout(buf, head, size) && Increasing(HeldIn(buf, head, size)) && i < size
    ensures Lookup(buf, head, size, HeldIn(buf, head, size)[i].sequence) == Some(SlotOf(|buf|, head, size, i))
  {
    var held := HeldIn(buf, head, size);
    var k, key := SlotOf(|buf|, head, size, i), held[i].sequence;
    HalvesRise(buf, head, size);
    HeldAt(buf, head, size, i);
    HeldAt(buf, head, size, 0);
    assert held[0].sequence <= key;
    if size < |buf| {
      BisectionFinds(buf, 0, size, key, k);
    } else if k >= head {
      BisectionFinds(buf, head, |buf|, key, k);
      NotInOther(buf, head, key, k);
    } else {
      BisectionFinds(buf, 0, head, key, k);
    }
  }

  /** In a full ring the older half has the smaller numbers. */
  lemma NotInOther(buf: seq<Sent>, head: nat, key: int, k: nat)
    requires head <= k < |buf| && 0 < |buf| && buf[k].sequence == key && Increasing(HeldIn(buf, head, |buf|))
    ensures FoundIn(buf, 0, head, key) == None
  {
    var held := HeldIn(buf, head, |buf|);
    assert held[k - head] == buf[k];
    assert forall j | 0 <= j < head :: buf[j] == held[|buf| - head + j];
  }

  ghost predicate AllFound(buf: seq<Sent>, head: nat, size: nat)
    requires Layout(buf, head, size)
  {
    forall i | 0 <= i < size ::
      Lookup(buf, head, size, HeldIn(buf, head, size)[i].sequence) == Some(SlotOf(|buf|, head, size, i))
  }

  /** Every held block is found if and only if the numbers do not wrap around inside the history. */
  lemma FoundUnlessWrapped(buf: seq<Sent>, head: nat, size: nat)
    requires Layout(buf, head, size) && Successive(HeldIn(buf, head, size))
    ensures AllFound(buf, head, size) <==> !Wraps(HeldIn(buf, head, size))
  {
    var held := HeldIn(buf, head, size);
    if Wraps(held) {
      if i :| 0 < i < size && held[i].sequence == 0 {
        if held[0].sequence > 0 {
          HeldAt(buf, head, size, 0);
          assert Lookup(buf, head, size, 0) == None;
        } else {
          FullTurn(buf, head, size, i);
        }
      }
    } else {
      SuccessiveIncreases(held);
      forall i | 0 <= i < size
        ensures Lookup(buf, head, size, held[i].sequence) == Some(SlotOf(|buf|, head, size, i))
      {
        IncreasingIsFound(buf, head, size, i);
      }
    }
  }

  /** A number that is held twice cannot be found at both places. */
  lemma FullTurn(buf: seq<Sent>, head: nat, size: nat, i: nat)
    requires Layout(buf, head, size) && 0 < i < size
    requires HeldIn(buf, head, size)[i].sequence == HeldIn(buf, head, size)[0].sequence
    ensures !AllFound(buf, head, size)
  {
    assert SlotOf(|buf|, head, size, i) != SlotOf(|buf|, head, size, 0);
    hide Lookup, HeldIn;
  }

  /**
   A history that has just wrapped around: the blocks 0 and 1 are held and not found because they
   are below the oldest number, and the block before them is above it and not found either.
   */
  lemma WrappedHistoryMisses() returns (buf: seq<Sent>)
    ensures Layout(buf, 4, 4) && Successive(HeldIn(buf, 4, 4))
    ensures HeldIn(buf, 4, 4)[1].sequence == INT32_MAX - 1 && Lookup(buf, 4, 4, INT32_MAX - 1) == None
    ensures HeldIn(buf, 4, 4)[2].sequence == 0 && Lookup(buf, 4, 4, 0) == None
    ensures HeldIn(buf, 4, 4)[3].sequence == 1 && Lookup(buf, 4, 4, 1) == None
  {
    var a, b, c, d := Sent(INT32_MAX - 2, 0, 0, []), Sent(INT32_MAX - 1, 0, 0, []), Sent(0, 0, 0, []), Sent(1, 0, 0, []);
    buf := [a, b, c, d, a];
    assert HeldIn(buf, 4, 4) == [a, b, c, d];
    assert LowerBound(buf, 3, 4, INT32_MAX - 1) == LowerBound(buf, 4, 4, INT32_MAX - 1) == 4;
    assert LowerBound(buf, 0, 4, INT32_MAX - 1) == LowerBound(buf, 3, 4, INT32_MAX - 1);
  }

  /** history_buffer */
  class History {
    var buffer: array<Sent>
    var head: nat
    var size: nat

    ghost predicate Valid()
      reads this, buffer
    {
      Layout(buffer[..], head, size)
    }

    ghost function Held(): (s: seq<Sent>)
      requires Valid()
      reads this, buffer
    {
      HeldIn(buffer[..], head, size)
    }

    constructor (capacity: nat)
      requires 0 < capacity
      ensures Valid() && fresh(buffer) && buffer.Length == capacity && Held() == []
    {
      buffer := new Sent[capacity](_ => Sent(-1, 0, 0, []));
      head, size := 0, 0;
    }

    /** push() and set() on the slot it returns. */
    method Push(b: Sent)
      requires Valid()
      modifies this, buffer
      ensures Valid() && buffer == old(buffer)
      ensures Held() == Keep(old(Held()), buffer.Length, b)
    {
      var slot := head;
      head := head + 1;
      if head >= buffer.Length {
        head := 0;
      }
      if size < buffer.Length {
        size := size + 1;
      }
      buffer[slot] := b;
    }

    method FindIn(begin: nat, end: nat, key: int) returns (r: Option<nat>)
      requires begin <= end <= buffer.Length
      ensures r == FoundIn(buffer[..], begin, end, key)
    {
      var k, hi := begin, end;
      while k < hi
        invariant begin <= k <= hi <= end
        invariant LowerBound(buffer[..], k, hi, key) == LowerBound(buffer[..], begin, end, key)
      {
        var mid := k + (hi - k) / 2;
        if buffer[mid].sequence < key { k := mid + 1; } else { hi := mid; }
      }
      r := if k != end && buffer[k].sequence == key then Some(k) else None;
    }

    /** find(), slot by slot as the code does it */
    method FindSlot(key: int) returns (r: Option<nat>)
      requires Valid()
      ensures r == Lookup(buffer[..], head, size, key)
    {
      if size == 0 {
        return None;
      }
      var tail := if size == buffer.Length then head else 0;
      if key < buffer[tail].sequence {
        return None;
      }
      if head != tail {
        r := FindIn(tail, head, key);
      } else {
        r := FindIn(0, head, key);
        if r.None? {
          r := FindIn(head, buffer.Length, key);
        }
      }
    }

    /**
     find(): only ever the right block; while the held numbers are successive and have not wrapped
     around, exactly the block that is held.
     */
    method Find(key: int) returns (r: Option<Sent>)
      requires Valid()
      ensures r == (var k := Lookup(buffer[..], head, size, key); if k.None? then None else Some(buffer[k.value]))
      ensures r.Some? ==> r.value in Held() && r.value.sequence == key
      ensures Increasing(Held()) ==> forall b | b in Held() && b.sequence == key :: r == Some(b)
      ensures Successive(Held()) && !Wraps(Held()) ==> forall b | b in Held() && b.sequence == key :: r == Some(b)
    {
      var slot := FindSlot(key);
      r := if slot.None? then None else Some(buffer[slot.value]);
      ghost var buf, held := buffer[..], Held();
      if slot.Some? {
        SlotIsHeld(buf, head, size, slot.value);
      }
      if Successive(held) && !Wraps(held) {
        SuccessiveIncreases(held);
      }
      if Increasing(held) {
        forall b | b in held && b.sequence == key ensures r == Some(b) {
          var i :| 0 <= i < |held| && held[i] == b;
          IncreasingIsFound(buf, head, size, i);
          HeldAt(buf, head, size, i);
        }
      }
      hide Lookup, HeldIn, Increasing, Successive, Wraps;
    }
  }

  lemma SlotIsHeld(buf: seq<Sent>, head: nat, size: nat, k: nat)
    requires Layout(buf, head, size) && k < size
    ensures buf[k] in HeldIn(buf, head, size)
  {
    var i := if size < |buf| then k else if k >= head then k - head else k + |buf| - head;
    HeldAt(buf, head, size, i);
  }
}
