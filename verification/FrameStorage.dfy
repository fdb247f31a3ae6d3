/**
 The frames of a block that is being received (aoo/src/data_frame.hpp and .cpp,
 data_frame_storage): an array of slots for small blocks; a sorted linked list with a bitset for
 large ones, whose bitset covers only the first 256 indices.
 */
module FrameStorage {
  import opened Bytes
  import Receive

  const FRAME_LIMIT: nat := 256
  /** 2 + FRAME_LIMIT / 64 on a 64-bit machine */
  const SMALL_FRAME_LIMIT: nat := 6

  /** data_frame with the list fields of its header */
  class Node {
    const data: Data
    var index: nat
    var next: Node?

    constructor (data: Data)
      ensures this.data == data
    {
      this.data := data;
      index, next := 0, null;
    }
  }

  ghost function NodeAt(nodes: seq<Node>, i: nat): Node? {
    if i < |nodes| then nodes[i] else null
  }

  ghost predicate Chained(nodes: seq<Node>)
    reads nodes`next
  {
    forall i {:trigger nodes[i].next} | 0 <= i < |nodes| :: nodes[i].next == NodeAt(nodes, i + 1)
  }

  lemma NextOf(nodes: seq<Node>, p: nat)
    requires Chained(nodes) && 1 <= p <= |nodes|
    ensures nodes[p - 1].next == NodeAt(nodes, p)
  {
  }

  ghost predicate Sorted(nodes: seq<Node>)
    reads nodes`index
  {
    forall i, j | 0 <= i < j < |nodes| :: nodes[i].index < nodes[j].index
  }

  /** The nodes of a list in order: linked, and with rising indices. */
  ghost predicate Linked(nodes: seq<Node>)
    reads nodes`next, nodes`index
  {
    Chained(nodes) && Sorted(nodes)
  }

  function Inserted(nodes: seq<Node>, p: nat, frame: Node): (r: seq<Node>)
    requires p <= |nodes|
    ensures |r| == |nodes| + 1
    ensures r[0] == (if p == 0 then frame else nodes[0])
    ensures r[|nodes|] == if p == |nodes| then frame else nodes[|nodes| - 1]
  {
    nodes[..p] + [frame] + nodes[p..]
  }

  lemma InsertedSorted(nodes: seq<Node>, p: nat, frame: Node)
    requires Sorted(nodes) && p <= |nodes|
    requires p > 0 ==> nodes[p - 1].index < frame.index
    requires p < |nodes| ==> frame.index < nodes[p].index
    ensures Sorted(Inserted(nodes, p, frame))
  {
    var r := Inserted(nodes, p, frame);
    assert forall i | 0 <= i < |r| :: r[i] == if i < p then nodes[i] else if i == p then frame else nodes[i - 1];
    assert forall i | 0 <= i < p :: nodes[i].index < frame.index;
    assert forall i | p <= i < |nodes| :: frame.index < nodes[i].index;
    hide Inserted;
  }

  /** A frame goes in at position p: only its own and its predecessor's pointer change. */
  lemma InsertedChained(nodes: seq<Node>, p: nat, frame: Node)
    requires p <= |nodes| && frame !in nodes
    requires frame.next == NodeAt(nodes, p) && (p > 0 ==> nodes[p - 1].next == frame)
    requires forall i {:trigger nodes[i].next} | 0 <= i < |nodes| && i != p - 1 :: nodes[i].next == NodeAt(nodes, i + 1)
    ensures Chained(Inserted(nodes, p, frame))
  {
    var nodes' := Inserted(nodes, p, frame);
    forall i | 0 <= i < |nodes'| ensures nodes'[i].next == NodeAt(nodes', i + 1) {
      if i > p {
        assert nodes'[i] == nodes[i - 1] && nodes[i - 1].next == NodeAt(nodes, i);
      } else if i < p - 1 {
        assert nodes'[i] == nodes[i] && nodes[i].next == NodeAt(nodes, i + 1);
      }
    }
  }

  /** Nodes with rising indices are pairwise different. */
  lemma SortedDistinct(nodes: seq<Node>, p: nat)
    requires Sorted(nodes) && p < |nodes|
    ensures forall i | 0 <= i < |nodes| && i != p :: nodes[i] != nodes[p]
  {
  }

  lemma AllDistinct(nodes: seq<Node>)
    requires Sorted(nodes)
    ensures forall i, j | 0 <= i < j < |nodes| :: nodes[i] != nodes[j]
  {
  }

  lemma InsertedHolds(nodes: seq<Node>, p: nat, frame: Node, frames: map<nat, Node>)
    requires Holds(nodes, frames) && p <= |nodes| && frame.index !in frames
    ensures Holds(Inserted(nodes, p, frame), frames[frame.index := frame])
  {
    var nodes', frames' := Inserted(nodes, p, frame), frames[frame.index := frame];
    assert forall x :: x in nodes' <==> x == frame || x in nodes;
    assert frames'.Keys == frames.Keys + {frame.index};
    assert |frames'| == |frames'.Keys| && |frames| == |frames.Keys|;
    forall i | 0 <= i < |nodes'| ensures nodes'[i].index in frames' && frames'[nodes'[i].index] == nodes'[i] {
      assert nodes'[i] == frame || nodes'[i] in nodes;
    }
  }

  /** The list holds exactly the frames of the map, each under its index. */
  ghost predicate Holds(nodes: seq<Node>, frames: map<nat, Node>)
    reads nodes`index
  {
    && (forall i | 0 <= i < |nodes| :: nodes[i].index in frames && frames[nodes[i].index] == nodes[i])
    && (forall k | k in frames :: frames[k] in nodes)
    && |nodes| == |frames|
  }

  lemma HoldsFacts(nodes: seq<Node>, frames: map<nat, Node>, frame: Node)
    requires Holds(nodes, frames) && frame.index !in frames && frame !in frames.Values
    ensures forall x | x in nodes :: x in frames.Values && x.index != frame.index && x != frame
  {
  }

  /** Rising indices are at least as large as the positions, and at most as large as the space behind them allows. */
  lemma {:induction false} IndexAtLeast(nodes: seq<Node>, i: nat)
    requires Sorted(nodes) && i < |nodes|
    ensures nodes[i].index >= i
  {
    if i > 0 {
      IndexAtLeast(nodes, i - 1);
    }
  }

  lemma {:induction false} IndexAtMost(nodes: seq<Node>, n: nat, i: nat)
    requires Sorted(nodes) && |nodes| == n && i < n && forall x | x in nodes :: x.index < n
    ensures nodes[i].index <= i
    decreases n - i
  {
    if i + 1 < n {
      IndexAtMost(nodes, n, i + 1);
    }
  }

  /** The contents of the first n frames. */
  ghost function Parts(frames: map<nat, Node>, n: nat): (r: seq<Data>)
    requires forall i | 0 <= i < n :: i in frames
    ensures |r| == n && forall i | 0 <= i < n :: r[i] == frames[i].data
  {
    if n == 0 then [] else Parts(frames, n - 1) + [frames[n - 1].data]
  }

  lemma PartsStep(frames: map<nat, Node>, n: nat)
    requires forall i | 0 <= i <= n :: i in frames
    ensures Concat(Parts(frames, n + 1)) == Concat(Parts(frames, n)) + frames[n].data
  {
    ConcatAppend(Parts(frames, n), [frames[n].data]);
    assert Concat([frames[n].data]) == frames[n].data + Concat([]);
  }

  /** A sorted list that holds the frames of a map holds each of them once. */
  lemma AllOnce(nodes: seq<Node>, frames: map<nat, Node>)
    requires Sorted(nodes) && Holds(nodes, frames)
    ensures multiset(nodes) == multiset(frames.Values)
  {
    OnceEach(nodes);
    assert forall x :: x in nodes <==> x in frames.Values;
    forall x ensures multiset(nodes)[x] == multiset(frames.Values)[x] {
      assert x in multiset(nodes) <==> x in nodes;
    }
  }

  lemma {:induction false} OnceEach(nodes: seq<Node>)
    requires Sorted(nodes)
    ensures forall x | x in nodes :: multiset(nodes)[x] == 1
  {
    if nodes != [] {
      var n := |nodes| - 1;
      OnceEach(nodes[..n]);
      SortedDistinct(nodes, n);
      assert nodes == nodes[..n] + [nodes[n]];
      assert nodes[n] !in nodes[..n];
    }
  }

  /** Linking a frame in behind the node at position p - 1; what comes next is already known. */
  method Splice(ghost nodes: seq<Node>, ghost p: nat, ptr: Node, frame: Node, next: Node?)
    requires Linked(nodes) && 1 <= p <= |nodes| && ptr == nodes[p - 1] && frame !in nodes && next == NodeAt(nodes, p)
    modifies ptr`next, frame`next
    ensures Chained(Inserted(nodes, p, frame)) && frame.next == next
  {
    SortedDistinct(nodes, p - 1);
    hide Sorted, Inserted;
    frame.next := next;
    ptr.next := frame;
    InsertedChained(nodes, p, frame);
  }

  /** The loop of copy_frames over a complete list. */
  method CopyNodes(ghost nodes: seq<Node>, head: Node?, ghost frames: map<nat, Node>) returns (out: Data)
    requires Chained(nodes) && head == NodeAt(nodes, 0)
    requires forall i | 0 <= i < |nodes| :: i in frames && nodes[i] == frames[i] && nodes[i].index == i
    ensures out == Concat(Parts(frames, |nodes|))
  {
    hide Concat, Parts;
    out := [];
    PartsNone(frames);
    var frame, index := head, 0;
    while frame != null
      invariant 0 <= index <= |nodes| && frame == NodeAt(nodes, index)
      invariant out == Concat(Parts(frames, index))
      decreases |nodes| - index
    {
      assert frame.index == index;
      PartsStep(frames, index);
      NextOf(nodes, index + 1);
      out := out + frame.data;
      frame := frame.next;
      index := index + 1;
    }
  }

  lemma PartsNone(frames: map<nat, Node>)
    ensures Concat(Parts(frames, 0)) == []
  {
  }

  /** The loop of clear over a list. */
  method FreeNodes(ghost nodes: seq<Node>, head: Node?, bin: Node?) returns (freed: seq<Node>)
    requires Chained(nodes) && head == NodeAt(nodes, 0)
    requires forall i, j | 0 <= i < j < |nodes| :: nodes[i] != nodes[j]
    modifies nodes`next
    ensures freed == nodes
  {
    freed := [];
    var frame, top := head, bin;
    ghost var k := 0;
    while frame != null
      invariant 0 <= k <= |nodes| && freed == nodes[..k] && frame == NodeAt(nodes, k)
      invariant forall i {:trigger nodes[i].next} | k <= i < |nodes| :: nodes[i].next == NodeAt(nodes, i + 1)
      decreases |nodes| - k
    {
      var next := frame.next;
      assert next == NodeAt(nodes, k + 1);
      frame.next := top;
      top := frame;
      assert nodes[..k + 1] == nodes[..k] + [nodes[k]];
      freed := freed + [frame];
      frame := next;
      k := k + 1;
    }
  }

  class FrameStorage {
    var size: nat
    const slots: array<Node?>
    var head: Node?
    var tail: Node?
    const bitset: array<bool>
    ghost var nodes: seq<Node>
    ghost var frames: map<nat, Node>

    ghost predicate Valid()
      reads this, slots, bitset, nodes, frames.Values
    {
      && slots.Length == SMALL_FRAME_LIMIT && bitset.Length == FRAME_LIMIT
      && (forall k | k in frames :: k < size && frames[k].index == k)
      && if size > SMALL_FRAME_LIMIT then ListValid()
         else size > 0 ==> forall i | 0 <= i < SMALL_FRAME_LIMIT :: slots[i] == if i in frames then frames[i] else null
    }

    ghost predicate ListValid()
      requires bitset.Length == FRAME_LIMIT
      reads this, bitset, nodes
    {
      && Listed() && Holds(nodes, frames)
      && forall k | 0 <= k < FRAME_LIMIT :: bitset[k] <==> k in frames
    }

    constructor ()
      ensures Valid() && size == 0 && frames == map[] && fresh(slots) && fresh(bitset)
    {
      size, head, tail := 0, null, null;
      slots := new Node?[SMALL_FRAME_LIMIT](_ => null);
      bitset := new bool[FRAME_LIMIT](_ => false);
      nodes, frames := [], map[];
    }

    method Init(n: nat)
      requires Valid() && size == 0
      modifies this, slots, bitset
      ensures Valid() && size == n && frames == map[]
    {
      if n > SMALL_FRAME_LIMIT {
        head, tail := null, null;
        for k := 0 to FRAME_LIMIT
          invariant forall i | 0 <= i < k :: !bitset[i]
          modifies bitset
        {
          bitset[k] := false;
        }
      } else {
        for k := 0 to SMALL_FRAME_LIMIT
          invariant forall i | 0 <= i < k :: slots[i] == null
          modifies slots
        {
          slots[k] := null;
        }
      }
      size := n;
      nodes, frames := [], map[];
    }

    /** The slow search of the list. */
    method FindFrame(index: nat) returns (r: Node?)
      requires Valid() && size > SMALL_FRAME_LIMIT
      ensures r == if index in frames then frames[index] else null
    {
      var ptr := head;
      ghost var i := 0;
      while ptr != null
        invariant 0 <= i <= |nodes| && ptr == NodeAt(nodes, i)
        invariant forall j | 0 <= j < i :: nodes[j].index < index
        decreases |nodes| - i
      {
        if ptr.index == index {
          return ptr;
        } else if ptr.index > index {
          break;
        }
        ptr := ptr.next;
        i := i + 1;
      }
      return null;
    }

    /** has_frame() agrees with membership: array slot, bitset, or list search. */
    method HasFrame(index: nat) returns (r: bool)
      requires Valid() && index < size
      ensures r <==> index in frames
    {
      if size > SMALL_FRAME_LIMIT {
        if index < FRAME_LIMIT {
          return bitset[index];
        } else {
          var f := FindFrame(index);
          return f != null;
        }
      } else {
        return slots[index] != null;
      }
    }

    ghost predicate Listed()
      reads this, nodes
    {
      && Linked(nodes)
      && head == (if nodes == [] then null else nodes[0])
      && tail == (if nodes == [] then null else nodes[|nodes| - 1])
    }

    /** a) Behind the last one. */
    method Append(frame: Node)
      requires Listed() && nodes != [] && frame !in nodes && tail.index < frame.index
      modifies this`tail, this`nodes, frame`next, tail`next
      ensures nodes == Inserted(old(nodes), |old(nodes)|, frame) && Listed()
    {
      hide Sorted, Chained, Inserted;
      ghost var was := nodes;
      Splice(was, |was|, tail, frame, null);
      tail := frame;
      nodes := Inserted(was, |was|, frame);
      InsertedSorted(was, |was|, frame);
    }

    /** b) In front of the first one, if there is one. */
    method Prepend(frame: Node)
      requires Listed() && frame !in nodes && (head != null ==> frame.index < head.index)
      modifies this`head, this`tail, this`nodes, frame`next
      ensures nodes == Inserted(old(nodes), 0, frame) && Listed()
    {
      hide Sorted, Inserted;
      ghost var was := nodes;
      frame.next := head;
      InsertedChained(was, 0, frame);
      head := frame;
      nodes := Inserted(was, 0, frame);
      if frame.next == null {
        tail := frame;
      }
      InsertedSorted(was, 0, frame);
    }

    /** The last node with a smaller index. */
    method Predecessor(index: nat) returns (ptr: Node, ghost p: nat)
      requires Listed() && nodes != [] && head.index < index && forall x | x in nodes :: x.index != index
      ensures 1 <= p <= |nodes| && ptr == nodes[p - 1] && ptr.index < index
      ensures p < |nodes| ==> index < nodes[p].index
    {
      ptr := head;
      p := 1;
      while ptr.next != null && index > ptr.next.index
        invariant 1 <= p <= |nodes| && ptr == nodes[p - 1] && ptr.index < index
        decreases |nodes| - p
      {
        assert ptr.next == NodeAt(nodes, p);
        ptr := ptr.next;
        p := p + 1;
      }
      assert ptr.next == NodeAt(nodes, p);
    }

    /** c) Between two others. */
    method Insert(frame: Node) returns (ghost p: nat)
      requires Listed() && nodes != [] && frame !in nodes && head.index < frame.index
      requires forall x | x in nodes :: x.index != frame.index
      modifies this`tail, this`nodes, frame`next, nodes`next
      ensures 0 < p <= |old(nodes)| && nodes == Inserted(old(nodes), p, frame) && Listed()
    {
      var ptr;
      ptr, p := Predecessor(frame.index);
      hide Linked;
      InsertAfter(frame, ptr, p);
    }

    method InsertAfter(frame: Node, ptr: Node, ghost p: nat)
      requires Listed() && 1 <= p <= |nodes| && ptr == nodes[p - 1] && frame !in nodes
      requires ptr.index < frame.index && (p < |nodes| ==> frame.index < nodes[p].index)
      modifies this`tail, this`nodes, frame`next, ptr`next
      ensures nodes == Inserted(old(nodes), p, frame) && Listed()
    {
      hide Sorted, Chained, Inserted;
      ghost var was := nodes;
      NextOf(nodes, p);
      Splice(was, p, ptr, frame, ptr.next);
      nodes := Inserted(was, p, frame);
      if frame.next == null {
        tail := frame;
      }
      InsertedSorted(was, p, frame);
    }

    method Link(frame: Node) returns (ghost p: nat)
      requires Listed() && frame !in nodes && forall x | x in nodes :: x.index != frame.index
      modifies this`head, this`tail, this`nodes, frame`next, nodes`next
      ensures 0 <= p <= |old(nodes)| && nodes == Inserted(old(nodes), p, frame) && Listed()
    {
      hide Linked, Inserted;
      if tail != null && frame.index > tail.index {
        p := |nodes|;
        Append(frame);
      } else if head == null || frame.index < head.index {
        p := 0;
        Prepend(frame);
      } else {
        p := Insert(frame);
      }
    }

    /** add_frame() */
    method AddFrame(index: nat, frame: Node)
      requires Valid() && index < size && index !in frames && frame !in frames.Values
      modifies this, slots, bitset, frame, frames.Values
      ensures Valid() && size == old(size) && frames == old(frames)[index := frame]
    {
      frame.index := index;
      if size > SMALL_FRAME_LIMIT {
        AddToList(index, frame);
      } else {
        slots[index] := frame;
        frames := frames[index := frame];
      }
    }

    method AddToList(index: nat, frame: Node)
      requires Valid() && size > SMALL_FRAME_LIMIT && index < size && index !in frames
      requires frame !in frames.Values && frame.index == index
      modifies this`head, this`tail, this`nodes, this`frames, bitset, frame`next, frames.Values
      ensures Valid() && frames == old(frames)[index := frame]
    {
      hide Linked, Inserted, Holds;
      ghost var was, frames' := nodes, frames[index := frame];
      HoldsFacts(was, frames, frame);
      ghost var p := Link(frame);
      InsertedHolds(was, p, frame, frames);
      if index < FRAME_LIMIT {
        bitset[index] := true;
      }
      frames := frames';
    }

    /** The nodes of a complete list are numbered from 0. */
    lemma CompleteList()
      requires Valid() && size > SMALL_FRAME_LIMIT && |frames| == size
      ensures |nodes| == size && forall i | 0 <= i < size :: i in frames && nodes[i] == frames[i] && nodes[i].index == i
    {
      forall i | 0 <= i < size ensures i in frames && nodes[i] == frames[i] && nodes[i].index == i {
        IndexAtLeast(nodes, i);
        IndexAtMost(nodes, size, i);
      }
    }

    /** copy_frames(): the frames in the order of their indices, whatever the order of their arrival. */
    method CopyFrames() returns (out: Data)
      requires Valid() && |frames| == size
      ensures forall i | 0 <= i < size :: i in frames
      ensures out == Concat(Parts(frames, size))
    {
      if size > SMALL_FRAME_LIMIT {
        out := CopyList();
      } else {
        out := CopySlots();
      }
    }

    method CopyList() returns (out: Data)
      requires Valid() && |frames| == size > SMALL_FRAME_LIMIT
      ensures forall i | 0 <= i < size :: i in frames
      ensures out == Concat(Parts(frames, size))
    {
      CompleteList();
      out := CopyNodes(nodes, head, frames);
    }

    method CopySlots() returns (out: Data)
      requires Valid() && |frames| == size <= SMALL_FRAME_LIMIT
      ensures forall i | 0 <= i < size :: i in frames
      ensures out == Concat(Parts(frames, size))
    {
      forall i | 0 <= i < size ensures i in frames {
        if i !in frames {
          Receive.FewerThan(frames.Keys, size, i);
        }
      }
      out := [];
      for i := 0 to size
        invariant out == Concat(Parts(frames, i))
      {
        PartsStep(frames, i);
        out := out + slots[i].data;
      }
    }

    /**
     clear(): every frame is handed back exactly once. Handing a frame back overwrites its next
     pointer with the head of the allocator's list.
     */
    method Clear(bin: Node?) returns (freed: seq<Node>)
      requires Valid()
      modifies this, frames.Values
      ensures Valid() && size == 0 && frames == map[]
      ensures multiset(freed) == multiset(old(frames.Values))
    {
      if size > SMALL_FRAME_LIMIT {
        freed := FreeList(bin);
        head, tail := null, null;
      } else if size > 0 {
        freed := FreeSlots(bin);
      } else {
        freed := [];
        assert frames.Values == {};
      }
      size := 0;
      nodes, frames := [], map[];
    }

    method FreeList(bin: Node?) returns (freed: seq<Node>)
      requires Valid() && size > SMALL_FRAME_LIMIT
      modifies nodes
      ensures freed == nodes && multiset(freed) == multiset(frames.Values)
    {
      AllOnce(nodes, frames);
      AllDistinct(nodes);
      freed := FreeNodes(nodes, head, bin);
    }

    method FreeSlots(bin: Node?) returns (freed: seq<Node>)
      requires Valid() && 0 < size <= SMALL_FRAME_LIMIT
      modifies frames.Values
      ensures multiset(freed) == multiset(frames.Values)
    {
      freed := [];
      var top := bin;
      ghost var seen: set<Node> := {};
      for i := 0 to SMALL_FRAME_LIMIT
        invariant seen == set k | k in frames && k < i :: frames[k]
        invariant forall k | k in frames :: frames[k].index == k
        invariant multiset(freed) == multiset(seen)
      {
        var frame := slots[i];
        if frame != null {
          assert frame !in seen;
          frame.next := top;
          top := frame;
          freed := freed + [frame];
          seen := seen + {frame};
        }
      }
      assert seen == frames.Values;
    }
  }
}
