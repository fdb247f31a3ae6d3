/**
 The unbounded multi-producer single-consumer queue of common/lockfree.hpp.

 The queue is one linked chain: nodes before the divider are used up and may be
 recycled by producers, the divider itself is a dummy, nodes after it hold pending
 values up to `last`. Producers serialise on a spin lock, the consumer takes no lock.
 One event is one access to shared memory, so a trace is any interleaving of any
 number of producers with the consumer.
 */
module MpscQueue {
  import opened Wrappers

  /** A payload; the queue moves payloads and never looks into them. */
  type Item = nat

  datatype Producer =
    | Idle
    | GetLocked                   // get_node: lock taken
    | GetReuse                    // first differs from the divider, lock held
    | GetTaken(node: nat)         // first has been advanced past node, lock held
    | GetCleared(node: nat)       // node->next has been nulled, lock held
    | GetNone                     // nothing to recycle, lock held
    | GetAlloc                    // unlocked, about to allocate
    | HasNode(node: nat)          // holds an empty node, no lock
    | Ready(node: nat, item: Item)   // node->data has been written
    | PushLocked(node: nat, item: Item)
    | PushLinked(node: nat, item: Item)
    | PushDone                    // last has been published, lock held

  datatype Consumer =
    | Resting
    | NonEmpty                    // has seen divider != last
    | AtNode(node: nat)           // has read divider->next
    | HasData(node: nat, item: Item) // has copied node->data

  /** `pushed` and `popped` record the values in the order of publication and of consumption. */
  datatype State = State(
    next: map<nat, Option<nat>>, data: map<nat, Item>,
    first: nat, divider: nat, last: nat, lock: Option<nat>,
    producers: map<nat, Producer>, consumer: Consumer,
    pushed: seq<Item>, popped: seq<Item>)

  datatype Event =
    | Lock(t: nat)
    | Check(t: nat)
    | Take(t: nat)
    | Clear(t: nat)
    | Unlock(t: nat)
    | Allocate(t: nat, node: nat, blank: Item)
    | Fill(t: nat, item: Item)
    | Link(t: nat)
    | Publish(t: nat)
    | LookEmpty
    | ReadNext
    | ReadData
    | Advance
    | Reserve(node: nat, blank: Item)

  ghost predicate Init(s: State) {
    && s.next == map[s.first := None] && s.data.Keys == {s.first}
    && s.divider == s.first && s.last == s.first && s.lock == None
    && (forall t | t in s.producers :: s.producers[t] == Idle)
    && s.consumer == Resting && s.pushed == [] && s.popped == []
  }

  predicate HoldsLock(p: Producer) {
    p.GetLocked? || p.GetReuse? || p.GetTaken? || p.GetCleared? || p.GetNone?
    || p.PushLocked? || p.PushLinked? || p.PushDone?
  }

  predicate HoldsNode(p: Producer) {
    p.GetTaken? || p.GetCleared? || p.HasNode? || p.Ready? || p.PushLocked? || p.PushLinked?
  }

  ghost predicate Enabled(s: State, e: Event) {
    match e
    case Lock(t) => t in s.producers && (s.producers[t].Idle? || s.producers[t].Ready?) && s.lock == None
    case Check(t) => t in s.producers && s.producers[t].GetLocked?
    case Take(t) => t in s.producers && s.producers[t].GetReuse?
    case Clear(t) => t in s.producers && s.producers[t].GetTaken?
    case Unlock(t) => t in s.producers && (s.producers[t].GetCleared? || s.producers[t].GetNone? || s.producers[t].PushDone?)
    case Allocate(t, n, _) => t in s.producers && s.producers[t].GetAlloc? && n !in s.next
    case Fill(t, _) => t in s.producers && s.producers[t].HasNode?
    case Link(t) => t in s.producers && s.producers[t].PushLocked?
    case Publish(t) => t in s.producers && s.producers[t].PushLinked?
    case LookEmpty => s.consumer.Resting?
    case ReadNext => s.consumer.NonEmpty?
    case ReadData => s.consumer.AtNode?
    case Advance => s.consumer.HasData?
    // reserve() is not thread-safe: nobody else may be active
    case Reserve(n, _) => n !in s.next && s.consumer.Resting? && forall t | t in s.producers :: s.producers[t].Idle?
  }

  function Move(s: State, t: nat, p: Producer): State {
    s.(producers := s.producers[t := p])
  }

  /**
   The accesses of an enabled event hit allocated nodes; this is proved of every reachable
   state before Apply is used on it.
   */
  ghost predicate Safe(s: State, e: Event) {
    Enabled(s, e) &&
    match e
    case Take(t) => s.first in s.next && s.next[s.first].Some?
    case Clear(t) => s.producers[t].node in s.next
    case Fill(t, _) => s.producers[t].node in s.next
    case Link(t) => s.last in s.next
    case ReadNext => s.divider in s.next && s.next[s.divider].Some?
    case ReadData => s.consumer.node in s.data
    case _ => true
  }

  ghost function Apply(s: State, e: Event): State
    requires Safe(s, e)
  {
    match e
    case Lock(t) =>
      var p := s.producers[t];
      Move(s, t, if p.Idle? then GetLocked else PushLocked(p.node, p.item)).(lock := Some(t))
    case Check(t) => Move(s, t, if s.first != s.divider then GetReuse else GetNone)
    case Take(t) => Move(s, t, GetTaken(s.first)).(first := s.next[s.first].value)
    case Clear(t) =>
      var n := s.producers[t].node;
      Move(s, t, GetCleared(n)).(next := s.next[n := None])
    case Unlock(t) =>
      var p := s.producers[t];
      Move(s, t, if p.GetCleared? then HasNode(p.node) else if p.GetNone? then GetAlloc else Idle).(lock := None)
    case Allocate(t, n, blank) =>
      Move(s, t, HasNode(n)).(next := s.next[n := None], data := s.data[n := blank])
    case Fill(t, item) =>
      var n := s.producers[t].node;
      Move(s, t, Ready(n, item)).(data := s.data[n := item])
    case Link(t) =>
      var p := s.producers[t];
      Move(s, t, PushLinked(p.node, p.item)).(next := s.next[s.last := Some(p.node)])
    case Publish(t) =>
      var p := s.producers[t];
      Move(s, t, PushDone).(last := p.node, pushed := s.pushed + [p.item])
    case LookEmpty => if s.divider != s.last then s.(consumer := NonEmpty) else s
    case ReadNext => s.(consumer := AtNode(s.next[s.divider].value))
    case ReadData => s.(consumer := HasData(s.consumer.node, s.data[s.consumer.node]))
    case Advance => s.(consumer := Resting, divider := s.consumer.node, popped := s.popped + [s.consumer.item])
    case Reserve(n, blank) =>
      s.(next := s.next[n := Some(s.first)], data := s.data[n := blank], first := n)
  }

  ghost predicate Trace(tr: seq<State>, es: seq<Event>) {
    && |tr| == |es| + 1
    && Init(tr[0])
    && forall i | 0 <= i < |es| :: Enabled(tr[i], es[i]) && (Safe(tr[i], es[i]) ==> tr[i + 1] == Apply(tr[i], es[i]))
  }

  /** The linked chain and the position of the divider in it. */
  datatype Chain = Chain(nodes: seq<nat>, d: nat)

  ghost predicate Linked(next: map<nat, Option<nat>>, first: nat, divider: nat, last: nat, c: Chain) {
    && c.d < |c.nodes|
    && (forall i | 0 <= i < |c.nodes| :: c.nodes[i] in next)
    && (forall i, j | 0 <= i < j < |c.nodes| :: c.nodes[i] != c.nodes[j])
    && first == c.nodes[0] && divider == c.nodes[c.d] && last == c.nodes[|c.nodes| - 1]
    && (forall i | 0 <= i < |c.nodes| - 1 :: next[c.nodes[i]] == Some(c.nodes[i + 1]))
  }

  /** The lock is held by at most one producer, and only its holder can have linked beyond `last`. */
  ghost predicate LockSound(next: map<nat, Option<nat>>, last: nat, lock: Option<nat>, ps: map<nat, Producer>) {
    && (forall t | t in ps :: HoldsLock(ps[t]) <==> lock == Some(t))
    && (lock.Some? ==> lock.value in ps)
    && last in next
    && next[last] == (if lock.Some? && ps[lock.value].PushLinked? then Some(ps[lock.value].node) else None)
  }

  /** A node held by a producer is outside the chain and held by nobody else. */
  ghost predicate NodesPrivate(next: map<nat, Option<nat>>, ps: map<nat, Producer>, c: Chain) {
    && (forall t | t in ps && HoldsNode(ps[t]) ::
          && ps[t].node in next
          && ps[t].node !in c.nodes
          && (!ps[t].GetTaken? ==> next[ps[t].node] == None))
    && (forall t, u | t in ps && u in ps && t != u && HoldsNode(ps[t]) && HoldsNode(ps[u]) ::
          ps[t].node != ps[u].node)
    && (forall t | t in ps && ps[t].GetReuse? :: c.d > 0)
  }

  ghost predicate ItemsWritten(data: map<nat, Item>, ps: map<nat, Producer>) {
    forall t | t in ps && (ps[t].Ready? || ps[t].PushLocked? || ps[t].PushLinked?) ::
      ps[t].node in data && data[ps[t].node] == ps[t].item
  }

  /** What the consumer has seen stays true: its node is the one right after the divider. */
  ghost predicate ConsumerSound(consumer: Consumer, data: map<nat, Item>, c: Chain) {
    && (!consumer.Resting? ==> c.d + 1 < |c.nodes|)
    && (consumer.AtNode? || consumer.HasData? ==> consumer.node == c.nodes[c.d + 1])
    && (consumer.HasData? ==> consumer.node in data && consumer.item == data[consumer.node])
  }

  /** The values after the divider are what has been published and not yet consumed, in order. */
  ghost predicate Fifo(data: map<nat, Item>, pushed: seq<Item>, popped: seq<Item>, c: Chain) {
    && |pushed| == |popped| + |c.nodes| - 1 - c.d
    && popped <= pushed
    && forall i | c.d < i < |c.nodes| ::
         c.nodes[i] in data && data[c.nodes[i]] == pushed[|popped| + i - c.d - 1]
  }

  ghost predicate Inv(s: State, c: Chain) {
    && s.data.Keys == s.next.Keys
    && Linked(s.next, s.first, s.divider, s.last, c)
    && LockSound(s.next, s.last, s.lock, s.producers)
    && NodesPrivate(s.next, s.producers, c)
    && ItemsWritten(s.data, s.producers)
    && ConsumerSound(s.consumer, s.data, c)
    && Fifo(s.data, s.pushed, s.popped, c)
  }

  lemma InvIsSafe(s: State, c: Chain, e: Event)
    requires Inv(s, c) && Enabled(s, e)
    ensures Safe(s, e)
  {
    match e {
      case Take(t) => assert s.next[c.nodes[0]] == Some(c.nodes[1]);
      case ReadNext => assert s.next[c.nodes[c.d]] == Some(c.nodes[c.d + 1]);
      case ReadData => assert c.nodes[c.d + 1] in s.next;
      case _ =>
    }
  }

  ghost function NextChain(s: State, c: Chain, e: Event): Chain
    requires Inv(s, c) && Enabled(s, e)
  {
    match e
    case Take(t) => Chain(c.nodes[1..], c.d - 1)
    case Publish(t) => Chain(c.nodes + [s.producers[t].node], c.d)
    case Advance => Chain(c.nodes, c.d + 1)
    case Reserve(n, _) => Chain([n] + c.nodes, c.d + 1)
    case _ => c
  }

  /** Growing the chain by a node at the back, and the published values with it. */
  lemma Append(next: map<nat, Option<nat>>, first: nat, divider: nat, last: nat, c: Chain, n: nat)
    requires Linked(next, first, divider, last, c) && n in next && n !in c.nodes && next[last] == Some(n)
    ensures Linked(next, first, divider, n, Chain(c.nodes + [n], c.d))
  {
    var ns := c.nodes + [n];
    forall i | 0 <= i < |ns| - 1 ensures next[ns[i]] == Some(ns[i + 1]) {
      assert ns[i] == c.nodes[i];
    }
  }

  lemma FifoAppend(data: map<nat, Item>, pushed: seq<Item>, popped: seq<Item>, c: Chain, n: nat)
    requires Fifo(data, pushed, popped, c) && n in data && c.d < |c.nodes|
    ensures Fifo(data, pushed + [data[n]], popped, Chain(c.nodes + [n], c.d))
  {
  }

  /** Growing the spent part of the chain by a node at the front. */
  lemma Prepend(next: map<nat, Option<nat>>, first: nat, divider: nat, last: nat, c: Chain, n: nat)
    requires Linked(next, first, divider, last, c) && n !in next
    ensures Linked(next[n := Some(first)], n, divider, last, Chain([n] + c.nodes, c.d + 1))
  {
    var ns, next' := [n] + c.nodes, next[n := Some(first)];
    forall i | 0 <= i < |ns| - 1 ensures next'[ns[i]] == Some(ns[i + 1]) {
      if i > 0 {
        assert ns[i] == c.nodes[i - 1];
      }
    }
  }

  lemma FifoPrepend(data: map<nat, Item>, pushed: seq<Item>, popped: seq<Item>, c: Chain, n: nat, x: Item)
    requires Fifo(data, pushed, popped, c) && n !in data
    ensures Fifo(data[n := x], pushed, popped, Chain([n] + c.nodes, c.d + 1))
  {
    var ns := [n] + c.nodes;
    forall i | c.d + 1 < i < |ns|
      ensures ns[i] in data && ns[i] != n && data[ns[i]] == pushed[|popped| + i - c.d - 2]
    {
      assert ns[i] == c.nodes[i - 1];
    }
  }

  /** Dropping the first node of the spent part. */
  lemma Drop(next: map<nat, Option<nat>>, first: nat, divider: nat, last: nat, c: Chain)
    requires Linked(next, first, divider, last, c) && c.d > 0
    ensures next[first] == Some(c.nodes[1])
    ensures Linked(next, c.nodes[1], divider, last, Chain(c.nodes[1..], c.d - 1))
    ensures first !in c.nodes[1..]
  {
    var ns := c.nodes[1..];
    assert next[c.nodes[0]] == Some(c.nodes[1]);
    forall i | 0 <= i < |ns| - 1 ensures next[ns[i]] == Some(ns[i + 1]) {
      assert ns[i] == c.nodes[i + 1];
    }
  }

  lemma FifoDrop(data: map<nat, Item>, pushed: seq<Item>, popped: seq<Item>, c: Chain)
    requires Fifo(data, pushed, popped, c) && 0 < c.d < |c.nodes|
    ensures Fifo(data, pushed, popped, Chain(c.nodes[1..], c.d - 1))
  {
  }

  lemma TakeKeeps(s: State, c: Chain, t: nat)
    requires Inv(s, c) && Enabled(s, Take(t)) && Safe(s, Take(t))
    ensures Inv(Apply(s, Take(t)), NextChain(s, c, Take(t)))
  {
    Drop(s.next, s.first, s.divider, s.last, c);
    FifoDrop(s.data, s.pushed, s.popped, c);
    assert HoldsLock(s.producers[t]);
  }

  lemma PublishKeeps(s: State, c: Chain, t: nat)
    requires Inv(s, c) && Enabled(s, Publish(t))
    ensures Inv(Apply(s, Publish(t)), NextChain(s, c, Publish(t)))
  {
    var n := s.producers[t].node;
    assert HoldsLock(s.producers[t]) && s.next[s.last] == Some(n);
    Append(s.next, s.first, s.divider, s.last, c, n);
    FifoAppend(s.data, s.pushed, s.popped, c, n);
  }

  lemma AdvanceKeeps(s: State, c: Chain)
    requires Inv(s, c) && Enabled(s, Advance)
    ensures Inv(Apply(s, Advance), NextChain(s, c, Advance))
  {
    var s', c' := Apply(s, Advance), NextChain(s, c, Advance);
    assert s.data[c.nodes[c.d + 1]] == s.pushed[|s.popped|];
    assert s'.popped == s.pushed[..|s.popped| + 1];
  }

  lemma ReserveKeeps(s: State, c: Chain, n: nat, blank: Item)
    requires Inv(s, c) && Enabled(s, Reserve(n, blank))
    ensures Inv(Apply(s, Reserve(n, blank)), NextChain(s, c, Reserve(n, blank)))
  {
    Prepend(s.next, s.first, s.divider, s.last, c, n);
    FifoPrepend(s.data, s.pushed, s.popped, c, n, blank);
    assert s.last != n;
  }

  /** Taking or giving back the lock, and looking for a node to recycle, move no node. */
  lemma LockKeeps(s: State, c: Chain, t: nat)
    requires Inv(s, c) && Enabled(s, Lock(t))
    ensures Inv(Apply(s, Lock(t)), c)
  {
    assert !HoldsLock(s.producers[t]);
    assert forall u | u in s.producers :: !HoldsLock(s.producers[u]);
  }

  lemma CheckKeeps(s: State, c: Chain, t: nat)
    requires Inv(s, c) && Enabled(s, Check(t))
    ensures Inv(Apply(s, Check(t)), c)
  {
    assert s.first != s.divider ==> c.d > 0;
    assert HoldsLock(s.producers[t]);
  }

  lemma UnlockKeeps(s: State, c: Chain, t: nat)
    requires Inv(s, c) && Enabled(s, Unlock(t))
    ensures Inv(Apply(s, Unlock(t)), c)
  {
    hide Linked, Fifo, ConsumerSound;
    assert HoldsLock(s.producers[t]);
    assert forall u | u in s.producers && u != t :: !HoldsLock(s.producers[u]);
  }

  lemma ClearKeeps(s: State, c: Chain, t: nat)
    requires Inv(s, c) && Enabled(s, Clear(t)) && Safe(s, Clear(t))
    ensures Inv(Apply(s, Clear(t)), c)
  {
    assert s.producers[t].node !in c.nodes;
  }

  /** Nodes outside the chain may change without touching chain, order and consumer. */
  lemma OutsideFrame(s: State, c: Chain, t: State)
    requires Inv(s, c) && t.first == s.first && t.divider == s.divider && t.last == s.last
    requires t.pushed == s.pushed && t.popped == s.popped && t.consumer == s.consumer
    requires forall n | n in c.nodes :: n in t.next && t.next[n] == s.next[n]
    requires forall n | n in c.nodes && n in s.data :: n in t.data && t.data[n] == s.data[n]
    ensures Linked(t.next, t.first, t.divider, t.last, c) && Fifo(t.data, t.pushed, t.popped, c)
    ensures ConsumerSound(t.consumer, t.data, c)
  {
    hide LockSound, NodesPrivate, ItemsWritten;
  }

  lemma AllocateKeeps(s: State, c: Chain, e: Event)
    requires Inv(s, c) && Enabled(s, e) && e.Allocate?
    ensures Inv(Apply(s, e), c)
  {
    assert e.node !in c.nodes;
    OutsideFrame(s, c, Apply(s, e));
    hide Linked, Fifo, ConsumerSound;
  }

  lemma FillKeeps(s: State, c: Chain, e: Event)
    requires Inv(s, c) && Enabled(s, e) && e.Fill? && Safe(s, e)
    ensures Inv(Apply(s, e), c)
  {
    assert s.producers[e.t].node !in c.nodes;
    OutsideFrame(s, c, Apply(s, e));
    hide Linked, Fifo, ConsumerSound;
  }

  lemma LinkKeeps(s: State, c: Chain, t: nat)
    requires Inv(s, c) && Enabled(s, Link(t)) && Safe(s, Link(t))
    ensures Inv(Apply(s, Link(t)), c)
  {
    assert HoldsLock(s.producers[t]);
    assert s.last == c.nodes[|c.nodes| - 1];
  }

  lemma ConsumerKeeps(s: State, c: Chain, e: Event)
    requires Inv(s, c) && Enabled(s, e) && Safe(s, e)
    requires e.LookEmpty? || e.ReadNext? || e.ReadData?
    ensures Inv(Apply(s, e), c)
  {
    if e.ReadNext? {
      assert s.next[c.nodes[c.d]] == Some(c.nodes[c.d + 1]);
    }
  }

  lemma StepKeeps(s: State, c: Chain, e: Event)
    requires Inv(s, c) && Enabled(s, e)
    ensures Safe(s, e) && Inv(Apply(s, e), NextChain(s, c, e))
  {
    InvIsSafe(s, c, e);
    match e {
      case Take(t) => TakeKeeps(s, c, t);
      case Publish(t) => PublishKeeps(s, c, t);
      case Advance => AdvanceKeeps(s, c);
      case Reserve(n, blank) => ReserveKeeps(s, c, n, blank);
      case LookEmpty => ConsumerKeeps(s, c, e);
      case ReadNext => ConsumerKeeps(s, c, e);
      case ReadData => ConsumerKeeps(s, c, e);
      case Clear(t) => ClearKeeps(s, c, t);
      case Allocate(_, _, _) => AllocateKeeps(s, c, e);
      case Fill(_, _) => FillKeeps(s, c, e);
      case Link(t) => LinkKeeps(s, c, t);
      case Lock(t) => LockKeeps(s, c, t);
      case Check(t) => CheckKeeps(s, c, t);
      case Unlock(t) => UnlockKeeps(s, c, t);
    }
  }

  lemma {:induction false} AlwaysInv(tr: seq<State>, es: seq<Event>, i: nat) returns (c: Chain)
    requires Trace(tr, es) && i < |tr|
    ensures Inv(tr[i], c)
    ensures i < |es| ==> Safe(tr[i], es[i])
  {
    if i == 0 {
      c := Chain([tr[0].first], 0);
    } else {
      var before := AlwaysInv(tr, es, i - 1);
      StepKeeps(tr[i - 1], before, es[i - 1]);
      c := NextChain(tr[i - 1], before, es[i - 1]);
    }
    if i < |es| {
      InvIsSafe(tr[i], c, es[i]);
    }
  }

  /** In every interleaving the consumed values are a prefix of the published values. */
  lemma PoppedIsPrefixOfPushed(tr: seq<State>, es: seq<Event>, i: nat)
    requires Trace(tr, es) && i < |tr|
    ensures tr[i].popped <= tr[i].pushed
    ensures tr[i].divider == tr[i].last ==> tr[i].popped == tr[i].pushed
  {
    var c := AlwaysInv(tr, es, i);
    if tr[i].divider == tr[i].last {
      assert c.d == |c.nodes| - 1;
    }
  }

  /** Following `next` from one node, and no further than another, visits node n within k steps. */
  ghost predicate Visits(next: map<nat, Option<nat>>, from: nat, to: nat, n: nat, k: nat)
    decreases k
  {
    || from == n
    || (from != to && k > 0 && from in next && next[from].Some? && Visits(next, next[from].value, to, n, k - 1))
  }

  /** The nodes on the way from the i-th node to the last one are nodes of the chain from there on. */
  lemma {:induction false} VisitsChain(s: State, c: Chain, i: nat, n: nat, k: nat)
    requires Linked(s.next, s.first, s.divider, s.last, c) && i < |c.nodes|
    ensures Visits(s.next, c.nodes[i], s.last, n, k) ==> n in c.nodes[i..]
    decreases k
  {
    if c.nodes[i] != n && Visits(s.next, c.nodes[i], s.last, n, k) {
      assert s.next[c.nodes[i]] == Some(c.nodes[i + 1]);
      VisitsChain(s, c, i + 1, n, k - 1);
    }
  }

  lemma {:induction false} ChainVisits(s: State, c: Chain, i: nat, j: nat)
    requires Linked(s.next, s.first, s.divider, s.last, c) && i <= j < |c.nodes|
    ensures Visits(s.next, c.nodes[i], c.nodes[j], c.nodes[j], j - i)
    decreases j - i
  {
    if i < j {
      assert s.next[c.nodes[i]] == Some(c.nodes[i + 1]);
      ChainVisits(s, c, i + 1, j);
    }
  }

  /**
   A node that a producer holds is none of those from the divider to `last`: it holds no pending
   value, the consumer is not at it and no other producer holds it.
   */
  lemma RecycledNodeIsSpent(tr: seq<State>, es: seq<Event>, i: nat, t: nat)
    requires Trace(tr, es) && i < |tr| && t in tr[i].producers && HoldsNode(tr[i].producers[t])
    ensures forall k: nat :: !Visits(tr[i].next, tr[i].divider, tr[i].last, tr[i].producers[t].node, k)
    ensures tr[i].consumer.AtNode? || tr[i].consumer.HasData? ==> tr[i].consumer.node != tr[i].producers[t].node
    ensures forall u | u in tr[i].producers && u != t && HoldsNode(tr[i].producers[u]) ::
              tr[i].producers[u].node != tr[i].producers[t].node
  {
    var c := AlwaysInv(tr, es, i);
    var n := tr[i].producers[t].node;
    forall k: nat ensures !Visits(tr[i].next, tr[i].divider, tr[i].last, n, k) {
      VisitsChain(tr[i], c, c.d, n, k);
    }
  }

  /** A node is recycled only after the consumer has moved past it: the divider lies behind it. */
  lemma TakenNodeIsBehind(tr: seq<State>, es: seq<Event>, i: nat, t: nat)
    requires Trace(tr, es) && i < |es| && es[i] == Take(t)
    ensures t in tr[i + 1].producers && tr[i + 1].producers[t] == GetTaken(tr[i].first) && tr[i].first != tr[i].divider
    ensures exists k: nat :: Visits(tr[i].next, tr[i].first, tr[i].divider, tr[i].divider, k)
    ensures forall k: nat :: !Visits(tr[i].next, tr[i].divider, tr[i].last, tr[i].first, k)
  {
    var s := tr[i];
    var c := AlwaysInv(tr, es, i);
    ChainVisits(s, c, 0, c.d);
    forall k: nat ensures !Visits(s.next, s.divider, s.last, s.first, k) {
      VisitsChain(s, c, c.d, s.first, k);
    }
  }

  // ---------------------------------------------------------------- what push and pop do

  /** One event of a run. */
  lemma RunStep(tr: seq<State>, es: seq<Event>, i: nat) returns (c: Chain)
    requires Trace(tr, es) && i < |es|
    ensures Inv(tr[i], c) && Enabled(tr[i], es[i]) && Safe(tr[i], es[i]) && tr[i + 1] == Apply(tr[i], es[i])
  {
    hide Inv, Init, Enabled, Safe, Apply;
    c := AlwaysInv(tr, es, i);
  }

  /** Values are published by Publish alone, behind the others, and consumed by Advance alone. */
  lemma Recorded(s: State, e: Event)
    requires Safe(s, e)
    ensures var s' := Apply(s, e);
            && s.pushed <= s'.pushed && (!e.Publish? ==> s'.pushed == s.pushed)
            && (!e.Advance? ==> s'.popped == s.popped)
            && (e.Advance? ==> |s'.popped| == |s.popped| + 1 && s.popped <= s'.popped)
  {
  }

  predicate Carrying(p: Producer, item: Item) {
    (p.Ready? || p.PushLocked? || p.PushLinked?) && p.item == item
  }

  lemma CarryStep(s: State, e: Event, t: nat, item: Item)
    requires Safe(s, e) && t in s.producers && Carrying(s.producers[t], item)
    ensures t in Apply(s, e).producers
    ensures e == Publish(t) || Carrying(Apply(s, e).producers[t], item)
  {
  }

  /** The push of `item` by thread t has not been published before state k. */
  ghost predicate PushesUntil(tr: seq<State>, es: seq<Event>, i: nat, k: nat, t: nat, item: Item) {
    Trace(tr, es) && i < k < |tr| && es[i] == Fill(t, item) && forall m | i < m < k :: es[m] != Publish(t)
  }

  lemma {:induction false} StillCarrying(tr: seq<State>, es: seq<Event>, i: nat, k: nat, t: nat, item: Item)
    requires PushesUntil(tr, es, i, k, t, item)
    ensures t in tr[k].producers && Carrying(tr[k].producers[t], item)
    decreases k
  {
    hide Inv, Init;
    if k == i + 1 {
      var c := RunStep(tr, es, i);
    } else {
      hide Enabled, Safe, Apply, Carrying;
      StillCarrying(tr, es, i, k - 1, t, item);
      var c := RunStep(tr, es, k - 1);
      CarryStep(tr[k - 1], es[k - 1], t, item);
    }
  }

  /** In every interleaving a push publishes the value that it has been given, behind all others. */
  lemma PushPublishesItem(tr: seq<State>, es: seq<Event>, i: nat, j: nat, t: nat, item: Item)
    requires PushesUntil(tr, es, i, j, t, item) && j < |es| && es[j] == Publish(t)
    ensures tr[j + 1].pushed == tr[j].pushed + [item]
  {
    StillCarrying(tr, es, i, j, t, item);
    var c := RunStep(tr, es, j);
    hide Inv, Init;
  }

  /** The queue looks empty exactly when everything published has been consumed. */
  lemma EmptyIs(s: State, c: Chain)
    requires Inv(s, c)
    ensures s.divider == s.last <==> s.popped == s.pushed
  {
    hide LockSound, NodesPrivate, ItemsWritten, ConsumerSound;
  }

  /** A call of try_pop that has not returned before state k. */
  ghost predicate PopsUntil(tr: seq<State>, es: seq<Event>, i: nat, k: nat) {
    Trace(tr, es) && i < k < |tr| && es[i] == LookEmpty && forall m | i < m < k :: !tr[m].consumer.Resting?
  }

  /** How far it has come by state k; q are the values published when it began, p those consumed. */
  ghost predicate Popping(s: State, p: seq<Item>, q: seq<Item>) {
    && q <= s.pushed
    && if s.consumer.Resting? then (p == q && s.popped == p) || (p != q && |s.popped| == |p| + 1) else p != q && s.popped == p
  }

  lemma PopBegins(s: State, c: Chain)
    requires Inv(s, c) && Safe(s, LookEmpty)
    ensures Popping(Apply(s, LookEmpty), s.popped, s.pushed)
  {
    EmptyIs(s, c);
    hide Inv;
  }

  lemma PopStep(s: State, e: Event, p: seq<Item>, q: seq<Item>)
    requires Safe(s, e) && Popping(s, p, q) && !s.consumer.Resting?
    ensures Popping(Apply(s, e), p, q)
  {
    Recorded(s, e);
  }

  lemma {:induction false} StillPopping(tr: seq<State>, es: seq<Event>, i: nat, k: nat)
    requires PopsUntil(tr, es, i, k)
    ensures Popping(tr[k], tr[i].popped, tr[i].pushed)
    decreases k
  {
    hide Inv, Init, Enabled, Safe, Apply, Popping;
    var c := RunStep(tr, es, k - 1);
    if k == i + 1 {
      PopBegins(tr[i], c);
    } else {
      StillPopping(tr, es, i, k - 1);
      PopStep(tr[k - 1], es[k - 1], tr[i].popped, tr[i].pushed);
    }
  }

  /**
   In every interleaving try_pop takes the oldest value that has been published and not consumed
   when it looks, if there is one, and otherwise nothing.
   */
  lemma PopTakesOldest(tr: seq<State>, es: seq<Event>, i: nat, j: nat)
    requires PopsUntil(tr, es, i, j) && tr[j].consumer.Resting?
    ensures var p, q := tr[i].popped, tr[i].pushed;
            && p <= q
            && tr[j].popped == if p == q then p else p + [q[|p|]]
  {
    StillPopping(tr, es, i, j);
    PoppedIsPrefixOfPushed(tr, es, i);
    PoppedIsPrefixOfPushed(tr, es, j);
    var p, q, all, now := tr[i].popped, tr[i].pushed, tr[j].pushed, tr[j].popped;
    hide Trace;
    if p != q {
      assert |p| < |q|;
      assert p == all[..|p|] && now == all[..|p| + 1] && q[|p|] == all[|p|];
    }
  }

  // ---------------------------------------------------------------- nodes are recycled

  /** A call of get_node, from its check on, that has not returned before state k. */
  ghost predicate GetsUntil(tr: seq<State>, es: seq<Event>, i: nat, k: nat, t: nat) {
    && Trace(tr, es) && i < k < |tr| && es[i] == Check(t)
    && forall m | i < m < k :: !(t in tr[m].producers && tr[m].producers[t].HasNode?)
  }

  /** `first` and `known` are the first node and all nodes when it checks, `spent` says whether the first one can be recycled. */
  ghost predicate Getting(s: State, t: nat, first: nat, known: set<nat>, spent: bool) {
    && t in s.producers && known <= s.next.Keys
    && match s.producers[t]
       case GetReuse => spent && s.first == first
       case GetTaken(n) => spent && n == first
       case GetCleared(n) => spent && n == first
       case GetNone => !spent
       case GetAlloc => !spent
       case HasNode(n) => if spent then n == first else n !in known
       case _ => false
  }

  lemma GetStep(s: State, c: Chain, e: Event, t: nat, first: nat, known: set<nat>, spent: bool)
    requires Inv(s, c) && Safe(s, e) && Getting(s, t, first, known, spent) && !s.producers[t].HasNode?
    ensures Getting(Apply(s, e), t, first, known, spent)
  {
    if s.producers[t].GetReuse? {
      FirstStays(s, c, e, t);
    }
    hide Inv;
  }

  /** The first node stays while a producer with the lock is about to take it. */
  lemma FirstStays(s: State, c: Chain, e: Event, t: nat)
    requires Inv(s, c) && Safe(s, e) && t in s.producers && s.producers[t].GetReuse?
    ensures e == Take(t) || Apply(s, e).first == s.first
  {
    hide Linked, NodesPrivate, ItemsWritten, ConsumerSound, Fifo;
  }

  lemma {:induction false} StillGetting(tr: seq<State>, es: seq<Event>, i: nat, k: nat, t: nat)
    requires GetsUntil(tr, es, i, k, t)
    ensures Getting(tr[k], t, tr[i].first, tr[i].next.Keys, tr[i].first != tr[i].divider)
    decreases k
  {
    hide Inv, Init;
    var c := RunStep(tr, es, k - 1);
    if k > i + 1 {
      hide Enabled, Safe, Apply;
      StillGetting(tr, es, i, k - 1, t);
      GetStep(tr[k - 1], c, es[k - 1], t, tr[i].first, tr[i].next.Keys, tr[i].first != tr[i].divider);
      hide Getting;
    }
  }

  /** A producer gets a new node if and only if no spent one was there when it checked; else it gets the oldest spent one. */
  lemma SpentNodeIsReused(tr: seq<State>, es: seq<Event>, i: nat, j: nat, t: nat)
    requires GetsUntil(tr, es, i, j, t) && t in tr[j].producers && tr[j].producers[t].HasNode?
    ensures var s, n := tr[i], tr[j].producers[t].node;
            if s.first != s.divider then n == s.first else n !in s.next
  {
    StillGetting(tr, es, i, j, t);
    hide Trace;
  }
}
