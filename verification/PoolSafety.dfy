/**
 Safety of the memory pool over whole runs: a ledger of regions is carried along with the pool,
 and every allocation, split and deallocation keeps the regions disjoint and in one place.
 */
module PoolSafety {
  import opened Wrappers
  import opened Arithmetic
  import opened MemoryPool
  import FreeList

  /** Where a region is: in the free list of a class, with the client, or on its way between the two. */
  datatype Home = Listed(index: nat) | Live | InHand

  datatype Region = Region(extent: nat, home: Home)

  /** The ledger: every block ever carved out of the arena, by offset. */
  type Ledger = map<nat, Region>

  /** Regions do not overlap and lie below the bump index. */
  ghost predicate Disjoint(ledger: Ledger, index: nat) {
    && (forall a | a in ledger :: 0 < ledger[a].extent && a + ledger[a].extent <= index)
    && forall a, b | a in ledger && b in ledger && a < b :: a + ledger[a].extent <= b
  }

  /** A free list holds each of its blocks once, and the blocks are large enough for its class. */
  ghost predicate ListOk(blocks: seq<nat>, i: nat, ledger: Ledger) {
    && (forall k | 0 <= k < |blocks| ::
          blocks[k] in ledger && ledger[blocks[k]].home == Listed(i) && BucketSize(i) <= ledger[blocks[k]].extent)
    && forall k, l | 0 <= k < l < |blocks| :: blocks[k] != blocks[l]
  }

  ghost predicate ListsOk(free: seq<seq<nat>>, ledger: Ledger) {
    forall i | 0 <= i < |free| :: ListOk(free[i], i, ledger)
  }

  /** `live` maps the offset of a block to the size that was asked for. */
  ghost predicate LiveOk(live: map<nat, nat>, ledger: Ledger) {
    forall a | a in live ::
      && a in ledger && ledger[a].home == Live && 0 < live[a] <= LARGE_LIMIT
      && 0 <= SizeToIndex(live[a]) < BUCKETS && BucketSize(SizeToIndex(live[a])) <= ledger[a].extent
  }

  predicate Inside(ledger: Ledger, a: nat, x: nat) { a in ledger && a <= x < a + ledger[a].extent }

  ghost predicate CoveredAt(ledger: Ledger, x: nat) { exists a :: Inside(ledger, a, x) }

  /** Every byte below the bump index belongs to a region. */
  ghost predicate Covered(ledger: Ledger, index: nat) { forall x | 0 <= x < index :: CoveredAt(ledger, x) }

  predicate AtHome(free: seq<seq<nat>>, live: map<nat, nat>, hand: set<nat>, home: Home, a: nat) {
    match home
    case Listed(i) => i < |free| && a in free[i]
    case Live => a in live
    case InHand => a in hand
  }

  /** Every region is where the ledger says; `hand` are the regions on their way. */
  ghost predicate Homed(free: seq<seq<nat>>, live: map<nat, nat>, ledger: Ledger, hand: set<nat>) {
    && (forall a | a in hand :: a in ledger && ledger[a].home == InHand)
    && forall a | a in ledger :: AtHome(free, live, hand, ledger[a].home, a)
  }

  ghost predicate Good(p: Pool, live: map<nat, nat>, ledger: Ledger, hand: set<nat>) {
    && Shape(p) && Disjoint(ledger, p.index) && Covered(ledger, p.index)
    && ListsOk(p.free, ledger) && LiveOk(live, ledger) && Homed(p.free, live, ledger, hand)
  }

  // ---------------------------------------------------------------- moving and carving regions

  function Move(ledger: Ledger, a: nat, home: Home): Ledger
    requires a in ledger
  {
    ledger[a := ledger[a].(home := home)]
  }

  /** The front k bytes of a region stay where they are, the rest is a region of its own in hand. */
  function Carve(ledger: Ledger, a: nat, k: nat): Ledger
    requires a in ledger && k <= ledger[a].extent
  {
    ledger[a := ledger[a].(extent := k)][a + k := Region(ledger[a].extent - k, InHand)]
  }

  lemma MoveDisjoint(ledger: Ledger, index: nat, a: nat, home: Home)
    requires a in ledger && Disjoint(ledger, index)
    ensures Disjoint(Move(ledger, a, home), index)
  {
  }

  lemma CarveDisjoint(ledger: Ledger, index: nat, a: nat, k: nat)
    requires a in ledger && 0 < k < ledger[a].extent && Disjoint(ledger, index)
    ensures a + k !in ledger
    ensures Disjoint(Carve(ledger, a, k), index)
  {
    var after := Carve(ledger, a, k);
    forall x, y | x in after && y in after && x < y ensures x + after[x].extent <= y {
      if x == a + k {
        assert a < y;
      }
    }
  }

  lemma MoveCovered(ledger: Ledger, index: nat, a: nat, home: Home)
    requires a in ledger && Covered(ledger, index)
    ensures Covered(Move(ledger, a, home), index)
  {
    forall x | 0 <= x < index ensures CoveredAt(Move(ledger, a, home), x) {
      assert CoveredAt(ledger, x);
      var b :| Inside(ledger, b, x);
      assert Inside(Move(ledger, a, home), b, x);
    }
  }

  lemma CarveCovered(ledger: Ledger, index: nat, a: nat, k: nat)
    requires a in ledger && 0 < k < ledger[a].extent && a + k !in ledger && Covered(ledger, index)
    ensures Covered(Carve(ledger, a, k), index)
  {
    var after := Carve(ledger, a, k);
    forall x | 0 <= x < index ensures CoveredAt(after, x) {
      assert CoveredAt(ledger, x);
      var b :| Inside(ledger, b, x);
      assert Inside(after, if b == a && x >= a + k then a + k else b, x);
    }
  }

  /** Moving or carving a region in hand touches no list and no live block. */
  lemma InHandFrame(free: seq<seq<nat>>, live: map<nat, nat>, ledger: Ledger, ledger': Ledger)
    requires ListsOk(free, ledger) && LiveOk(live, ledger)
    requires forall a | a in ledger && ledger[a].home != InHand :: a in ledger' && ledger'[a] == ledger[a]
    ensures ListsOk(free, ledger') && LiveOk(live, ledger')
  {
    hide BucketSize, SizeToIndex;
    forall i | 0 <= i < |free| ensures ListOk(free[i], i, ledger') {
      assert ListOk(free[i], i, ledger);
    }
  }

  /** A region in hand goes into the list of a class it is large enough for. */
  lemma PushKeeps(p: Pool, live: map<nat, nat>, ledger: Ledger, a: nat, i: nat, hand: set<nat>)
    requires Good(p, live, ledger, hand) && a in hand
    requires i < BUCKETS && BucketSize(i) <= ledger[a].extent
    ensures Good(PushBlock(p, a, i), live, Move(ledger, a, Listed(i)), hand - {a})
  {
    hide BucketSize, SizeToIndex;
    var ledger' := Move(ledger, a, Listed(i));
    MoveDisjoint(ledger, p.index, a, Listed(i));
    MoveCovered(ledger, p.index, a, Listed(i));
    InHandFrame(p.free, live, ledger, ledger');
    PushHomed(p, live, ledger, a, i, hand);
    hide Disjoint, Covered, Homed;
    var free' := PushBlock(p, a, i).free;
    forall j | 0 <= j < |free'| ensures ListOk(free'[j], j, ledger') {
      assert ListOk(p.free[j], j, ledger') && ListOk(p.free[j], j, ledger);
      if j == i {
        PushOk(p.free[i], i, ledger, a);
      }
    }
  }

  lemma PushHomed(p: Pool, live: map<nat, nat>, ledger: Ledger, a: nat, i: nat, hand: set<nat>)
    requires Shape(p) && Homed(p.free, live, ledger, hand) && a in hand && i < BUCKETS
    ensures Homed(PushBlock(p, a, i).free, live, Move(ledger, a, Listed(i)), hand - {a})
  {
    var free' := PushBlock(p, a, i).free;
    assert free'[i] == [a] + p.free[i] && a in free'[i];
    assert forall b | b in p.free[i] :: b in free'[i];
  }

  lemma PopHomed(p: Pool, live: map<nat, nat>, ledger: Ledger, i: nat, hand: set<nat>)
    requires Shape(p) && Homed(p.free, live, ledger, hand) && i < BUCKETS && p.free[i] != []
    requires p.free[i][0] in ledger && ledger[p.free[i][0]].home == Listed(i)
    ensures Homed(PopBlock(p, i).free, live, Move(ledger, p.free[i][0], InHand), hand + {p.free[i][0]})
  {
    var a, free' := p.free[i][0], PopBlock(p, i).free;
    assert p.free[i] == [a] + free'[i];
    assert forall b | b in p.free[i] && b != a :: b in free'[i];
  }

  lemma PushOk(blocks: seq<nat>, i: nat, ledger: Ledger, a: nat)
    requires ListOk(blocks, i, ledger) && a in ledger && ledger[a].home == InHand && BucketSize(i) <= ledger[a].extent
    ensures ListOk([a] + blocks, i, Move(ledger, a, Listed(i)))
  {
    hide BucketSize;
  }

  /** The first block of a list is taken in hand. */
  lemma PopKeeps(p: Pool, live: map<nat, nat>, ledger: Ledger, i: nat)
    requires Good(p, live, ledger, {}) && i < BUCKETS && p.free[i] != []
    ensures var a := p.free[i][0];
            && a in ledger && BucketSize(i) <= ledger[a].extent && a !in live
            && Good(PopBlock(p, i), live, Move(ledger, a, InHand), {a})
  {
    hide BucketSize, SizeToIndex;
    assert ListOk(p.free[i], i, ledger);
    var a := p.free[i][0];
    var ledger' := Move(ledger, a, InHand);
    MoveDisjoint(ledger, p.index, a, InHand);
    MoveCovered(ledger, p.index, a, InHand);
    PopHomed(p, live, ledger, i, {});
    assert {} + {a} == {a};
    hide Disjoint, Covered, Homed;
    var free' := PopBlock(p, i).free;
    forall j | 0 <= j < |free'| ensures ListOk(free'[j], j, ledger') {
      assert ListOk(p.free[j], j, ledger);
      if j == i {
        PopOk(p.free[i], i, ledger);
      }
    }
  }

  lemma PopOk(blocks: seq<nat>, i: nat, ledger: Ledger)
    requires blocks != [] && ListOk(blocks, i, ledger)
    ensures ListOk(blocks[1..], i, Move(ledger, blocks[0], InHand))
  {
    hide BucketSize;
    var rest := blocks[1..];
    assert forall k | 0 <= k < |rest| :: rest[k] == blocks[k + 1];
  }

  /** split_block: each piece of the remainder goes to its list. */
  lemma {:induction false} SplitKeeps(p: Pool, live: map<nat, nat>, ledger: Ledger, a: nat, rest: nat, hand: set<nat>)
    returns (ledger': Ledger)
    requires Good(p, live, ledger, hand) && a in hand && a in ledger
    requires 0 < rest <= LARGE_LIMIT && rest % ALIGNMENT == 0 && rest <= ledger[a].extent
    ensures Good(PushAll(p, Pieces(a, rest)), live, ledger', hand - {a})
    ensures forall b | b in ledger && b != a :: b in ledger' && ledger'[b] == ledger[b]
    decreases rest
  {
    hide BucketSize, SizeToIndex, Disjoint, Covered, ListsOk, LiveOk, Homed, PushBlock;
    ClassCovers(rest);
    var i := SizeToIndex(rest);
    var pieces := Pieces(a, rest);
    if i < LARGE_OFFSET {
      SmallExact(rest);
      PushKeeps(p, live, ledger, a, i, hand);
      ledger' := Move(ledger, a, Listed(i));
      PushOne(p, a, i);
    } else {
      LowerClassFits(rest);
      ClassAligned(i - 1);
      var size := BucketSize(i - 1);
      PushFirst(p, a, i - 1, Pieces(a + size, rest - size));
      if size == rest {
        PushKeeps(p, live, ledger, a, i - 1, hand);
        ledger' := Move(ledger, a, Listed(i - 1));
      } else {
        ledger' := CarveKeeps(p, live, ledger, a, size, hand);
        var hand' := hand + {a + size};
        PushKeeps(p, live, ledger', a, i - 1, hand');
        ledger' := Move(ledger', a, Listed(i - 1));
        ledger' := SplitKeeps(PushBlock(p, a, i - 1), live, ledger', a + size, rest - size, hand' - {a});
        HandFresh(p, live, ledger, hand, a + size);
        assert hand' - {a} - {a + size} == hand - {a};
      }
    }
  }

  lemma PushOne(p: Pool, a: nat, i: nat)
    requires Shape(p) && i < BUCKETS
    ensures PushAll(p, [Piece(a, i)]) == PushBlock(p, a, i)
  {
    assert [Piece(a, i)][1..] == [];
  }

  lemma PushFirst(p: Pool, a: nat, i: nat, rest: seq<Piece>)
    requires Shape(p) && i < BUCKETS && forall k | 0 <= k < |rest| :: rest[k].index < BUCKETS
    ensures PushAll(p, [Piece(a, i)] + rest) == PushAll(PushBlock(p, a, i), rest)
  {
    assert ([Piece(a, i)] + rest)[1..] == rest;
  }

  lemma CarveKeeps(p: Pool, live: map<nat, nat>, ledger: Ledger, a: nat, k: nat, hand: set<nat>) returns (ledger': Ledger)
    requires Good(p, live, ledger, hand) && a in hand && a in ledger && 0 < k < ledger[a].extent
    ensures a + k !in ledger && ledger' == Carve(ledger, a, k) && Good(p, live, ledger', hand + {a + k})
  {
    hide BucketSize, SizeToIndex, Disjoint, Covered, ListsOk, LiveOk;
    CarveDisjoint(ledger, p.index, a, k);
    CarveCovered(ledger, p.index, a, k);
    ledger' := Carve(ledger, a, k);
    InHandFrame(p.free, live, ledger, ledger');
    CarveHomed(p.free, live, ledger, a, k, hand);
    hide Homed;
  }

  lemma CarveHomed(free: seq<seq<nat>>, live: map<nat, nat>, ledger: Ledger, a: nat, k: nat, hand: set<nat>)
    requires Homed(free, live, ledger, hand) && a in hand && k <= ledger[a].extent && a + k !in ledger
    ensures Homed(free, live, Carve(ledger, a, k), hand + {a + k})
  {
    var after, hand' := Carve(ledger, a, k), hand + {a + k};
    forall b | b in after ensures AtHome(free, live, hand', after[b].home, b) {
      if b != a + k {
        assert AtHome(free, live, hand, ledger[b].home, b);
      }
    }
  }

  lemma HandFresh(p: Pool, live: map<nat, nat>, ledger: Ledger, hand: set<nat>, b: nat)
    requires Good(p, live, ledger, hand) && b !in ledger
    ensures b !in hand
  {
    hide Disjoint, Covered, ListsOk, LiveOk;
  }

  // ---------------------------------------------------------------- calls

  /** What the client holds after allocate(). */
  function Holding(live: map<nat, nat>, ptr: Ptr, n: nat): map<nat, nat> {
    if ptr.Block? then live[ptr.offset := n] else live
  }

  lemma HandOver(p: Pool, live: map<nat, nat>, ledger: Ledger, a: nat, n: nat)
    requires Good(p, live, ledger, {a}) && a in ledger && a !in live
    requires 0 < n <= LARGE_LIMIT && 0 <= SizeToIndex(n) < BUCKETS && BucketSize(SizeToIndex(n)) <= ledger[a].extent
    ensures Good(p, live[a := n], Move(ledger, a, Live), {})
  {
    hide BucketSize, SizeToIndex;
    MoveDisjoint(ledger, p.index, a, Live);
    MoveCovered(ledger, p.index, a, Live);
    hide Disjoint, Covered;
    InHandFrame(p.free, live, ledger, Move(ledger, a, Live));
  }

  lemma TakeKeeps(p: Pool, live: map<nat, nat>, ledger: Ledger, n: nat) returns (ledger': Ledger)
    requires Good(p, live, ledger, {}) && 0 < n <= LARGE_LIMIT
    requires 0 <= SizeToIndex(n) < BUCKETS && p.free[SizeToIndex(n)] != []
    ensures var i := SizeToIndex(n);
            var a := p.free[i][0];
            a !in live && Good(PopBlock(p, i), live[a := n], ledger', {})
  {
    hide BucketSize, Disjoint, Covered, ListsOk, LiveOk, Homed;
    var i := SizeToIndex(n);
    var a := p.free[i][0];
    PopKeeps(p, live, ledger, i);
    ledger' := Move(ledger, a, InHand);
    HandOver(PopBlock(p, i), live, ledger', a, n);
    ledger' := Move(ledger', a, Live);
  }

  lemma SplitTakeKeeps(p: Pool, live: map<nat, nat>, ledger: Ledger, i: nat, n: nat) returns (ledger': Ledger)
    requires Good(p, live, ledger, {}) && 0 < n <= LARGE_LIMIT
    requires 0 <= SizeToIndex(n) < i < BUCKETS && p.free[i] != []
    ensures var a := p.free[i][0];
            && TakeAndSplit(p, i, SizeToIndex(n)).ptr == Block(a) && a !in live
            && Good(TakeAndSplit(p, i, SizeToIndex(n)).pool, live[a := n], ledger', {})
  {
    hide BucketSize, SizeToIndex, Disjoint, Covered, ListsOk, LiveOk, Homed, PopBlock;
    var start := SizeToIndex(n);
    var a := p.free[i][0];
    PopKeeps(p, live, ledger, i);
    ledger' := Move(ledger, a, InHand);
    var p1 := PopBlock(p, i);
    ClassOrder(start, i);
    if i >= LARGE_OFFSET {
      ClassLimit(i);
      ClassAligned(start);
      ClassAligned(i);
      var size, rest := BucketSize(start), BucketSize(i) - BucketSize(start);
      ledger' := CarveKeeps(p1, live, ledger', a, size, {a});
      ledger' := SplitKeeps(p1, live, ledger', a + size, rest, {a} + {a + size});
      assert {a} + {a + size} - {a + size} == {a};
      p1 := PushAll(p1, Pieces(a + size, rest));
    }
    HandOver(p1, live, ledger', a, n);
    ledger' := Move(ledger', a, Live);
  }

  lemma BumpCovered(ledger: Ledger, index: nat, size: nat)
    requires Covered(ledger, index) && index !in ledger
    ensures Covered(ledger[index := Region(size, InHand)], index + size)
  {
    var after := ledger[index := Region(size, InHand)];
    forall x | 0 <= x < index + size ensures CoveredAt(after, x) {
      if x < index {
        assert CoveredAt(ledger, x);
        var b :| Inside(ledger, b, x);
        assert Inside(after, b, x);
      } else {
        assert Inside(after, index, x);
      }
    }
  }

  lemma BumpKeeps(p: Pool, live: map<nat, nat>, ledger: Ledger, n: nat) returns (ledger': Ledger)
    requires Good(p, live, ledger, {}) && 0 < n <= LARGE_LIMIT && 0 <= SizeToIndex(n) < BUCKETS
    requires BucketSize(SizeToIndex(n)) > 0 && p.index + BucketSize(SizeToIndex(n)) <= p.size
    ensures p.index !in live
    ensures Good(p.(index := p.index + BucketSize(SizeToIndex(n))), live[p.index := n], ledger', {})
  {
    hide BucketSize, SizeToIndex;
    var size := BucketSize(SizeToIndex(n));
    ledger' := ledger[p.index := Region(size, InHand)];
    InHandFrame(p.free, live, ledger, ledger');
    var p1 := p.(index := p.index + size);
    assert Disjoint(ledger', p1.index);
    BumpCovered(ledger, p.index, size);
    assert Homed(p.free, live, ledger', {p.index});
    hide Disjoint, Covered, Homed, ListsOk, LiveOk;
    HandOver(p1, live, ledger', p.index, n);
    ledger' := Move(ledger', p.index, Live);
  }

  /** allocate() hands out a block that nobody holds. */
  lemma AllocateKeeps(p: Pool, bitset: bool, live: map<nat, nat>, ledger: Ledger, n: nat) returns (ledger': Ledger)
    requires Good(p, live, ledger, {})
    ensures var r := Allocate(p, bitset, n);
            && Good(r.pool, Holding(live, r.ptr, n), ledger', {})
            && (r.ptr.Block? ==> r.ptr.offset !in live)
  {
    hide BucketSize, SizeToIndex, Disjoint, Covered, ListsOk, LiveOk, Homed, PopBlock, TakeAndSplit, Highest;
    ledger' := ledger;
    if 0 < n <= LARGE_LIMIT {
      ClassCovers(n);
      var start := SizeToIndex(n);
      ClassAligned(start);
      var found := Highest(p, bitset, BUCKETS - 1, start);
      if p.free[start] != [] {
        ledger' := TakeKeeps(p, live, ledger, n);
      } else if found.Some? {
        ledger' := SplitTakeKeeps(p, live, ledger, found.value, n);
      } else if p.size - p.index >= BucketSize(start) {
        ledger' := BumpKeeps(p, live, ledger, n);
      }
    }
  }

  /** deallocate() of a live block with its size. */
  lemma DeallocateKeeps(p: Pool, live: map<nat, nat>, ledger: Ledger, a: nat) returns (ledger': Ledger)
    requires Good(p, live, ledger, {}) && a in live
    ensures Deallocate(p, Block(a), live[a]) == PushBlock(p, a, SizeToIndex(live[a]))
    ensures Good(Deallocate(p, Block(a), live[a]), live - {a}, ledger', {})
  {
    hide BucketSize, SizeToIndex;
    var n := live[a];
    ClassCovers(n);
    ledger' := Move(ledger, a, InHand);
    MoveDisjoint(ledger, p.index, a, InHand);
    MoveCovered(ledger, p.index, a, InHand);
    assert Homed(p.free, live - {a}, ledger', {a});
    assert {a} - {a} == {};
    hide Disjoint, Covered, Homed;
    forall i | 0 <= i < |p.free| ensures ListOk(p.free[i], i, ledger') {
      assert ListOk(p.free[i], i, ledger);
    }
    PushKeeps(p, live - {a}, ledger', a, SizeToIndex(n), {a});
    ledger' := Move(ledger', a, Listed(SizeToIndex(n)));
  }

  // ---------------------------------------------------------------- runs

  datatype State = State(pool: Pool, live: map<nat, nat>)

  datatype Event = Request(n: nat) | Return(a: nat)

  predicate Enabled(s: State, e: Event) { e.Return? ==> e.a in s.live }

  function Apply(s: State, bitset: bool, e: Event): State
    requires Shape(s.pool) && Enabled(s, e)
  {
    match e
    case Request(n) =>
      var r := Allocate(s.pool, bitset, n);
      State(r.pool, Holding(s.live, r.ptr, n))
    case Return(a) => State(Deallocate(s.pool, Block(a), s.live[a]), s.live - {a})
  }

  /**
   Any sequence of calls on a fresh pool, each block being returned with the size it was requested
   with. The pool is no larger than what the tagged index of a free list can address.
   */
  ghost predicate Trace(tr: seq<State>, bitset: bool, es: seq<Event>) {
    && |tr| == |es| + 1
    && tr[0] == State(Empty(tr[0].pool.size), map[]) && tr[0].pool.size <= FreeList.SENTINEL
    && forall i | 0 <= i < |es| ::
         Enabled(tr[i], es[i]) && (Shape(tr[i].pool) ==> tr[i + 1] == Apply(tr[i], bitset, es[i]))
  }

  /**
   In every reachable state there is a ledger of disjoint regions that together are exactly the
   used part of the arena, and every region is in one free list or with the client.
   */
  lemma {:induction false} AlwaysGood(tr: seq<State>, bitset: bool, es: seq<Event>, i: nat) returns (ledger: Ledger)
    requires Trace(tr, bitset, es) && i < |tr|
    ensures Good(tr[i].pool, tr[i].live, ledger, {})
  {
    if i == 0 {
      ledger := map[];
      assert forall k | 0 <= k < BUCKETS :: tr[0].pool.free[k] == [];
    } else {
      ledger := AlwaysGood(tr, bitset, es, i - 1);
      hide Disjoint, Covered, ListsOk, LiveOk, Homed, Allocate, Deallocate;
      var s, e := tr[i - 1], es[i - 1];
      assert tr[i] == Apply(s, bitset, e);
      match e {
        case Request(n) => ledger := AllocateKeeps(s.pool, bitset, s.live, ledger, n);
        case Return(a) => ledger := DeallocateKeeps(s.pool, s.live, ledger, a);
      }
    }
  }

  lemma {:induction false} PushAllSize(p: Pool, pieces: seq<Piece>)
    requires Shape(p) && forall k | 0 <= k < |pieces| :: pieces[k].index < BUCKETS
    ensures PushAll(p, pieces).size == p.size
    decreases |pieces|
  {
    if pieces != [] {
      PushAllSize(PushBlock(p, pieces[0].offset, pieces[0].index), pieces[1..]);
    }
  }

  lemma StepSize(s: State, bitset: bool, e: Event)
    requires Shape(s.pool) && Enabled(s, e)
    ensures Apply(s, bitset, e).pool.size == s.pool.size
  {
    hide BucketSize, SizeToIndex, Pieces, Highest;
    if e.Request? && 0 < e.n <= LARGE_LIMIT {
      ClassCovers(e.n);
      var p, start := s.pool, SizeToIndex(e.n);
      var found := Highest(p, bitset, BUCKETS - 1, start);
      if p.free[start] == [] && found.Some? && found.value >= LARGE_OFFSET {
        var i := found.value;
        ClassOrder(start, i);
        ClassLimit(i);
        ClassAligned(start);
        PushAllSize(PopBlock(p, i), Pieces(p.free[i][0] + BucketSize(start), BucketSize(i) - BucketSize(start)));
      }
    }
  }

  /** The arena ends before the sentinel of the free lists, in every reachable state. */
  lemma {:induction false} AlwaysAddressable(tr: seq<State>, bitset: bool, es: seq<Event>, i: nat)
    requires Trace(tr, bitset, es) && i < |tr|
    ensures tr[i].pool.size <= FreeList.SENTINEL
  {
    if i > 0 {
      AlwaysAddressable(tr, bitset, es, i - 1);
      var ledger := AlwaysGood(tr, bitset, es, i - 1);
      hide Disjoint, Covered, ListsOk, LiveOk, Homed, Allocate, Deallocate;
      StepSize(tr[i - 1], bitset, es[i - 1]);
    }
  }

  /** The bytes of a live block, as many as were asked for. */
  predicate Apart(a: nat, n: nat, b: nat, m: nat) { a + n <= b || b + m <= a }

  /**
   Over every run: live blocks lie inside the used part of the arena, cover what was asked for
   and overlap neither each other nor any free block.
   */
  lemma LiveBlocksAreDisjoint(tr: seq<State>, bitset: bool, es: seq<Event>, i: nat, a: nat)
    requires Trace(tr, bitset, es) && i < |tr| && a in tr[i].live
    ensures a + tr[i].live[a] <= tr[i].pool.index <= tr[i].pool.size && a < FreeList.SENTINEL
    ensures forall b | b in tr[i].live && b != a :: Apart(a, tr[i].live[a], b, tr[i].live[b])
    ensures |tr[i].pool.free| == BUCKETS
    ensures forall j, k | 0 <= j < BUCKETS && 0 <= k < |tr[i].pool.free[j]| ::
              Apart(a, tr[i].live[a], tr[i].pool.free[j][k], BucketSize(j))
  {
    var ledger := AlwaysGood(tr, bitset, es, i);
    AlwaysAddressable(tr, bitset, es, i);
    var p, live := tr[i].pool, tr[i].live;
    hide BucketSize, SizeToIndex, Trace;
    forall b | b in live ensures live[b] <= ledger[b].extent {
      ClassCovers(live[b]);
    }
    forall j, k | 0 <= j < BUCKETS && 0 <= k < |p.free[j]| ensures Apart(a, live[a], p.free[j][k], BucketSize(j)) {
      assert ListOk(p.free[j], j, ledger);
    }
  }

  /** Over every run: free blocks lie inside the used part of the arena and do not overlap. */
  lemma FreeBlocksAreDisjoint(tr: seq<State>, bitset: bool, es: seq<Event>, i: nat, j: nat, k: nat, j': nat, k': nat)
    requires Trace(tr, bitset, es) && i < |tr| && |tr[i].pool.free| == BUCKETS
    requires j < BUCKETS && k < |tr[i].pool.free[j]| && j' < BUCKETS && k' < |tr[i].pool.free[j']|
    requires j != j' || k != k'
    ensures var free := tr[i].pool.free;
            && free[j][k] + BucketSize(j) <= tr[i].pool.index && free[j][k] < FreeList.SENTINEL
            && Apart(free[j][k], BucketSize(j), free[j'][k'], BucketSize(j'))
  {
    var ledger := AlwaysGood(tr, bitset, es, i);
    AlwaysAddressable(tr, bitset, es, i);
    ClassAligned(j);
    hide BucketSize, SizeToIndex, Trace;
    assert ListOk(tr[i].pool.free[j], j, ledger) && ListOk(tr[i].pool.free[j'], j', ledger);
    assert tr[i].pool.free[j][k] != tr[i].pool.free[j'][k'];
  }

  // ---------------------------------------------------------------- the bitset

  /** A set bit stands for an empty list. */
  ghost predicate BitsInverted(p: Pool)
    requires Shape(p)
  {
    forall i | 0 <= i < BUCKETS && p.bits[i] :: p.free[i] == []
  }

  lemma {:induction false} PushAllBits(p: Pool, pieces: seq<Piece>)
    requires Shape(p) && BitsInverted(p) && forall k | 0 <= k < |pieces| :: pieces[k].index < BUCKETS
    ensures BitsInverted(PushAll(p, pieces))
    decreases |pieces|
  {
    if pieces != [] {
      PushAllBits(PushBlock(p, pieces[0].offset, pieces[0].index), pieces[1..]);
    }
  }

  lemma StepBits(s: State, bitset: bool, e: Event)
    requires Shape(s.pool) && BitsInverted(s.pool) && Enabled(s, e)
    ensures Shape(Apply(s, bitset, e).pool) && BitsInverted(Apply(s, bitset, e).pool)
  {
    hide BucketSize, SizeToIndex, Pieces, Highest;
    if e.Request? && 0 < e.n <= LARGE_LIMIT {
      ClassCovers(e.n);
      var p, start := s.pool, SizeToIndex(e.n);
      var found := Highest(p, bitset, BUCKETS - 1, start);
      if p.free[start] == [] && found.Some? && found.value >= LARGE_OFFSET {
        var i := found.value;
        ClassOrder(start, i);
        ClassLimit(i);
        ClassAligned(start);
        PushAllBits(PopBlock(p, i), Pieces(p.free[i][0] + BucketSize(start), BucketSize(i) - BucketSize(start)));
      }
    }
  }

  lemma {:induction false} AlwaysInverted(tr: seq<State>, bitset: bool, es: seq<Event>, i: nat)
    requires Trace(tr, bitset, es) && i < |tr|
    ensures Shape(tr[i].pool) && BitsInverted(tr[i].pool)
  {
    if i > 0 {
      AlwaysInverted(tr, bitset, es, i - 1);
      StepBits(tr[i - 1], bitset, es[i - 1]);
    }
  }

  /**
   Because free_list::empty() is inverted, the bitset search never finds a block: with the bitset
   a request is served from its own class, from the bump allocator or from the heap, never by
   splitting.
   */
  lemma BitsetFindsNothing(tr: seq<State>, es: seq<Event>, i: nat, start: nat)
    requires Trace(tr, true, es) && i < |tr| && start < BUCKETS
    ensures Shape(tr[i].pool) && Highest(tr[i].pool, true, BUCKETS - 1, start) == None
  {
    AlwaysInverted(tr, true, es, i);
  }

  /** The class of a request for 5000 bytes, and that of one for 64. */
  lemma TwoClasses()
    ensures SizeToIndex(5000) == 67 && BucketSize(67) == 5120 && SizeToIndex(64) == 0 && BucketSize(0) == 64
  {
    Pow12();
    hide ILog2, Pow2, BucketSize;
    var g, r := LargeSize(5000);
    assert Pow2(0 + 8) == 256;
    if g > 0 {
      Pow2Monotone(9, g + 8);
      PowNine();
    }
    LargeBucket(0, 3);
    SmallBucket(0);
  }

  lemma PowNine()
    ensures Pow2(9) == 512
  {
    Pow12();
  }

  /** A block of class 67 is requested from a pool of 64 KB and given back. */
  function Given(): State { State(Empty(65536).(index := 5120), map[0 := 5000]) }

  function Returned(): State {
    State(Empty(65536).(index := 5120, free := Empty(65536).free[67 := [0]]), map[])
  }

  /**
   A run in which the block is missed: it is in a list above the class that is searched for, the
   bitset search comes up empty where the linear search would have found it, and the next small
   request takes fresh memory.
   */
  lemma BitsetMissesBlock() returns (tr: seq<State>, es: seq<Event>)
    ensures Trace(tr, true, es) && es == [Request(5000), Return(0), Request(64)] && tr[2] == Returned()
    ensures tr[2].pool.free[67] == [0] && Highest(tr[2].pool, true, BUCKETS - 1, 0) == None
    ensures Highest(tr[2].pool, false, BUCKETS - 1, 0) == Some(67)
    ensures tr[3].live == map[5120 := 64] && tr[3].pool.free[67] == [0]
  {
    hide Apply, Highest, Trace, Empty, Shape, Returned;
    tr, es := GiveAndReturn();
    BitsetFindsNothing(tr, es, 2, 0);
    var s3 := State(tr[2].pool.(index := 5184), map[5120 := 64]);
    SecondRequest();
    Grow(tr, true, es, Request(64), s3);
    tr, es := tr + [s3], es + [Request(64)];
  }

  lemma GiveAndReturn() returns (tr: seq<State>, es: seq<Event>)
    ensures Trace(tr, true, es) && |tr| == 3 && es == [Request(5000), Return(0)] && tr[2] == Returned()
  {
    var s0, s1, s2 := State(Empty(65536), map[]), Given(), Returned();
    assert Enabled(s1, Return(0)) && Shape(s0.pool) && Shape(s1.pool);
    hide Apply, Trace, Empty, Shape, Given, Returned;
    FirstRequest(s0);
    FirstReturn();
    tr, es := [s0], [];
    NothingYet(s0);
    Grow(tr, true, es, Request(5000), s1);
    tr, es := tr + [s1], es + [Request(5000)];
    Grow(tr, true, es, Return(0), s2);
    tr, es := tr + [s2], es + [Return(0)];
  }

  lemma Grow(tr: seq<State>, bitset: bool, es: seq<Event>, e: Event, t: State)
    requires Trace(tr, bitset, es) && |tr| == |es| + 1
    requires Shape(tr[|es|].pool) && Enabled(tr[|es|], e) && t == Apply(tr[|es|], bitset, e)
    ensures Trace(tr + [t], bitset, es + [e]) && |tr + [t]| == |es + [e]| + 1
  {
    hide Apply, Enabled, Empty, Shape;
    var tr', es' := tr + [t], es + [e];
    forall i | 0 <= i < |es'| ensures Enabled(tr'[i], es'[i]) && (Shape(tr'[i].pool) ==> tr'[i + 1] == Apply(tr'[i], bitset, es'[i])) {
      assert tr'[i] == tr[i];
      assert i < |es| ==> es'[i] == es[i] && tr'[i + 1] == tr[i + 1];
    }
  }

  lemma NothingYet(s: State)
    requires s == State(Empty(65536), map[])
    ensures Trace([s], true, [])
  {
    assert s.pool.size == 65536;
    hide Empty;
  }

  lemma FirstRequest(s: State)
    requires s == State(Empty(65536), map[])
    ensures Apply(s, true, Request(5000)) == Given()
  {
    TwoClasses();
    hide BucketSize, SizeToIndex;
  }

  lemma FirstReturn()
    ensures Apply(Given(), true, Return(0)) == Returned()
  {
    TwoClasses();
    hide BucketSize, SizeToIndex;
    var p := Given().pool;
    assert p.free[67] == [] && [0] + p.free[67] == [0];
    assert p.bits[67 := false] == p.bits;
    assert PushBlock(p, 0, 67) == Returned().pool;
    assert Given().live - {0} == map[];
  }

  lemma SecondRequest()
    requires Highest(Returned().pool, true, BUCKETS - 1, 0) == None
    ensures Shape(Returned().pool) && Returned().pool.free[67] == [0]
    ensures Apply(Returned(), true, Request(64)) == State(Returned().pool.(index := 5184), map[5120 := 64])
    ensures Highest(Returned().pool, false, BUCKETS - 1, 0) == Some(67)
  {
    TwoClasses();
    hide BucketSize, SizeToIndex;
    var p := Returned().pool;
    assert p.free[0] == [] && forall k | 67 < k < BUCKETS :: p.free[k] == [];
    var found := Highest(p, false, BUCKETS - 1, 0);
    assert p.free[67] != [];
  }

  /** Without the bitset the search finds a block if and only if a higher class has one. */
  lemma LinearFindsIffAvailable(p: Pool, start: nat)
    requires Shape(p) && start < BUCKETS
    ensures Highest(p, false, BUCKETS - 1, start).Some? <==> exists i | start < i < BUCKETS :: p.free[i] != []
  {
  }
}
