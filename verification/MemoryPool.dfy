/**
 The real-time memory pool of aoo/src/rt_memory_pool.hpp: 128 size classes with free lists, a
 bump allocator behind them, and splitting of large blocks.

 Blocks are named by their offset into the arena. The free lists are used here one call at a
 time; `FreeList` has their concurrent protocol. The pool size is at most what a tagged index
 can address.
 */
module MemoryPool {
  import opened Wrappers
  import opened Arithmetic

  const ALIGNMENT: nat := 64
  const BUCKETS: nat := 128
  const LARGE_OFFSET: nat := 64
  const SMALL_LIMIT: nat := 4096
  const SMALL_BITS: nat := 12
  const LARGE_LIMIT: nat := 65535

  // ---------------------------------------------------------------- size classes

  /** 31 - clz(n) */
  function ILog2(n: nat): (k: nat)
    requires n > 0
    ensures Pow2(k) <= n < 2 * Pow2(k)
  {
    if n == 1 then 0 else 1 + ILog2(n / 2)
  }

  /** The r-th of the sixteen classes above a power of two. */
  function ClassSize(pow2: nat, r: nat): nat
    requires pow2 >= 16
  {
    var rem := r * pow2 / 16;
    var step := pow2 / 16;
    pow2 + (rem + step) / step * step
  }

  /** What the constructor puts into bucket_sizes_. */
  function BucketSize(i: nat): nat {
    if i >= LARGE_OFFSET then
      var pow2 := Pow2((i - LARGE_OFFSET) / 16 + SMALL_BITS);
      assert pow2 >= 16 by { PowSixteenth((i - LARGE_OFFSET) / 16 + 8); }
      ClassSize(pow2, (i - LARGE_OFFSET) % 16)
    else (i + 1) * ALIGNMENT
  }

  /** size_to_index() */
  function SizeToIndex(size: nat): int
    requires size > 0
  {
    if size > SMALL_LIMIT then
      var k := ILog2(size);
      assert k >= 4 by { LogAtLeast(size, 12); }
      k * 16 + (size / Pow2(k - 4)) % 16 + (LARGE_OFFSET - SMALL_BITS * 16)
    else (size - 1) / ALIGNMENT
  }

  lemma LogAtLeast(n: nat, k: nat)
    requires Pow2(k) <= n
    ensures ILog2(n) >= k
  {
    if ILog2(n) < k {
      Pow2Monotone(ILog2(n) + 1, k);
    }
  }

  lemma PowSixteenth(k: nat)
    ensures Pow2(k + 4) == 16 * Pow2(k)
  {
    assert Pow2(k + 4) == 2 * Pow2(k + 3) && Pow2(k + 3) == 2 * Pow2(k + 2) && Pow2(k + 2) == 2 * Pow2(k + 1);
  }

  /** The large classes in steps of a sixteenth of a power of two: class r of group g. */
  lemma LargeBucket(g: nat, r: nat)
    requires r < 16
    ensures BucketSize(LARGE_OFFSET + 16 * g + r) == (17 + r) * Pow2(g + 8)
    ensures Pow2(g + SMALL_BITS) == 16 * Pow2(g + 8)
  {
    var i := LARGE_OFFSET + 16 * g + r;
    assert (i - LARGE_OFFSET) / 16 == g && (i - LARGE_OFFSET) % 16 == r;
    PowSixteenth(g + 8);
    Sixteenths(r, Pow2(g + 8));
    hide Pow2, ClassSize;
  }

  lemma Sixteenths(r: nat, step: nat)
    requires step > 0
    ensures ClassSize(16 * step, r) == (17 + r) * step
  {
    RoundUp(r, step);
    assert (17 + r) * step == 16 * step + (r * step + step);
  }

  lemma RoundUp(r: nat, step: nat)
    requires step > 0
    ensures 16 * step / 16 == step && r * (16 * step) / 16 == r * step
    ensures (r * step + step) / step * step == r * step + step
  {
    assert r * (16 * step) == 16 * (r * step);
    assert r * step + step == (r + 1) * step;
    DivMul(r + 1, step);
  }

  lemma Pow12()
    ensures Pow2(8) == 256 && Pow2(12) == 4096 && Pow2(16) == 65536
  {
    assert Pow2(4) == 16;
    PowSixteenth(4);
    PowSixteenth(8);
    PowSixteenth(12);
  }

  /** Where a large size falls: class r of group g, strictly below the class size. */
  lemma LargeSize(size: nat) returns (g: nat, r: nat)
    requires SMALL_LIMIT < size <= LARGE_LIMIT
    ensures g < 4 && r < 16 && SizeToIndex(size) == LARGE_OFFSET + 16 * g + r
    ensures (16 + r) * Pow2(g + 8) <= size < (17 + r) * Pow2(g + 8)
  {
    var k := ILog2(size);
    Pow12();
    LogAtLeast(size, 12);
    if k >= 16 {
      Pow2Monotone(16, k);
    }
    g := k - 12;
    PowSixteenth(k - 4);
    r := Sixteenth(size, Pow2(k - 4));
    hide Pow2, ILog2;
  }

  lemma Sixteenth(size: nat, step: nat) returns (r: nat)
    requires step > 0 && 16 * step <= size < 32 * step
    ensures r < 16 && (size / step) % 16 == r && (16 + r) * step <= size < (17 + r) * step
  {
    var q := size / step;
    assert size == q * step + size % step;
    MulMonotone(32, q, step);
    MulMonotone(q + 1, 16, step);
    r := q - 16;
    assert (q + 1) * step == q * step + step;
  }

  /** Every size up to the limit has a class, whose blocks are large enough. */
  lemma ClassCovers(size: nat)
    requires 0 < size <= LARGE_LIMIT
    ensures 0 <= SizeToIndex(size) < BUCKETS && size <= BucketSize(SizeToIndex(size))
    ensures size > SMALL_LIMIT <==> SizeToIndex(size) >= LARGE_OFFSET
  {
    hide BucketSize, ILog2, Pow2;
    if size > SMALL_LIMIT {
      hide SizeToIndex;
      var g, r := LargeSize(size);
      LargeBucket(g, r);
    } else {
      SmallBucket((size - 1) / ALIGNMENT);
    }
  }

  /** A small multiple of the alignment is the size of its class. */
  lemma SmallExact(size: nat)
    requires 0 < size <= SMALL_LIMIT && size % ALIGNMENT == 0
    ensures 0 <= SizeToIndex(size) < LARGE_OFFSET && BucketSize(SizeToIndex(size)) == size
  {
    SmallBucket((size - 1) / ALIGNMENT);
    hide BucketSize, ILog2, Pow2;
  }

  lemma SmallBucket(i: nat)
    requires i < LARGE_OFFSET
    ensures BucketSize(i) == (i + 1) * ALIGNMENT
  {
  }

  /** A large remainder is at least as big as a block of the next lower class. */
  lemma LowerClassFits(size: nat)
    requires SMALL_LIMIT < size <= LARGE_LIMIT
    ensures SizeToIndex(size) >= LARGE_OFFSET && BucketSize(SizeToIndex(size) - 1) <= size
  {
    hide BucketSize, SizeToIndex, ILog2;
    var g, r := LargeSize(size);
    SmallBucket(63);
    if r > 0 {
      LargeBucket(g, r - 1);
    } else if g > 0 {
      LargeBucket(g - 1, 15);
      assert Pow2(g + 8) == 2 * Pow2(g + 7);
    }
  }

  /** Class sizes are multiples of the alignment. */
  lemma ClassAligned(i: nat)
    ensures BucketSize(i) % ALIGNMENT == 0 && BucketSize(i) > 0
  {
    hide BucketSize;
    if i >= LARGE_OFFSET {
      var g, r := (i - LARGE_OFFSET) / 16, (i - LARGE_OFFSET) % 16;
      LargeBucket(g, r);
      PowMultiple(g);
      var m: nat :| Pow2(g + 8) == 64 * m && m > 0;
      hide Pow2;
      MultipleOf64(17 + r, m);
    } else {
      SmallBucket(i);
    }
  }

  lemma MultipleOf64(a: nat, m: nat)
    requires a > 0 && m > 0
    ensures a * (64 * m) % 64 == 0 && a * (64 * m) > 0
  {
    assert a * (64 * m) == 64 * (a * m);
  }

  lemma {:induction false} PowMultiple(g: nat)
    ensures exists m: nat :: Pow2(g + 8) == 64 * m && m > 0
  {
    Pow12();
    if g == 0 {
      assert Pow2(0 + 8) == 64 * 4;
    } else {
      PowMultiple(g - 1);
      var m: nat :| Pow2(g - 1 + 8) == 64 * m && m > 0;
      assert Pow2(g + 8) == 64 * (2 * m);
    }
  }

  /** Class sizes rise. */
  lemma ClassRises(i: nat)
    ensures BucketSize(i) < BucketSize(i + 1)
  {
    if i < LARGE_OFFSET - 1 {
      SmallBucket(i);
      SmallBucket(i + 1);
    } else if i == LARGE_OFFSET - 1 {
      Pow12();
      SmallBucket(i);
      LargeBucket(0, 0);
    } else {
      LargeRises((i - LARGE_OFFSET) / 16, (i - LARGE_OFFSET) % 16);
    }
  }

  lemma LargeRises(g: nat, r: nat)
    requires r < 16
    ensures var i := LARGE_OFFSET + 16 * g + r; BucketSize(i) < BucketSize(i + 1)
  {
    hide BucketSize;
    var step := Pow2(g + 8);
    LargeBucket(g, r);
    assert (18 + r) * step == (17 + r) * step + step;
    if r < 15 {
      LargeBucket(g, r + 1);
    } else {
      LargeBucket(g + 1, 0);
      assert Pow2(g + 9) == 2 * step;
    }
  }

  lemma {:induction false} ClassOrder(i: nat, j: nat)
    requires i < j
    ensures BucketSize(i) < BucketSize(j)
    decreases j - i
  {
    ClassRises(j - 1);
    if i < j - 1 {
      ClassOrder(i, j - 1);
    }
  }

  /** The largest class. */
  lemma ClassLimit(i: nat)
    requires i < BUCKETS
    ensures BucketSize(i) <= 65536
  {
    Pow12();
    LargeBucket(3, 15);
    assert Pow2(3 + 8) == 2048;
    if i < 127 {
      ClassOrder(i, 127);
    }
  }

  // ---------------------------------------------------------------- the pool

  /** `free[i]` is the free list of class i, most recently returned block first. */
  datatype Pool = Pool(size: nat, index: nat, free: seq<seq<nat>>, bits: seq<bool>)

  predicate Shape(p: Pool) { |p.free| == BUCKETS && |p.bits| == BUCKETS && p.index <= p.size }

  function Empty(size: nat): Pool {
    Pool(size, 0, seq(BUCKETS, _ => []), seq(BUCKETS, _ => false))
  }

  /** push_block(); empty() says the opposite of its name, so the bit ends up set for an empty list. */
  function PushBlock(p: Pool, offset: nat, i: nat): (r: Pool)
    requires Shape(p) && i < BUCKETS
    ensures Shape(r)
  {
    p.(free := p.free[i := [offset] + p.free[i]], bits := p.bits[i := false])
  }

  /** pop_block() on a list that is not empty */
  function PopBlock(p: Pool, i: nat): (r: Pool)
    requires Shape(p) && i < BUCKETS && p.free[i] != []
    ensures Shape(r)
  {
    var rest := p.free[i][1..];
    p.(free := p.free[i := rest], bits := p.bits[i := rest == []])
  }

  /** A piece of a split block: its offset and the class it goes to. */
  datatype Piece = Piece(offset: nat, index: nat)

  /** split_block(): how a remainder is cut up. */
  function Pieces(offset: nat, rest: nat): (r: seq<Piece>)
    requires rest <= LARGE_LIMIT
    ensures forall k | 0 <= k < |r| :: r[k].index < BUCKETS
    decreases rest
  {
    if rest == 0 then []
    else
      ClassCovers(rest);
      var i := SizeToIndex(rest);
      if i >= LARGE_OFFSET then
        LowerClassFits(rest);
        ClassAligned(i - 1);
        [Piece(offset, i - 1)] + Pieces(offset + BucketSize(i - 1), rest - BucketSize(i - 1))
      else [Piece(offset, i)]
  }

  function PushAll(p: Pool, pieces: seq<Piece>): (r: Pool)
    requires Shape(p) && forall k | 0 <= k < |pieces| :: pieces[k].index < BUCKETS
    ensures Shape(r)
    decreases |pieces|
  {
    if pieces == [] then p else PushAll(PushBlock(p, pieces[0].offset, pieces[0].index), pieces[1..])
  }

  /**
   The class that the search above `start` takes a block from, going down from class i: the
   highest one that is not empty or, with the bitset, the highest such one whose bit is set.
   */
  function Highest(p: Pool, bitset: bool, i: nat, start: nat): (r: Option<nat>)
    requires Shape(p) && i < BUCKETS
    ensures r.Some? ==> start < r.value <= i && p.free[r.value] != [] && (bitset ==> p.bits[r.value])
    ensures forall k | start < k <= i && (r.Some? ==> r.value < k) :: p.free[k] == [] || (bitset && !p.bits[k])
  {
    if i <= start then None
    else if p.free[i] != [] && (!bitset || p.bits[i]) then Some(i)
    else Highest(p, bitset, i - 1, start)
  }

  /** What a call returns: nothing, memory from the heap, or a block of the pool. */
  datatype Ptr = Null | Heap | Block(offset: nat)

  datatype Got = Got(pool: Pool, ptr: Ptr)

  /** find_matching_block() when the search has come up with class i */
  function TakeAndSplit(p: Pool, i: nat, start: nat): Got
    requires Shape(p) && start < i < BUCKETS && p.free[i] != []
  {
    var offset, p1 := p.free[i][0], PopBlock(p, i);
    if i < LARGE_OFFSET then Got(p1, Block(offset))
    else
      ClassOrder(start, i);
      ClassLimit(i);
      ClassAligned(start);
      Got(PushAll(p1, Pieces(offset + BucketSize(start), BucketSize(i) - BucketSize(start))), Block(offset))
  }

  /** allocate() */
  function Allocate(p: Pool, bitset: bool, n: nat): (r: Got)
    requires Shape(p)
  {
    if n > LARGE_LIMIT then Got(p, Heap)
    else if n == 0 then Got(p, Null)
    else
      ClassCovers(n);
      var start := SizeToIndex(n);
      var found := Highest(p, bitset, BUCKETS - 1, start);
      if p.free[start] != [] then Got(PopBlock(p, start), Block(p.free[start][0]))
      else if found.Some? then TakeAndSplit(p, found.value, start)
      else if p.size - p.index >= BucketSize(start) then Got(p.(index := p.index + BucketSize(start)), Block(p.index))
      else Got(p, Heap)
  }

  /** deallocate() with the size that the block was allocated with */
  function Deallocate(p: Pool, ptr: Ptr, n: nat): Pool
    requires Shape(p)
  {
    if n > LARGE_LIMIT || n == 0 || !ptr.Block? || ptr.offset >= p.size then p
    else
      ClassCovers(n);
      PushBlock(p, ptr.offset, SizeToIndex(n))
  }

  // ---------------------------------------------------------------- what the two calls do

  /** The lists of all other classes, and the bump index, are as before. */
  predicate OnlyList(p: Pool, q: Pool, i: nat)
    requires Shape(p) && Shape(q)
  {
    q.size == p.size && q.index == p.index && forall k | 0 <= k < BUCKETS && k != i :: q.free[k] == p.free[k]
  }

  /** Where the memory for a request comes from, in this order. */
  datatype Origin = Own | Higher(index: nat) | Bump | System

  /** The search finds class i: it is the highest above c with a block, and with the bitset one whose bit is set. */
  ghost predicate Finds(p: Pool, bitset: bool, c: nat, i: nat)
    requires Shape(p)
  {
    && c < i < BUCKETS && p.free[i] != [] && (bitset ==> p.bits[i])
    && forall k | i < k < BUCKETS :: p.free[k] == [] || (bitset && !p.bits[k])
  }

  ghost predicate FindsNone(p: Pool, bitset: bool, c: nat)
    requires Shape(p)
  {
    forall k | c < k < BUCKETS :: p.free[k] == [] || (bitset && !p.bits[k])
  }

  /**
   allocate(): the first block of the own class if there is one, else the first block of the class that
   the search finds, else fresh memory of the pool, and the system only when all of that fails. An
   empty request gets nothing, a too large one always comes from the system.
   */
  lemma AllocateIs(p: Pool, bitset: bool, n: nat) returns (from: Origin)
    requires Shape(p)
    ensures var r := Allocate(p, bitset, n);
            if n == 0 then r == Got(p, Null)
            else if n > LARGE_LIMIT then r == Got(p, Heap)
            else
              var c := SizeToIndex(n);
              && 0 <= c < BUCKETS && Shape(r.pool)
              && match from
                 case Own =>
                   && p.free[c] != [] && r.ptr == Block(p.free[c][0])
                   && OnlyList(p, r.pool, c) && r.pool.free[c] == p.free[c][1..]
                 case Higher(i) =>
                   && p.free[c] == [] && Finds(p, bitset, c, i) && r.ptr == Block(p.free[i][0]) && r.pool.index == p.index
                   && (i < LARGE_OFFSET ==> OnlyList(p, r.pool, i) && r.pool.free[i] == p.free[i][1..])
                 case Bump =>
                   && p.free[c] == [] && FindsNone(p, bitset, c) && p.index + BucketSize(c) <= p.size
                   && r == Got(p.(index := p.index + BucketSize(c)), Block(p.index))
                 case System =>
                   && p.free[c] == [] && FindsNone(p, bitset, c) && p.index + BucketSize(c) > p.size && r == Got(p, Heap)
  {
    from := System;
    if 0 < n <= LARGE_LIMIT {
      ClassCovers(n);
      var c := SizeToIndex(n);
      var found := Highest(p, bitset, BUCKETS - 1, c);
      hide SizeToIndex, BucketSize, Highest, Pieces;
      if p.free[c] != [] {
        from := Own;
      } else if found.Some? {
        from := Higher(found.value);
        SplitIndex(p, found.value, c);
        hide TakeAndSplit;
      } else if p.size - p.index >= BucketSize(c) {
        from := Bump;
      }
    }
  }

  lemma SplitIndex(p: Pool, i: nat, c: nat)
    requires Shape(p) && c < i < BUCKETS && p.free[i] != []
    ensures var r := TakeAndSplit(p, i, c);
            && Shape(r.pool) && r.ptr == Block(p.free[i][0]) && r.pool.index == p.index
            && (i < LARGE_OFFSET ==> OnlyList(p, r.pool, i) && r.pool.free[i] == p.free[i][1..])
  {
    hide BucketSize, Pieces;
    if i >= LARGE_OFFSET {
      ClassOrder(c, i);
      ClassLimit(i);
      ClassAligned(c);
      PushAllIndex(PopBlock(p, i), Pieces(p.free[i][0] + BucketSize(c), BucketSize(i) - BucketSize(c)));
    }
  }

  lemma {:induction false} PushAllIndex(p: Pool, pieces: seq<Piece>)
    requires Shape(p) && forall k | 0 <= k < |pieces| :: pieces[k].index < BUCKETS
    ensures PushAll(p, pieces).index == p.index
    decreases |pieces|
  {
    if pieces != [] {
      PushAllIndex(PushBlock(p, pieces[0].offset, pieces[0].index), pieces[1..]);
    }
  }

  /** A block that is returned is the next one that a request of its class gets, and then the pool is as before. */
  lemma ReturnedIsNext(p: Pool, bitset: bool, a: nat, n: nat, m: nat)
    requires Shape(p) && a < p.size && 0 < n <= LARGE_LIMIT && 0 < m <= LARGE_LIMIT && SizeToIndex(n) == SizeToIndex(m)
    ensures var q := Deallocate(p, Block(a), n);
            && Shape(q) && q.size == p.size
            && var r := Allocate(q, bitset, m);
               r.ptr == Block(a) && r.pool.free == p.free && r.pool.index == p.index
  {
    ClassCovers(n);
    hide SizeToIndex, BucketSize, Highest, TakeAndSplit;
    var c := SizeToIndex(n);
    assert ([a] + p.free[c])[1..] == p.free[c];
  }

  // ---------------------------------------------------------------- splitting

  /** The pieces lie one behind the other from lo to hi. */
  predicate Tiled(pieces: seq<Piece>, lo: nat, hi: nat) {
    if pieces == [] then lo == hi
    else pieces[0].offset == lo && Tiled(pieces[1..], lo + BucketSize(pieces[0].index), hi)
  }

  /** The pieces of a remainder tile it exactly; in particular a small rest is always a class size. */
  lemma {:induction false} PiecesTile(offset: nat, rest: nat)
    requires rest <= LARGE_LIMIT && rest % ALIGNMENT == 0
    ensures Tiled(Pieces(offset, rest), offset, offset + rest)
    decreases rest
  {
    hide BucketSize, SizeToIndex, ILog2, Pow2;
    if rest > 0 {
      ClassCovers(rest);
      var i := SizeToIndex(rest);
      if i >= LARGE_OFFSET {
        LowerClassFits(rest);
        ClassAligned(i - 1);
        var size := BucketSize(i - 1);
        PiecesTile(offset + size, rest - size);
        assert Pieces(offset, rest)[1..] == Pieces(offset + size, rest - size);
      } else {
        SmallExact(rest);
        assert [Piece(offset, i)][1..] == [];
      }
    }
  }

  // ---------------------------------------------------------------- the object

  class RtMemoryPool {
    const bitset: bool
    const sizes: array<nat>
    const buckets: array<seq<nat>>
    const bits: array<bool>
    var index: nat
    var size: nat

    ghost predicate Valid()
      reads this, sizes, buckets, bits
    {
      && sizes.Length == BUCKETS && buckets.Length == BUCKETS && bits.Length == BUCKETS && index <= size
      && forall i | 0 <= i < BUCKETS :: sizes[i] == BucketSize(i)
    }

    ghost function Value(): (p: Pool)
      requires Valid()
      reads this, sizes, buckets, bits
      ensures Shape(p)
    {
      Pool(size, index, buckets[..], bits[..])
    }

    /** The constructor populates the table of class sizes. */
    constructor (size: nat, bitset: bool)
      ensures Valid() && fresh(sizes) && fresh(buckets) && fresh(bits)
      ensures Value() == Empty(size) && this.bitset == bitset
    {
      this.bitset, this.size, index := bitset, size, 0;
      sizes := new nat[BUCKETS];
      buckets := new seq<nat>[BUCKETS](_ => []);
      bits := new bool[BUCKETS](_ => false);
      new;
      hide ClassSize, Pow2;
      for i := 0 to BUCKETS
        invariant forall k | 0 <= k < i :: sizes[k] == BucketSize(k)
        invariant buckets[..] == seq(BUCKETS, _ => []) && bits[..] == seq(BUCKETS, _ => false)
        modifies sizes
      {
        if i >= LARGE_OFFSET {
          var pow2 := Pow2((i - LARGE_OFFSET) / 16 + SMALL_BITS);
          PowSixteenth((i - LARGE_OFFSET) / 16 + 8);
          sizes[i] := ClassSize(pow2, (i - LARGE_OFFSET) % 16);
        } else {
          sizes[i] := (i + 1) * ALIGNMENT;
        }
      }
    }

    /** push_block() with update_bitset() */
    method Push(offset: nat, i: nat)
      requires Valid() && i < BUCKETS
      modifies buckets, bits
      ensures Valid() && Value() == PushBlock(old(Value()), offset, i)
    {
      hide BucketSize;
      buckets[i] := [offset] + buckets[i];
      bits[i] := buckets[i] == [];
    }

    /** pop_block() with update_bitset() */
    method Pop(i: nat) returns (r: Option<nat>)
      requires Valid() && i < BUCKETS
      modifies buckets, bits
      ensures Valid()
      ensures old(buckets[i]) == [] ==> r == None && Value() == old(Value())
      ensures old(buckets[i]) != [] ==> r == Some(old(buckets[i])[0]) && Value() == PopBlock(old(Value()), i)
    {
      hide BucketSize;
      if buckets[i] == [] {
        return None;
      }
      r := Some(buckets[i][0]);
      buckets[i] := buckets[i][1..];
      bits[i] := buckets[i] == [];
    }

    /** The loop of split_block; its assertions hold. */
    method Split(offset: nat, rest: nat)
      requires Valid() && rest <= LARGE_LIMIT && rest % ALIGNMENT == 0
      modifies buckets, bits
      ensures Valid() && Value() == PushAll(old(Value()), Pieces(offset, rest))
    {
      hide BucketSize, SizeToIndex, PushBlock;
      var ptr, left := offset, rest;
      while left > 0
        invariant Valid() && 0 <= ptr && 0 <= left <= LARGE_LIMIT && left % ALIGNMENT == 0
        invariant PushAll(Value(), Pieces(ptr, left)) == PushAll(old(Value()), Pieces(offset, rest))
        decreases left
      {
        ClassCovers(left);
        var i := SizeToIndex(left);
        if i >= LARGE_OFFSET {
          LowerClassFits(left);
          ClassAligned(i - 1);
          i := i - 1;
          ghost var others := Pieces(ptr + BucketSize(i), left - BucketSize(i));
          assert ([Piece(ptr, i)] + others)[1..] == others;
          Push(ptr, i);
          var blockSize := sizes[i];
          assert left >= blockSize;
          ptr := ptr + blockSize;
          left := left - blockSize;
        } else {
          SmallExact(left);
          assert sizes[i] == left;
          assert [Piece(ptr, i)][1..] == [];
          Push(ptr, i);
          return;
        }
      }
      assert Pieces(ptr, 0) == [];
    }

    /** Cutting off what is not needed of a large block from class i. */
    method SplitOff(offset: nat, i: nat, start: nat)
      requires Valid() && start < i < BUCKETS
      modifies buckets, bits
      ensures Valid() && BucketSize(start) < BucketSize(i) <= LARGE_LIMIT + BucketSize(start)
      ensures Value() == if i < LARGE_OFFSET then old(Value())
                         else PushAll(old(Value()), Pieces(offset + BucketSize(start), BucketSize(i) - BucketSize(start)))
    {
      hide BucketSize, PushAll, Pieces;
      ClassOrder(start, i);
      ClassLimit(i);
      ClassAligned(start);
      ClassAligned(i);
      if i >= LARGE_OFFSET {
        Split(offset + sizes[start], sizes[i] - sizes[start]);
      }
    }

    /** find_matching_block(): the search goes down from the largest class. */
    method FindMatching(start: nat) returns (r: Option<nat>)
      requires Valid() && start < BUCKETS
      modifies buckets, bits
      ensures Valid()
      ensures var found := Highest(old(Value()), bitset, BUCKETS - 1, start);
              if found == None then r == None && Value() == old(Value())
              else r.Some? && Got(Value(), Block(r.value)) == TakeAndSplit(old(Value()), found.value, start)
    {
      hide BucketSize, PopBlock, PushAll, Pieces;
      var i := BUCKETS - 1;
      while i > start
        invariant start <= i < BUCKETS && Valid() && Value() == old(Value())
        invariant Highest(Value(), bitset, i, start) == Highest(Value(), bitset, BUCKETS - 1, start)
      {
        if !bitset || bits[i] {
          r := Pop(i);
          if r.Some? {
            SplitOff(r.value, i, start);
            return;
          }
        }
        i := i - 1;
      }
      return None;
    }

    /** concurrent_linear_allocator::allocate, uncontended */
    method Bump(n: nat) returns (r: Option<nat>)
      requires Valid()
      modifies this`index
      ensures Valid() && Value() == old(Value()).(index := if r.Some? then old(index) + n else old(index))
      ensures r == if size - old(index) >= n then Some(old(index)) else None
    {
      hide BucketSize;
      if size - index >= n {
        r := Some(index);
        index := index + n;
      } else {
        r := None;
      }
    }

    method Alloc(n: nat) returns (r: Ptr)
      requires Valid()
      modifies this`index, buckets, bits
      ensures Valid() && Got(Value(), r) == Allocate(old(Value()), bitset, n)
    {
      hide BucketSize, SizeToIndex, Highest, TakeAndSplit, PopBlock;
      if n > LARGE_LIMIT {
        return Heap;
      }
      if n == 0 {
        return Null;
      }
      ClassCovers(n);
      var start := SizeToIndex(n);
      var block := Pop(start);
      if block == None {
        block := FindMatching(start);
      }
      if block == None {
        block := Bump(sizes[start]);
      }
      r := if block == None then Heap else Block(block.value);
    }

    method Dealloc(ptr: Ptr, n: nat)
      requires Valid()
      modifies buckets, bits
      ensures Valid() && Value() == Deallocate(old(Value()), ptr, n)
    {
      hide BucketSize, SizeToIndex;
      if n > LARGE_LIMIT || n == 0 {
        return;
      }
      if ptr.Block? && ptr.offset < size {
        ClassCovers(n);
        Push(ptr.offset, SizeToIndex(n));
      }
    }
  }
}
