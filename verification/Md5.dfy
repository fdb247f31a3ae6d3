/**
 Streaming MD5 (MD5_Init, MD5_Update, MD5_Final of deps/md5/md5.c) against RFC 1321, for any
 compression function; `Md5Compression` has the one of the source.
 */
module Md5 {
  import opened Bytes
  import opened BigEndian

  const LO_LIMIT: nat := 0x2000_0000
  const HI_LIMIT: nat := 0x1_0000_0000

  // ---------------------------------------------------------------- the standard

  /** The four chaining words. */
  datatype Chain = Chain(a: nat, b: nat, c: nat, d: nat)

  type Compression = (Chain, Data) -> Chain

  /** Section 3.3 */
  function Init(): Chain { Chain(0x67452301, 0xefcdab89, 0x98badcfe, 0x10325476) }

  /** Section 3.4: the blocks one after the other. */
  function Fold(f: Compression, st: Chain, data: Data): Chain
    requires |data| % 64 == 0
    decreases |data|
  {
    if data == [] then st else Fold(f, f(st, data[..64]), data[64..])
  }

  function Zeros(n: nat): (r: Data)
    ensures |r| == n && forall i | 0 <= i < n :: r[i] == 0
  {
    seq(n, _ => 0)
  }

  /** Section 3.1: a one bit, then zeros until the length is 56 modulo 64. */
  function ZeroCount(n: nat): nat { (119 - n % 64) % 64 }

  /** Section 3.2: the length in bits modulo 2^64, low-order byte first. */
  function LengthBytes(n: nat): (r: Data)
    ensures |r| == 8
  {
    FitsLength(8 * n);
    Memory(8, 8 * n % 0x1_0000_0000_0000_0000)
  }

  lemma FitsLength(bits: nat)
    ensures Fits(8, bits % 0x1_0000_0000_0000_0000)
  {
    assert Pow256(4) == 0x1_0000_0000;
    assert Pow256(8) == 0x1_0000_0000 * Pow256(4);
  }

  lemma PaddedLength(n: nat)
    ensures (n + 9 + ZeroCount(n)) % 64 == 0
  {
    var q, r := n / 64, n % 64;
    assert n == 64 * q + r;
    assert r <= 55 ==> n + 9 + ZeroCount(n) == 64 * (q + 1);
    assert r > 55 ==> n + 9 + ZeroCount(n) == 64 * (q + 2);
  }

  function Pad(msg: Data): (r: Data)
    ensures |r| % 64 == 0 && |r| == |msg| + 9 + ZeroCount(|msg|)
  {
    PaddedLength(|msg|);
    msg + [0x80] + Zeros(ZeroCount(|msg|)) + LengthBytes(|msg|)
  }

  /** Section 3.5 */
  function WordBytes(w: nat): (r: Data)
    ensures |r| == 4
  {
    assert Pow256(4) == 0x1_0000_0000;
    Memory(4, w % 0x1_0000_0000)
  }

  function Output(st: Chain): Data { WordBytes(st.a) + WordBytes(st.b) + WordBytes(st.c) + WordBytes(st.d) }

  function Digest(f: Compression, msg: Data): Data { Output(Fold(f, Init(), Pad(msg))) }

  // ---------------------------------------------------------------- what the standard says, byte by byte

  lemma {:induction false} MemoryAt(k: nat, v: nat, i: nat)
    requires Fits(k, v) && i < k
    ensures Memory(k, v)[i] == v / Pow256(i) % 256
  {
    if i > 0 {
      MemoryAt(k - 1, v / 256, i - 1);
      Shifted(v, i - 1);
      hide Pow256;
    } else {
      assert Pow256(0) == 1;
    }
  }

  /** Words are written low-order byte first. */
  lemma WordBytesAre(w: nat)
    requires w < 0x1_0000_0000
    ensures WordBytes(w) == [w % 0x100, w / 0x100 % 0x100, w / 0x1_0000 % 0x100, w / 0x100_0000]
  {
    FourPowers();
    hide Pow256;
    assert w % 0x1_0000_0000 == w;
    MemoryAt(4, w, 0);
    MemoryAt(4, w, 1);
    MemoryAt(4, w, 2);
    MemoryAt(4, w, 3);
    hide Memory;
    TopByte(w);
  }

  lemma FourPowers()
    ensures Pow256(0) == 1 && Pow256(1) == 0x100 && Pow256(2) == 0x1_0000 && Pow256(3) == 0x100_0000 && Pow256(4) == 0x1_0000_0000
  {
    assert Pow256(2) == 256 * Pow256(1);
    assert Pow256(3) == 256 * Pow256(2);
  }

  lemma TopByte(w: nat)
    requires w < 0x1_0000_0000
    ensures w / 0x100_0000 % 256 == w / 0x100_0000
  {
  }

  /** The initial words as section 3.3 gives them, in bytes; the words of the result in their order. */
  lemma WordsOfStandard(st: Chain)
    ensures WordBytes(Init().a) == [0x01, 0x23, 0x45, 0x67] && WordBytes(Init().b) == [0x89, 0xab, 0xcd, 0xef]
    ensures WordBytes(Init().c) == [0xfe, 0xdc, 0xba, 0x98] && WordBytes(Init().d) == [0x76, 0x54, 0x32, 0x10]
    ensures var out := Output(st);
            && |out| == 16 && out[..4] == WordBytes(st.a) && out[4..8] == WordBytes(st.b)
            && out[8..12] == WordBytes(st.c) && out[12..] == WordBytes(st.d)
  {
    WordBytesAre(Init().a);
    WordBytesAre(Init().b);
    WordBytesAre(Init().c);
    WordBytesAre(Init().d);
    hide WordBytes;
  }

  /**
   Padding: the message, one byte 0x80, as few zeros as possible, and eight bytes with the length in
   bits, low-order byte first, that end on a multiple of 64 bytes.
   */
  lemma PaddingIs(msg: Data, i: nat)
    requires i < 8
    ensures var n, p := |msg|, Pad(msg);
            && |p| % 64 == 0 && n + 9 <= |p| < n + 9 + 64 && p[..n] == msg && p[n] == 0x80
            && (forall k | n < k < |p| - 8 :: p[k] == 0)
            && p[|p| - 8 + i] == 8 * n % 0x1_0000_0000_0000_0000 / Pow256(i) % 256
  {
    var n, p := |msg|, Pad(msg);
    FitsLength(8 * n);
    MemoryAt(8, 8 * n % 0x1_0000_0000_0000_0000, i);
    assert p[|p| - 8..] == LengthBytes(n);
    hide Memory, Pow256;
    assert p[|p| - 8 + i] == p[|p| - 8..][i];
  }

  // ---------------------------------------------------------------- facts about blocks

  lemma {:induction false} FoldAppend(f: Compression, st: Chain, a: Data, b: Data)
    requires |a| % 64 == 0 && |b| % 64 == 0
    ensures Fold(f, st, a + b) == Fold(f, Fold(f, st, a), b)
    decreases |a|
  {
    if a == [] {
      assert a + b == b;
    } else {
      assert (a + b)[..64] == a[..64] && (a + b)[64..] == a[64..] + b;
      FoldAppend(f, f(st, a[..64]), a[64..], b);
    }
  }

  lemma {:induction false} FoldSame(f: Compression, g: Compression, st: Chain, data: Data)
    requires |data| % 64 == 0 && forall c, block :: f(c, block) == g(c, block)
    ensures Fold(f, st, data) == Fold(g, st, data)
    decreases |data|
  {
    if data != [] {
      FoldSame(f, g, f(st, data[..64]), data[64..]);
    }
  }

  /** The byte count of a message as the context keeps it. */
  predicate Counted(n: nat, lo: nat, hi: nat) {
    lo == n % LO_LIMIT && hi == n / LO_LIMIT % HI_LIMIT
  }

  /** The counter update of MD5_Update: the carry is seen by the low part getting smaller. */
  lemma CountsOn(n: nat, size: nat, lo: nat, hi: nat)
    requires Counted(n, lo, hi)
    ensures var lo' := (lo + size) % LO_LIMIT;
            Counted(n + size, lo', ((if lo' < lo then hi + 1 else hi) % HI_LIMIT + size / LO_LIMIT) % HI_LIMIT)
  {
    var q, p, r := n / LO_LIMIT, size / LO_LIMIT, size % LO_LIMIT;
    if lo + r < LO_LIMIT {
      LowPart(q + p, lo + r);
      LowPart(p, lo + r);
      HighPart(q, p);
    } else {
      LowPart(q + p + 1, lo + r - LO_LIMIT);
      LowPart(p + 1, lo + r - LO_LIMIT);
      HighPart(q, 1);
      HighPart(q + 1, p);
    }
  }

  lemma LowPart(q: nat, r: nat)
    requires r < LO_LIMIT
    ensures (q * LO_LIMIT + r) / LO_LIMIT == q && (q * LO_LIMIT + r) % LO_LIMIT == r
  {
  }

  lemma HighPart(q: nat, p: nat)
    ensures (q % HI_LIMIT + p) % HI_LIMIT == (q + p) % HI_LIMIT
  {
  }

  /** The two words at the end of the padding are the length in bits modulo 2^64. */
  lemma CountIsLength(n: nat, lo: nat, hi: nat)
    requires Counted(n, lo, hi)
    ensures Fits(4, 8 * lo) && Fits(4, hi) && Memory(4, 8 * lo) + Memory(4, hi) == LengthBytes(n)
  {
    assert Pow256(4) == 0x1_0000_0000;
    BitCount(n, lo, hi);
    FitsLength(8 * n);
    hide Memory, Pow256;
    MemorySplit(4, 4, 8 * lo, hi);
  }

  lemma BitCount(n: nat, lo: nat, hi: nat)
    requires Counted(n, lo, hi)
    ensures 8 * n % 0x1_0000_0000_0000_0000 == 8 * lo + 0x1_0000_0000 * hi
  {
    var q := n / LO_LIMIT;
    var p := q / HI_LIMIT;
    assert n == q * LO_LIMIT + lo && q == p * HI_LIMIT + hi;
    assert 8 * n == p * 0x1_0000_0000_0000_0000 + (8 * lo + 0x1_0000_0000 * hi);
  }

  lemma {:induction false} MemorySplit(j: nat, k: nat, v: nat, w: nat)
    requires Fits(j, v) && Fits(k, w)
    ensures Fits(j + k, v + Pow256(j) * w) && Memory(j + k, v + Pow256(j) * w) == Memory(j, v) + Memory(k, w)
  {
    if j == 0 {
      assert [] + Memory(k, w) == Memory(k, w);
    } else {
      MemorySplit(j - 1, k, v / 256, w);
      var m := Pow256(j - 1) * w;
      Times256(Pow256(j - 1), w);
      assert Pow256(j) * w == 256 * m;
      var u := v + 256 * m;
      Shift256(v, m);
      hide Memory, Pow256;
      MemoryStep(j + k, u);
      MemoryStep(j, v);
      assert ([v % 256] + Memory(j - 1, v / 256)) + Memory(k, w) == [v % 256] + (Memory(j - 1, v / 256) + Memory(k, w));
    }
  }

  lemma Shift256(v: nat, m: nat)
    ensures (v + 256 * m) % 256 == v % 256 && (v + 256 * m) / 256 == v / 256 + m
  {
  }

  lemma Times256(p: nat, w: nat)
    ensures 256 * p * w == 256 * (p * w)
  {
  }

  lemma MemoryStep(k: nat, v: nat)
    requires k > 0 && Fits(k, v)
    ensures Fits(k - 1, v / 256) && Memory(k, v) == [v % 256] + Memory(k - 1, v / 256)
  {
  }

  // ---------------------------------------------------------------- the context

  function Full(n: nat): nat { n - n % 64 }

  /** The first k bytes of the message have been compressed. */
  ghost predicate Absorbed(f: Compression, st: Chain, msg: Data, k: nat) {
    k % 64 == 0 && k <= |msg| && st == Fold(f, Init(), msg[..k])
  }

  lemma AbsorbMore(f: Compression, st: Chain, msg: Data, k: nat, n: nat)
    requires Absorbed(f, st, msg, k) && n % 64 == 0 && k + n <= |msg|
    ensures Absorbed(f, Fold(f, st, msg[k..k + n]), msg, k + n)
  {
    assert msg[..k + n] == msg[..k] + msg[k..k + n];
    FoldAppend(f, Init(), msg[..k], msg[k..k + n]);
  }

  lemma AbsorbedLonger(f: Compression, st: Chain, msg: Data, data: Data, k: nat)
    requires Absorbed(f, st, msg, k)
    ensures Absorbed(f, st, msg + data, k)
  {
    assert (msg + data)[..k] == msg[..k];
  }

  lemma UsedIsRemainder(n: nat, lo: nat, hi: nat)
    requires Counted(n, lo, hi)
    ensures lo % 64 == n % 64
  {
    var q := n / LO_LIMIT;
    assert n == q * LO_LIMIT + lo;
    assert n == 64 * (q * 0x80_0000) + lo;
  }

  /** What is pending after more data has been appended. */
  lemma Suffix(was: Data, data: Data, k: nat)
    requires k == Full(|was|)
    ensures (was + data)[k..] == was[k..] + data
    ensures |was| % 64 + |data| < 64 ==> Full(|was + data|) == k && |was + data| % 64 == |was| % 64 + |data|
    ensures |was| % 64 == 0 ==> (was + data)[k..] == data
  {
    var q, r, n := |was| / 64, |was| % 64, |data|;
    assert |was| == 64 * q + r;
    if r + n < 64 {
      assert (64 * q + (r + n)) % 64 == r + n;
    }
  }

  /** Behind whole blocks the rest of the message has its own whole blocks. */
  lemma Remainder(all: Data, data: Data, k: nat)
    requires k % 64 == 0 && k <= |all| && all[k..] == data
    ensures var n := Full(|data|);
            && n % 64 == 0 && k + n == Full(|all|) && |all| % 64 == |data| - n
            && data[..n] == all[k..k + n] && data[n..] == all[k + n..]
            && (|data| < 64 ==> n == 0)
  {
    var q, p, r := k / 64, |data| / 64, |data| % 64;
    assert |all| == 64 * (q + p) + r;
    assert |all| % 64 == r;
  }

  lemma Straddle(was: Data, data: Data, k: nat)
    requires k == Full(|was|) && |was| % 64 + |data| >= 64
    ensures var n := 64 - |was| % 64;
            && k + 64 <= |was + data| && (was + data)[k..k + 64] == was[k..] + data[..n]
            && (was + data)[k + 64..] == data[n..]
  {
  }

  function PadTail(msg: Data): Data { [0x80] + Zeros(ZeroCount(|msg|)) + LengthBytes(|msg|) }

  lemma PadIsTail(msg: Data)
    ensures Pad(msg) == msg + PadTail(msg)
  {
    hide LengthBytes, Zeros, ZeroCount;
  }

  /** A short rest: one more block. */
  lemma PadOneBlock(msg: Data)
    requires |msg| % 64 <= 55
    ensures var k, r := Full(|msg|), |msg| % 64;
            && |Pad(msg)| == k + 64
            && Pad(msg)[k..k + 64] == (msg[k..] + [0x80]) + Zeros(55 - r) + LengthBytes(|msg|)
  {
    hide LengthBytes;
  }

  /** A long rest: the length does not fit behind it. */
  lemma PadTwoBlocks(msg: Data)
    requires |msg| % 64 > 55
    ensures var k, r := Full(|msg|), |msg| % 64;
            && |Pad(msg)| == k + 128
            && Pad(msg)[k..k + 64] == (msg[k..] + [0x80]) + Zeros(63 - r)
            && Pad(msg)[k + 64..k + 128] == [] + Zeros(56) + LengthBytes(|msg|)
  {
    hide LengthBytes;
  }

  lemma Completed(f: Compression, st: Chain, msg: Data)
    requires Absorbed(f, st, Pad(msg), |Pad(msg)|)
    ensures Output(st) == Digest(f, msg)
  {
    assert Pad(msg)[..|Pad(msg)|] == Pad(msg);
  }

  class Context {
    const f: Compression
    var st: Chain
    var lo: nat
    var hi: nat
    const buffer: array<byte>
    ghost var msg: Data

    /** Whole blocks are compressed, the rest waits in the buffer. */
    ghost predicate Valid()
      reads this, buffer
    {
      && buffer.Length == 64 && Counted(|msg|, lo, hi)
      && Absorbed(f, st, msg, Full(|msg|))
      && buffer[..|msg| % 64] == msg[Full(|msg|)..]
    }

    /** MD5_Init */
    constructor (f: Compression)
      ensures Valid() && msg == [] && this.f == f && fresh(buffer)
    {
      this.f := f;
      st, lo, hi := Init(), 0, 0;
      buffer := new byte[64](_ => 0);
      msg := [];
    }

    /** body(): one or more blocks */
    method Body(data: Data)
      requires |data| > 0 && |data| % 64 == 0
      modifies this`st
      ensures st == Fold(f, old(st), data)
    {
      var ptr := 0;
      while ptr < |data|
        invariant 0 <= ptr <= |data| && ptr % 64 == 0
        invariant Fold(f, st, data[ptr..]) == Fold(f, old(st), data)
        decreases |data| - ptr
      {
        assert data[ptr..][..64] == data[ptr..ptr + 64] && data[ptr..][64..] == data[ptr + 64..];
        st := f(st, data[ptr..ptr + 64]);
        ptr := ptr + 64;
      }
    }

    /** memcpy into the buffer */
    method Fill(at: nat, data: Data)
      requires buffer.Length == 64 && at + |data| <= 64
      modifies buffer
      ensures buffer[..at] == old(buffer[..at]) && buffer[at..at + |data|] == data
    {
      for i := 0 to |data|
        invariant buffer[..at] == old(buffer[..at]) && buffer[at..at + i] == data[..i]
      {
        buffer[at + i] := data[i];
      }
    }

    /** The counter part of MD5_Update; unsigned arithmetic wraps around. */
    method Count(size: nat)
      requires Counted(|msg|, lo, hi)
      modifies this`lo, this`hi
      ensures Counted(|msg| + size, lo, hi)
    {
      CountsOn(|msg|, size, lo, hi);
      var saved := lo;
      lo := (saved + size) % LO_LIMIT;
      if lo < saved {
        hi := (hi + 1) % HI_LIMIT;
      }
      hi := (hi + size / LO_LIMIT) % HI_LIMIT;
    }

    /** The tail of MD5_Update: whole blocks straight from the input, the rest into the buffer. */
    method Absorb(data: Data, ghost all: Data, ghost k: nat)
      requires buffer.Length == 64 && Absorbed(f, st, all, k) && all[k..] == data
      modifies this`st, buffer
      ensures Absorbed(f, st, all, Full(|all|)) && buffer[..|all| % 64] == all[Full(|all|)..]
    {
      Remainder(all, data, k);
      ghost var n := Full(|data|);
      AbsorbMore(f, st, all, k, n);
      hide Absorbed;
      var rest := data;
      if |data| >= 64 {
        Body(data[..|data| - |data| % 64]);
        rest := data[|data| - |data| % 64..];
      } else {
        assert Fold(f, st, data[..n]) == st;
      }
      hide Fold;
      Fill(0, rest);
      assert buffer[..|rest|] == buffer[0..|rest|];
    }

    /** The buffer takes data behind the `used` bytes it has. */
    method Append(used: nat, data: Data, ghost pending: Data)
      requires buffer.Length == 64 && used + |data| <= 64 && buffer[..used] == pending
      modifies buffer
      ensures buffer[..used + |data|] == pending + data
    {
      Fill(used, data);
      assert buffer[..used + |data|] == buffer[..used] + buffer[used..used + |data|];
    }

    /** The buffer is completed and compressed. */
    method FlushBuffer(used: nat, data: Data, ghost all: Data, ghost k: nat)
      requires buffer.Length == 64 && used + |data| == 64 && k + 64 <= |all|
      requires Absorbed(f, st, all, k) && buffer[..used] + data == all[k..k + 64]
      modifies this`st, buffer
      ensures Absorbed(f, st, all, k + 64)
    {
      Append(used, data, buffer[..used]);
      assert buffer[..] == buffer[..64];
      AbsorbMore(f, st, all, k, 64);
      Body(buffer[..]);
    }

    method Update(data: Data)
      requires Valid()
      modifies this, buffer
      ensures Valid() && msg == old(msg) + data
    {
      UsedIsRemainder(|msg|, lo, hi);
      var used := lo % 64;
      Count(|data|);
      ghost var was, k := msg, Full(|msg|);
      AbsorbedLonger(f, st, was, data, k);
      hide Absorbed, Counted;
      msg := was + data;
      Suffix(was, data, k);
      if used == 0 {
        Absorb(data, msg, k);
      } else if |data| < 64 - used {
        Append(used, data, was[k..]);
      } else {
        Straddle(was, data, k);
        FlushBuffer(used, data[..64 - used], msg, k);
        Absorb(data[64 - used..], msg, k + 64);
      }
    }

    /** The length words and the last block. */
    method Finish(used: nat, ghost front: Data)
      requires buffer.Length == 64 && used <= 56 && buffer[..used] == front && Counted(|msg|, lo, hi)
      modifies this`st, buffer
      ensures |front + Zeros(56 - used) + LengthBytes(|msg|)| == 64
      ensures st == Fold(f, old(st), front + Zeros(56 - used) + LengthBytes(|msg|))
    {
      CountIsLength(|msg|, lo, hi);
      hide Memory, Fits, Fold;
      Append(used, Zeros(56 - used), front);
      ghost var block := front + Zeros(56 - used);
      Append(56, Memory(4, 8 * lo), block);
      Append(60, Memory(4, hi), block + Memory(4, 8 * lo));
      assert (block + Memory(4, 8 * lo)) + Memory(4, hi) == block + (Memory(4, 8 * lo) + Memory(4, hi));
      assert buffer[..] == buffer[..64];
      Body(buffer[..]);
    }

    /** MD5_Final */
    method Final() returns (digest: Data)
      requires Valid()
      modifies this`st, buffer
      ensures digest == Digest(f, msg)
    {
      UsedIsRemainder(|msg|, lo, hi);
      var used := lo % 64;
      ghost var k, pending := Full(|msg|), msg[Full(|msg|)..];
      PadIsTail(msg);
      AbsorbedLonger(f, st, msg, PadTail(msg), k);
      Append(used, [0x80], pending);
      used := used + 1;
      hide Absorbed, Counted, Fold;
      if 64 - used < 8 {
        PadTwoBlocks(msg);
        FlushBuffer(used, Zeros(64 - used), Pad(msg), k);
        AbsorbMore(f, st, Pad(msg), k + 64, 64);
        Finish(0, []);
      } else {
        PadOneBlock(msg);
        AbsorbMore(f, st, Pad(msg), k, 64);
        Finish(used, pending + [0x80]);
      }
      Completed(f, st, msg);
      digest := Output(st);
    }
  }

  /** For every split of a message into updates, the digest is that of the whole message. */
  method HashAll(f: Compression, parts: seq<Data>) returns (digest: Data)
    ensures digest == Digest(f, Concat(parts))
  {
    hide Digest, Concat, Context.Valid;
    ConcatNone();
    assert parts[..0] == [];
    var context := new Context(f);
    for i := 0 to |parts|
      invariant context.Valid() && context.f == f && context.msg == Concat(parts[..i])
      invariant fresh(context) && fresh(context.buffer)
    {
      ConcatStep(parts, i);
      context.Update(parts[i]);
    }
    assert parts[..|parts|] == parts;
    digest := context.Final();
  }
}
