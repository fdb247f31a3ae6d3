/**
 Resending: the sink asks for the frames it misses by offset and bitset (aoo/src/sink.cpp,
 check_missing_blocks), the source cuts them out of its history again (aoo/src/source.cpp,
 resend_data), and the sink sorts them in like any other packet.
 */
module Resend {
  import opened Wrappers
  import opened Arithmetic
  import opened Bytes
  import opened Fragments
  import opened JitterBuffer
  import opened Receive

  /** Number of frames that one request covers. */
  const WIDTH: nat := 16

  /** A request for a whole block has a negative offset. Bit i of the bitset has weight 2^i. */
  datatype Request = Request(sequence: int, offset: int, bitset: nat)

  // ---------------------------------------------------------------- requests

  /** The frames from `offset + i` to the end of the window that are not held, bit 0 standing for `offset + i`. */
  function Bits(held: set<nat>, n: nat, offset: nat, i: nat): nat
    requires i <= WIDTH
    decreases WIDTH - i
  {
    if i == WIDTH || offset + i >= n then 0
    else (if offset + i in held then 0 else 1) + 2 * Bits(held, n, offset, i + 1)
  }

  /** The requests for one window. */
  function Window(sequence: int, held: set<nat>, n: nat, offset: nat): seq<Request> {
    var bits := Bits(held, n, offset, 0);
    if bits != 0 then [Request(sequence, offset, bits)] else []
  }

  /** The requests for an incompletely received block. */
  function Partial(sequence: int, held: set<nat>, n: nat, offset: nat): seq<Request>
    decreases n - offset
  {
    if offset >= n then [] else Window(sequence, held, n, offset) + Partial(sequence, held, n, offset + WIDTH)
  }

  function Requests(b: Block): seq<Request> {
    if b.Complete() then []
    else if b.received > 0 then Partial(b.sequence, b.frames.Keys, b.numFrames, 0)
    else [Request(b.sequence, -1, 0)]
  }

  /** The inner loop: the bits are set one by one from the low end. */
  method FillBitset(held: set<nat>, n: nat, offset: nat) returns (bitset: nat)
    ensures bitset == Bits(held, n, offset, 0)
  {
    hide Bits;
    bitset := 0;
    var i, weight := 0, 1;
    while i < WIDTH
      invariant i <= WIDTH && weight > 0
      invariant Bits(held, n, offset, 0) == bitset + weight * Bits(held, n, offset, i)
    {
      BitsStep(held, n, offset, i);
      if offset + i >= n {
        break;
      }
      Distribute(weight, if offset + i in held then 0 else 1, Bits(held, n, offset, i + 1));
      if offset + i !in held {
        bitset := bitset + weight;
      }
      weight := 2 * weight;
      i := i + 1;
    }
    BitsEnd(held, n, offset);
  }

  lemma BitsStep(held: set<nat>, n: nat, offset: nat, i: nat)
    requires i < WIDTH
    ensures Bits(held, n, offset, i) ==
            if offset + i >= n then 0 else (if offset + i in held then 0 else 1) + 2 * Bits(held, n, offset, i + 1)
  {
  }

  lemma BitsEnd(held: set<nat>, n: nat, offset: nat)
    ensures Bits(held, n, offset, WIDTH) == 0
  {
  }

  lemma Distribute(weight: nat, bit: nat, rest: nat)
    ensures weight * (bit + 2 * rest) == weight * bit + (2 * weight) * rest
  {
  }

  lemma Regroup(a: seq<Request>, b: seq<Request>, c: seq<Request>)
    ensures a + (b + c) == (a + b) + c && a + [] == a
  {
  }

  lemma PartialStep(sequence: int, held: set<nat>, n: nat, offset: nat)
    ensures Partial(sequence, held, n, offset) ==
            if offset >= n then [] else Window(sequence, held, n, offset) + Partial(sequence, held, n, offset + WIDTH)
  {
  }

  /** The loop over the windows of an incomplete block. */
  method RequestFrames(sequence: int, held: set<nat>, n: nat) returns (out: seq<Request>)
    ensures out == Partial(sequence, held, n, 0)
  {
    hide Partial, Bits;
    out := [];
    var offset := 0;
    ghost var all := Partial(sequence, held, n, 0);
    while offset < n
      invariant all == out + Partial(sequence, held, n, offset)
      decreases n - offset
    {
      PartialStep(sequence, held, n, offset);
      Regroup(out, Window(sequence, held, n, offset), Partial(sequence, held, n, offset + WIDTH));
      var bitset := FillBitset(held, n, offset);
      if bitset != 0 {
        out := out + [Request(sequence, offset, bitset)];
      }
      offset := offset + WIDTH;
    }
    PartialStep(sequence, held, n, offset);
    Regroup(out, [], []);
  }

  /** The part of check_missing_blocks for one block. */
  method RequestMissing(b: Block) returns (out: seq<Request>)
    ensures out == Requests(b)
  {
    if b.Complete() {
      out := [];
    } else if b.received > 0 {
      out := RequestFrames(b.sequence, b.frames.Keys, b.numFrames);
    } else {
      out := [Request(b.sequence, -1, 0)];
    }
  }

  // ---------------------------------------------------------------- replies

  /** The indices that a bitset selects, as the source shifts it out. */
  function Selected(bitset: nat, index: nat, n: nat): (r: seq<nat>)
    ensures forall k | 0 <= k < |r| :: index <= r[k] < n
    decreases bitset
  {
    if bitset == 0 then []
    else (if bitset % 2 == 1 && index < n then [index] else []) + Selected(bitset / 2, index + 1, n)
  }

  function UpTo(index: nat, n: nat): (r: seq<nat>)
    requires index <= n
    ensures |r| == n - index && forall k | 0 <= k < |r| :: r[k] == index + k
    decreases n - index
  {
    if index == n then [] else [index] + UpTo(index + 1, n)
  }

  lemma Joined(done: seq<nat>, index: nat, rest: seq<nat>)
    ensures done + ([index] + rest) == (done + [index]) + rest
  {
  }

  lemma UpToStep(i: nat, n: nat, done: seq<nat>)
    requires i < n
    ensures done + UpTo(i, n) == (done + [i]) + UpTo(i + 1, n)
  {
  }

  /** The frames a request asks for, in the order in which they are sent. */
  function Asked(r: Request, n: nat): (s: seq<nat>)
    ensures forall k | 0 <= k < |s| :: s[k] < n
  {
    if r.offset < 0 then UpTo(0, n) else Selected(r.bitset, r.offset, n)
  }

  function Reply(b: Sent, r: Request): seq<Frame>
    requires WellCut(b)
  {
    if b.numFrames == 0 then [Frame(0, [])] else Cut(b, Asked(r, b.numFrames))
  }

  function Cut(b: Sent, indices: seq<nat>): (r: seq<Frame>)
    requires WellCut(b) && forall k | 0 <= k < |indices| :: indices[k] < b.numFrames
    ensures |r| == |indices|
    ensures forall k | 0 <= k < |r| :: r[k] == Frame(indices[k], GetFrame(b, indices[k], |b.data|))
  {
    if indices == [] then [] else [Frame(indices[0], GetFrame(b, indices[0], |b.data|))] + Cut(b, indices[1..])
  }

  /** Where a frame has been copied to. */
  datatype Piece = Piece(index: nat, size: nat, onset: nat)

  /** The first `offset` bytes of the buffer hold the frames in `done`. */
  ghost predicate Packed(buf: Data, offset: nat, pieces: seq<Piece>, b: Sent, done: seq<nat>)
    requires WellCut(b)
  {
    && offset <= |buf| && |pieces| == |done|
    && forall k | 0 <= k < |done| ::
         && done[k] < b.numFrames && pieces[k].index == done[k] && pieces[k].onset + pieces[k].size <= offset
         && buf[pieces[k].onset..pieces[k].onset + pieces[k].size] == Chunk(b, done[k])
  }

  ghost function Chunk(b: Sent, index: nat): Data
    requires WellCut(b) && index < b.numFrames
  {
    GetFrame(b, index, |b.data|)
  }

  /** Frames before the index fit in front of its position, so the frame fits into what is left. */
  lemma FrameFits(b: Sent, index: nat, offset: nat)
    requires WellCut(b) && index < b.numFrames && offset <= index * b.frameSize
    ensures offset + |Chunk(b, index)| <= |b.data| && Chunk(b, index) != []
    ensures GetFrame(b, index, |b.data| - offset) == Chunk(b, index)
    ensures offset + |Chunk(b, index)| <= (index + 1) * b.frameSize
  {
    ChunkCount(b.data, b.frameSize);
    ChunkAt(b.data, b.frameSize, index);
    hide Chunks;
    assert (index + 1) * b.frameSize == index * b.frameSize + b.frameSize;
  }

  /** copy_frame: frames go into the send buffer one behind the other. */
  method CopyFrame(b: Sent, index: nat, buf: array<byte>, offset: nat, pieces: seq<Piece>, ghost done: seq<nat>)
    returns (offset': nat, pieces': seq<Piece>)
    requires WellCut(b) && index < b.numFrames && buf.Length == |b.data| && offset <= index * b.frameSize
    requires Packed(buf[..], offset, pieces, b, done)
    modifies buf
    ensures Packed(buf[..], offset', pieces', b, done + [index])
    ensures offset' <= (index + 1) * b.frameSize
  {
    FrameFits(b, index, offset);
    var frame := GetFrame(b, index, buf.Length - offset);
    hide GetFrame, NumFrames;
    if |frame| > 0 {
      for i := 0 to |frame|
        invariant buf[..offset] == old(buf[..offset])
        invariant buf[offset..offset + i] == frame[..i]
      {
        buf[offset + i] := frame[i];
      }
      offset' := offset + |frame|;
      pieces' := pieces + [Piece(index, |frame|, offset)];
      PackedStep(old(buf[..]), buf[..], offset, pieces, b, done, index);
    } else {
      offset', pieces' := offset, pieces;
    }
  }

  lemma PackedStep(was: Data, buf: Data, offset: nat, pieces: seq<Piece>, b: Sent, done: seq<nat>, index: nat)
    requires WellCut(b) && index < b.numFrames && Packed(was, offset, pieces, b, done)
    requires |buf| == |was| && offset + |Chunk(b, index)| <= |buf|
    requires buf[..offset] == was[..offset] && buf[offset..offset + |Chunk(b, index)|] == Chunk(b, index)
    ensures var n := |Chunk(b, index)|;
            Packed(buf, offset + n, pieces + [Piece(index, n, offset)], b, done + [index])
  {
    hide Chunk, NumFrames;
    forall k | 0 <= k < |done| ensures buf[pieces[k].onset..pieces[k].onset + pieces[k].size] == Chunk(b, done[k]) {
      var lo, hi := pieces[k].onset, pieces[k].onset + pieces[k].size;
      SliceOfFront(buf, offset, lo, hi);
      SliceOfFront(was, offset, lo, hi);
    }
  }

  lemma SliceOfFront(s: Data, n: nat, lo: nat, hi: nat)
    requires lo <= hi <= n <= |s|
    ensures s[lo..hi] == s[..n][lo..hi]
  {
  }

  /** Reading the copied frames back out of the buffer. */
  method SendPieces(buf: array<byte>, ghost offset: nat, pieces: seq<Piece>, ghost b: Sent, ghost done: seq<nat>)
    returns (out: seq<Frame>)
    requires WellCut(b) && Packed(buf[..], offset, pieces, b, done)
    ensures out == Cut(b, done)
  {
    hide NumFrames, GetFrame;
    out := [];
    for i := 0 to |pieces|
      invariant |out| == i && forall k | 0 <= k < i :: out[k] == Frame(done[k], Chunk(b, done[k]))
    {
      var p := pieces[i];
      assert buf[..][p.onset..p.onset + p.size] == Chunk(b, done[i]);
      out := out + [Frame(p.index, buf[p.onset..p.onset + p.size])];
    }
  }

  /** Whole block: all frames in order. */
  method CopyAll(b: Sent, buf: array<byte>) returns (offset: nat, pieces: seq<Piece>)
    requires WellCut(b) && buf.Length == |b.data|
    modifies buf
    ensures Packed(buf[..], offset, pieces, b, UpTo(0, b.numFrames))
  {
    hide GetFrame, NumFrames;
    offset, pieces := 0, [];
    var i := 0;
    ghost var done: seq<nat> := [];
    while i < b.numFrames
      invariant i <= b.numFrames && offset <= i * b.frameSize && done + UpTo(i, b.numFrames) == UpTo(0, b.numFrames)
      invariant Packed(buf[..], offset, pieces, b, done)
    {
      offset, pieces := CopyFrame(b, i, buf, offset, pieces, done);
      UpToStep(i, b.numFrames, done);
      done := done + [i];
      i := i + 1;
    }
    assert done + [] == done;
  }

  /** Only the frames whose bits are set. */
  method CopySelected(b: Sent, r: Request, buf: array<byte>) returns (offset: nat, pieces: seq<Piece>)
    requires WellCut(b) && buf.Length == |b.data| && r.offset >= 0
    modifies buf
    ensures Packed(buf[..], offset, pieces, b, Selected(r.bitset, r.offset, b.numFrames))
  {
    hide GetFrame, NumFrames;
    offset, pieces := 0, [];
    var bitset, index := r.bitset, r.offset;
    ghost var done: seq<nat> := [];
    while bitset != 0
      invariant 0 <= index && offset <= index * b.frameSize
      invariant done + Selected(bitset, index, b.numFrames) == Selected(r.bitset, r.offset, b.numFrames)
      invariant Packed(buf[..], offset, pieces, b, done)
      decreases bitset
    {
      ghost var rest := Selected(bitset / 2, index + 1, b.numFrames);
      MulMonotone(index, index + 1, b.frameSize);
      if bitset % 2 == 1 && index < b.numFrames {
        offset, pieces := CopyFrame(b, index, buf, offset, pieces, done);
        Joined(done, index, rest);
        done := done + [index];
      } else {
        assert [] + rest == rest;
      }
      bitset := bitset / 2;
      index := index + 1;
    }
    assert done + [] == done;
  }

  // ---------------------------------------------------------------- what a reply has to be

  /** The request asks for frame k of n: for all of them, or by the bit of weight 2^(k - offset). */
  ghost predicate Wanted(r: Request, n: nat, k: int) {
    0 <= k < n && (r.offset < 0 || (r.offset <= k && r.bitset / Pow2(k - r.offset) % 2 == 1))
  }

  /** The k-th piece of a block: bytes k * frameSize and on, the last piece being shorter. */
  ghost predicate IsPiece(b: Sent, k: nat, data: Data) {
    var lo, hi := k * b.frameSize, (k + 1) * b.frameSize;
    0 <= lo < |b.data| && lo <= hi && data == if hi <= |b.data| then b.data[lo..hi] else b.data[lo..]
  }

  /** Each frame that is asked for, once and in order, and nothing else; one empty frame for an empty block. */
  ghost predicate Answers(out: seq<Frame>, b: Sent, r: Request) {
    if b.numFrames == 0 then out == [Frame(0, [])]
    else
      && (forall c | 0 <= c < |out| :: Wanted(r, b.numFrames, out[c].index) && IsPiece(b, out[c].index, out[c].data))
      && (forall c, d | 0 <= c < d < |out| :: out[c].index < out[d].index)
      && (forall k | Wanted(r, b.numFrames, k) :: exists c :: 0 <= c < |out| && out[c].index == k)
  }

  lemma {:induction false} SelectedIs(bitset: nat, index: nat, n: nat, k: nat)
    ensures k in Selected(bitset, index, n) <==> index <= k < n && bitset / Pow2(k - index) % 2 == 1
    decreases bitset
  {
    if bitset == 0 {
    } else if k > index {
      SelectedIs(bitset / 2, index + 1, n, k);
      Halved(bitset, k - index - 1);
      assert k in Selected(bitset, index, n) <==> k in Selected(bitset / 2, index + 1, n);
    } else if k == index {
      assert Pow2(0) == 1;
    }
  }

  /** Dividing by two once more. */
  lemma Halved(bitset: nat, j: nat)
    ensures bitset / 2 / Pow2(j) == bitset / Pow2(j + 1)
  {
    var p := Pow2(j);
    assert Pow2(j + 1) == 2 * p && p > 0;
    var q := bitset / 2 / p;
    assert bitset / 2 == q * p + bitset / 2 % p;
    var rest := 2 * (bitset / 2 % p) + bitset % 2;
    assert bitset == q * (2 * p) + rest && 0 <= rest < 2 * p;
    DivUnique(bitset, 2 * p, q);
  }

  lemma {:induction false} SelectedRises(bitset: nat, index: nat, n: nat)
    ensures forall c, d | 0 <= c < d < |Selected(bitset, index, n)| :: Selected(bitset, index, n)[c] < Selected(bitset, index, n)[d]
    decreases bitset
  {
    if bitset != 0 {
      SelectedRises(bitset / 2, index + 1, n);
    }
  }

  lemma AskedIs(r: Request, n: nat, k: nat)
    ensures k in Asked(r, n) <==> Wanted(r, n, k)
  {
    if r.offset < 0 {
      assert k < n ==> Asked(r, n)[k] == k;
    } else {
      SelectedIs(r.bitset, r.offset, n, k);
    }
  }

  lemma AskedRises(r: Request, n: nat)
    ensures forall c, d | 0 <= c < d < |Asked(r, n)| :: Asked(r, n)[c] < Asked(r, n)[d]
  {
    if r.offset >= 0 {
      SelectedRises(r.bitset, r.offset, n);
    }
  }

  lemma ChunkIsPiece(b: Sent, k: nat)
    requires WellCut(b) && k < b.numFrames
    ensures IsPiece(b, k, Chunk(b, k))
  {
    ChunkCount(b.data, b.frameSize);
    ChunkAt(b.data, b.frameSize, k);
    hide Chunks;
  }

  lemma ReplyAnswers(b: Sent, r: Request)
    requires WellCut(b)
    ensures Answers(Reply(b, r), b, r)
  {
    if b.numFrames > 0 {
      var out, asked := Reply(b, r), Asked(r, b.numFrames);
      AskedRises(r, b.numFrames);
      forall c | 0 <= c < |out| ensures Wanted(r, b.numFrames, out[c].index) && IsPiece(b, out[c].index, out[c].data) {
        AskedIs(r, b.numFrames, asked[c]);
        ChunkIsPiece(b, asked[c]);
      }
      hide Asked, Wanted, IsPiece, Chunk, NumFrames, GetFrame;
      forall k | Wanted(r, b.numFrames, k) ensures exists c :: 0 <= c < |out| && out[c].index == k {
        var c := AskedSomewhere(r, b.numFrames, k);
        assert out[c].index == k;
      }
    }
  }

  lemma AskedSomewhere(r: Request, n: nat, k: int) returns (c: nat)
    requires Wanted(r, n, k)
    ensures c < |Asked(r, n)| && Asked(r, n)[c] == k
  {
    AskedIs(r, n, k);
    hide Asked, Wanted;
    c :| 0 <= c < |Asked(r, n)| && Asked(r, n)[c] == k;
  }

  /** The reply of resend_data to one request for a block that is still in the history. */
  method ResendBlock(b: Sent, r: Request) returns (out: seq<Frame>)
    requires WellCut(b)
    ensures Answers(out, b, r)
    ensures out == Reply(b, r)
  {
    ReplyAnswers(b, r);
    hide Answers;
    if b.numFrames == 0 {
      return [Frame(0, [])];
    }
    var buf := new byte[|b.data|](_ => 0);
    var offset, pieces;
    if r.offset < 0 {
      offset, pieces := CopyAll(b, buf);
    } else {
      offset, pieces := CopySelected(b, r, buf);
    }
    out := SendPieces(buf, offset, pieces, b, Asked(r, b.numFrames));
  }

  /** The lookup in the history and the reply: a block that is found is cut as asked. */
  method ServeRequest(history: History, r: Request) returns (out: Option<seq<Frame>>)
    requires history.Valid() && forall b | b in history.Held() :: WellCut(b)
    ensures out.Some? ==> exists b | b in history.Held() :: b.sequence == r.sequence && Answers(out.value, b, r)
    ensures Successive(history.Held()) && !Wraps(history.Held()) ==>
              forall b | b in history.Held() && b.sequence == r.sequence :: out.Some? && Answers(out.value, b, r)
  {
    hide Reply, Answers, WellCut, Successive, Wraps, Increasing, Lookup;
    var found := history.Find(r.sequence);
    if found.None? {
      return None;
    }
    var reply := ResendBlock(found.value, r);
    return Some(reply);
  }

  // ---------------------------------------------------------------- requests meet replies

  ghost predicate Missing(held: set<nat>, n: nat, k: nat) { k < n && k !in held }

  /** A bitset selects exactly the missing frames of its window. */
  lemma {:induction false} BitsSelect(held: set<nat>, n: nat, offset: nat, i: nat, k: nat)
    requires i <= WIDTH
    ensures k in Selected(Bits(held, n, offset, i), offset + i, n)
            <==> offset + i <= k < offset + WIDTH && Missing(held, n, k)
    decreases WIDTH - i
  {
    var bits := Bits(held, n, offset, i);
    if i < WIDTH && offset + i < n {
      BitsSelect(held, n, offset, i + 1, k);
      var rest := Bits(held, n, offset, i + 1);
      if bits != 0 {
        assert bits / 2 == rest;
      } else {
        assert Selected(rest, offset + i + 1, n) == [];
      }
    }
  }

  ghost predicate AskedBy(rs: seq<Request>, n: nat, k: nat) {
    exists i | 0 <= i < |rs| :: k in Asked(rs[i], n)
  }

  lemma AskedByAppend(a: seq<Request>, b: seq<Request>, n: nat, k: nat)
    ensures AskedBy(a + b, n, k) <==> AskedBy(a, n, k) || AskedBy(b, n, k)
  {
    hide Asked;
    if AskedBy(a, n, k) {
      var i :| 0 <= i < |a| && k in Asked(a[i], n);
      assert (a + b)[i] == a[i];
    }
    if AskedBy(b, n, k) {
      var i :| 0 <= i < |b| && k in Asked(b[i], n);
      assert (a + b)[|a| + i] == b[i];
    }
  }

  lemma AskedByOne(r: Request, n: nat, k: nat)
    ensures AskedBy([r], n, k) <==> k in Asked(r, n)
    ensures !AskedBy([], n, k)
  {
    assert [r][0] == r;
  }

  ghost predicate WellFormed(rs: seq<Request>, sequence: int) {
    forall i | 0 <= i < |rs| :: rs[i].sequence == sequence && 0 <= rs[i].offset && rs[i].bitset < 0x1_0000
  }

  lemma WellFormedAppend(a: seq<Request>, b: seq<Request>, sequence: int)
    requires WellFormed(a, sequence) && WellFormed(b, sequence)
    ensures WellFormed(a + b, sequence)
  {
  }

  /** All requests together ask for exactly the missing frames from `offset` on. */
  lemma {:induction false} PartialAsksExactly(sequence: int, held: set<nat>, n: nat, offset: nat, k: nat)
    ensures AskedBy(Partial(sequence, held, n, offset), n, k) <==> offset <= k && Missing(held, n, k)
    ensures WellFormed(Partial(sequence, held, n, offset), sequence)
    decreases n - offset
  {
    if offset < n {
      PartialAsksExactly(sequence, held, n, offset + WIDTH, k);
      var rest := Partial(sequence, held, n, offset + WIDTH);
      WindowAsksExactly(sequence, held, n, offset, k);
      WindowWellFormed(sequence, held, n, offset);
      var first := Window(sequence, held, n, offset);
      AskedByAppend(first, rest, n, k);
      hide Window, AskedBy, Partial, WellFormed;
      PartialStep(sequence, held, n, offset);
      assert Partial(sequence, held, n, offset) == first + rest;
      WellFormedAppend(first, rest, sequence);
    }
  }

  lemma WindowAsksExactly(sequence: int, held: set<nat>, n: nat, offset: nat, k: nat)
    ensures AskedBy(Window(sequence, held, n, offset), n, k) <==> offset <= k < offset + WIDTH && Missing(held, n, k)
  {
    var bits := Bits(held, n, offset, 0);
    assert k in Selected(bits, offset, n) <==> offset <= k < offset + WIDTH && Missing(held, n, k) by {
      BitsSelect(held, n, offset, 0, k);
    }
    OneWindow(sequence, offset, bits, n, k);
    hide Bits, Selected, AskedBy, Missing;
  }

  lemma WindowWellFormed(sequence: int, held: set<nat>, n: nat, offset: nat)
    ensures WellFormed(Window(sequence, held, n, offset), sequence)
  {
    BitsBound(held, n, offset, 0);
    Pow2Width();
    hide Bits, Pow2;
  }

  lemma OneWindow(sequence: int, offset: nat, bits: nat, n: nat, k: nat)
    ensures AskedBy(if bits != 0 then [Request(sequence, offset, bits)] else [], n, k) <==> k in Selected(bits, offset, n)
  {
    SelectedNone(offset, n);
    hide Selected, AskedBy;
    AskedByOne(Request(sequence, offset, bits), n, k);
  }

  lemma SelectedNone(index: nat, n: nat)
    ensures Selected(0, index, n) == []
  {
  }

  lemma {:induction false} BitsBound(held: set<nat>, n: nat, offset: nat, i: nat)
    requires i <= WIDTH
    ensures Bits(held, n, offset, i) < Pow2(WIDTH - i)
    decreases WIDTH - i
  {
    if i < WIDTH {
      BitsBound(held, n, offset, i + 1);
    }
  }

  lemma Pow2Width()
    ensures Pow2(WIDTH) == 0x1_0000
  {
    assert Pow2(4) == 16;
    assert Pow2(8) == 256;
    assert Pow2(12) == 4096;
  }

  /**
   The requests for a block decode at the source to exactly the missing frames, or to every
   frame if nothing of the block has arrived.
   */
  lemma RequestsAskExactly(b: Block, n: nat, k: nat)
    requires BlockOk(b, n) && !b.Complete()
    ensures AskedBy(Requests(b), n, k) <==> Missing(b.frames.Keys, n, k)
    ensures forall i | 0 <= i < |Requests(b)| :: Requests(b)[i].sequence == b.sequence
  {
    if b.received > 0 {
      PartialAsksExactly(b.sequence, b.frames.Keys, b.numFrames, 0, k);
    } else {
      var r := Request(b.sequence, -1, 0);
      assert Requests(b) == [r];
      assert k < n ==> Asked(r, n)[k] == k;
      assert |b.frames.Keys| == 0;
      assert b.frames.Keys == {};
      AskedByOne(r, n, k);
    }
  }

  /** Every request of a window is for frames of that window. */
  lemma WantedInWindow(r: Request, n: nat, k: int)
    requires 0 <= r.offset && r.bitset < 0x1_0000
    ensures Wanted(r, n, k) ==> r.offset <= k < r.offset + WIDTH
  {
    if k - r.offset >= WIDTH {
      Pow2Width();
      Pow2Monotone(WIDTH, k - r.offset);
      hide Pow2;
      DivUnique(r.bitset, Pow2(k - r.offset), 0);
    }
  }

  ghost predicate WindowsApart(rs: seq<Request>, offset: nat) {
    && (forall i | 0 <= i < |rs| :: offset <= rs[i].offset)
    && forall i, j | 0 <= i < j < |rs| :: rs[i].offset + WIDTH <= rs[j].offset
  }

  lemma {:induction false} PartialApart(sequence: int, held: set<nat>, n: nat, offset: nat)
    ensures WindowsApart(Partial(sequence, held, n, offset), offset)
    decreases n - offset
  {
    if offset < n {
      PartialApart(sequence, held, n, offset + WIDTH);
      hide Bits;
    }
  }

  /** The frames that are requested are the missing ones. */
  lemma RequestsWantMissing(b: Block, n: nat, k: nat)
    requires BlockOk(b, n) && !b.Complete()
    ensures (exists i :: 0 <= i < |Requests(b)| && Wanted(Requests(b)[i], n, k)) <==> k < n && k !in b.frames
  {
    RequestsAskExactly(b, n, k);
    var rs := Requests(b);
    hide Requests, BlockOk;
    forall i | 0 <= i < |rs| ensures Wanted(rs[i], n, k) <==> k in Asked(rs[i], n) {
      AskedIs(rs[i], n, k);
    }
    hide Wanted, Asked;
  }

  /** No frame is requested twice. */
  lemma RequestedOnce(b: Block, n: nat, k: nat, i: nat, j: nat)
    requires i < j < |Requests(b)|
    ensures !(Wanted(Requests(b)[i], n, k) && Wanted(Requests(b)[j], n, k))
  {
    var rs := Requests(b);
    PartialApart(b.sequence, b.frames.Keys, b.numFrames, 0);
    PartialAsksExactly(b.sequence, b.frames.Keys, b.numFrames, 0, k);
    assert rs == Partial(b.sequence, b.frames.Keys, b.numFrames, 0);
    hide Wanted, Partial;
    WantedInWindow(rs[i], n, k);
    WantedInWindow(rs[j], n, k);
  }

  // ---------------------------------------------------------------- the block at the sink

  /** The bytes in a frame, by the frame's number. */
  type Content = nat -> Data

  /** The block holds frames of the sent block only, each at its index. */
  ghost predicate Faithful(b: Block, sent: Sent, content: Content)
    requires WellCut(sent)
  {
    && b.sequence == sent.sequence && BlockOk(b, sent.numFrames)
    && forall k | k in b.frames :: k < sent.numFrames && content(b.frames[k]) == Chunk(sent, k)
  }

  /** The packet carries a frame of the sent block, or stands for it if the block is empty. */
  ghost predicate FrameOf(d: Packet, sent: Sent, content: Content)
    requires WellCut(sent)
  {
    && d.sequence == sent.sequence && d.numFrames == sent.numFrames
    && (d.frame.Some? <==> sent.numFrames > 0) && (d.size > 0 <==> sent.numFrames > 0)
    && (sent.numFrames > 0 ==> d.frameIndex < sent.numFrames && content(d.frame.value) == Chunk(sent, d.frameIndex))
  }

  /** received_block::copy_frames */
  ghost function Copied(frames: map<nat, nat>, content: Content, n: nat): Data
    requires forall k | 0 <= k < n :: k in frames
  {
    if n == 0 then [] else Copied(frames, content, n - 1) + content(frames[n - 1])
  }

  lemma {:induction false} CopiedConcat(frames: map<nat, nat>, content: Content, chunks: seq<Data>, n: nat)
    requires n <= |chunks| && forall k | 0 <= k < n :: k in frames && content(frames[k]) == chunks[k]
    ensures Copied(frames, content, n) == Concat(chunks[..n])
  {
    hide Concat;
    if n == 0 {
      ConcatNone();
    } else {
      CopiedConcat(frames, content, chunks, n - 1);
      assert chunks[..n] == chunks[..n - 1] + [chunks[n - 1]];
      ConcatAppend(chunks[..n - 1], [chunks[n - 1]]);
      ConcatOne(chunks[n - 1]);
    }
  }

  lemma ChunkIs(sent: Sent, k: nat)
    requires WellCut(sent) && k < sent.numFrames
    ensures k < |Chunks(sent.data, sent.frameSize)| && Chunk(sent, k) == Chunks(sent.data, sent.frameSize)[k]
  {
    FrameFits(sent, k, 0);
    hide Chunks, NumFrames;
  }

  lemma NoFramesNoData(sent: Sent)
    requires WellCut(sent) && sent.numFrames == 0
    ensures sent.data == []
  {
    if sent.frameSize > 0 {
      ChunkCount(sent.data, sent.frameSize);
    }
  }

  lemma FramesYieldData(b: Block, sent: Sent, content: Content)
    requires WellCut(sent) && sent.numFrames > 0
    requires forall k | 0 <= k < sent.numFrames :: k in b.frames && content(b.frames[k]) == Chunk(sent, k)
    ensures Copied(b.frames, content, sent.numFrames) == sent.data
  {
    ChunkCount(sent.data, sent.frameSize);
    ChunksConcat(sent.data, sent.frameSize);
    var chunks := Chunks(sent.data, sent.frameSize);
    forall k | 0 <= k < sent.numFrames ensures content(b.frames[k]) == chunks[k] {
      ChunkIs(sent, k);
    }
    hide Chunk, Chunks, NumFrames;
    CopiedConcat(b.frames, content, chunks, sent.numFrames);
    assert chunks[..sent.numFrames] == chunks;
  }

  /** A complete block that holds the right frames yields the bytes that were sent. */
  lemma CompleteYieldsData(b: Block, sent: Sent, content: Content)
    requires WellCut(sent) && Faithful(b, sent, content) && !b.Placeholder() && b.Complete()
    ensures b.numFrames == sent.numFrames && forall k | 0 <= k < b.numFrames :: k in b.frames
    ensures Copied(b.frames, content, b.numFrames) == sent.data
  {
    CompleteMeansAllFrames(b, sent.numFrames);
    hide Chunk;
    if sent.numFrames == 0 {
      NoFramesNoData(sent);
    } else {
      hide WellCut;
      FramesYieldData(b, sent, content);
    }
  }

  /** What a packet does to its block. */
  function Received(b: Block, d: Packet): Block {
    if b.Placeholder() then AddFrame(NewBlock(d), d)
    else if b.Empty() || d.frameIndex in b.frames then b
    else AddFrame(b, d)
  }

  lemma ReceivedFaithful(b: Block, d: Packet, sent: Sent, content: Content)
    requires WellCut(sent) && Faithful(b, sent, content) && FrameOf(d, sent, content)
    ensures Faithful(Received(b, d), sent, content) && !Received(b, d).Placeholder()
    ensures b.frames.Keys <= Received(b, d).frames.Keys
    ensures sent.numFrames > 0 ==> d.frameIndex in Received(b, d).frames
  {
    hide Chunk, NumFrames;
    if b.Placeholder() {
      AddFrameOk(NewBlock(d), d, sent.numFrames);
    } else if !(b.Empty() || d.frameIndex in b.frames) {
      AddFrameOk(b, d, sent.numFrames);
    }
  }

  /** The first packet of a block that is not in the buffer yet. */
  lemma FirstPacketFaithful(d: Packet, sent: Sent, content: Content)
    requires WellCut(sent) && FrameOf(d, sent, content)
    ensures Faithful(AddFrame(NewBlock(d), d), sent, content)
  {
    hide Chunk, NumFrames;
    AddFrameOk(NewBlock(d), d, sent.numFrames);
  }

  /** The packet can be sorted into the i-th block: right stream, not stale, not played yet. */
  ghost predicate Sortable(s: Sink, i: nat, d: Packet) {
    && Ordered(s.jitter) && i < |s.jitter.blocks| && s.jitter.blocks[i].sequence == d.sequence
    && 0 <= d.sequence < INT32_MAX && s.jitter.lastPopped < d.sequence
    && d.streamId == s.streamId && !Stale(s, d)
  }

  /** A packet for a block in the buffer changes that block and nothing else in the buffer. */
  lemma AddPacketToBlock(s: Sink, i: nat, d: Packet)
    requires Sortable(s, i, d)
    ensures var t := AddPacket(s, d).sink;
            && t.jitter == s.jitter.(blocks := s.jitter.blocks[i := Received(s.jitter.blocks[i], d)])
            && t.streamId == s.streamId && t.lowLatency == s.lowLatency && t.lastPosition == s.lastPosition
  {
    ScanOrdered(s.jitter.blocks, d.sequence);
    hide Scan;
    assert s.jitter.blocks[i].sequence == s.jitter.blocks[0].sequence + i;
    assert AddPacket(s, d) == AddExisting(s, d, i);
    assert s.jitter.blocks[i := s.jitter.blocks[i]] == s.jitter.blocks;
  }
}
