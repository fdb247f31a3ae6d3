/**
 The resampler ring of aoo/src/resampler.cpp, over `real` and for one channel (the channels are
 interleaved copies of the same computation).

 The ring holds `size` frames plus three guard frames: one in front that mirrors the last frame,
 two behind that mirror the first two. Interpolation reads up to one frame before and two frames
 after a position without a bound check. The ring is proved to refine an unbounded stream.
 */
module Resampler {
  import opened Interpolation

  datatype Method = Reblock | SkipFrames | Hold | Linear | Cubic

  /** Frames of silence that reset() puts in front of the stream. */
  function Latency(m: Method): nat {
    match m
    case Linear => 1
    case Cubic => 2
    case _ => 0
  }

  // ---------------------------------------------------------------- the stream

  /** A frame of the stream; there is silence before its start. */
  function Tap(stream: seq<real>, k: int): real
    requires k < |stream|
  {
    if k < 0 then 0.0 else stream[k]
  }

  /** How far behind the position the interpolation looks. */
  function Reach(m: Method): nat { Latency(m) }

  /** The value of the stream at a position. */
  function At(m: Method, stream: seq<real>, x: real): real
    requires 0.0 <= x && x.Floor + Reach(m) < |stream|
  {
    var k := x.Floor;
    match m
    case Cubic => CubicAt(Tap(stream, k - 1), Tap(stream, k), Tap(stream, k + 1), Tap(stream, k + 2), x - k as real)
    case Linear => LinearAt(Tap(stream, k), Tap(stream, k + 1), x - k as real)
    case _ => Tap(stream, k)
  }

  // ---------------------------------------------------------------- what is interpolated

  /** The degree of the polynomials that a method reproduces. */
  predicate Reproduces(m: Method, p: Poly) {
    match m
    case Cubic => true
    case Linear => p.c2 == 0.0 && p.c3 == 0.0
    case _ => p.c1 == 0.0 && p.c2 == 0.0 && p.c3 == 0.0
  }

  /** Frame j of the stream, with silence before its start, is the polynomial's value at j. */
  ghost predicate TapOn(stream: seq<real>, j: int, p: Poly)
    requires j < |stream|
  {
    (if j < 0 then 0.0 else stream[j]) == Value(p, j as real)
  }

  /** The frames around position k that the method looks at lie on the polynomial. */
  ghost predicate TapsOn(m: Method, stream: seq<real>, k: nat, p: Poly) {
    var lo, hi := if m == Cubic then k - 1 else k, if m == Cubic then k + 2 else if m == Linear then k + 1 else k;
    hi < |stream| && forall j: int | lo <= j <= hi :: TapOn(stream, j, p)
  }

  /** Interpolating between frames on a polynomial gives the polynomial. */
  lemma AtReproduces(m: Method, stream: seq<real>, x: real, p: Poly)
    requires 0.0 <= x && x.Floor + Reach(m) < |stream| && Reproduces(m, p) && TapsOn(m, stream, x.Floor, p)
    ensures At(m, stream, x) == Value(p, x)
  {
    var k := x.Floor;
    var fract := x - k as real;
    assert k as real + fract == x;
    assert TapOn(stream, k, p);
    match m {
      case Cubic =>
        assert TapOn(stream, k - 1, p) && TapOn(stream, k + 1, p) && TapOn(stream, k + 2, p);
        hide Value, CubicAt, TapsOn;
        CubicReproduces(p, k as real, fract);
        assert (k - 1) as real == k as real - 1.0 && (k + 1) as real == k as real + 1.0 && (k + 2) as real == k as real + 2.0;
      case Linear =>
        assert TapOn(stream, k + 1, p);
        hide Value, LinearAt, TapsOn;
        LinearReproduces(p, k as real, fract);
      case _ =>
    }
  }

  /**
   Each output frame is the value, at its position, of every polynomial of the method's degree that
   the frames around the position lie on. There always is one, so this determines the frame.
   */
  ghost predicate Interpolates(m: Method, stream: seq<real>, start: real, step: real, out: seq<real>) {
    forall i, p | 0 <= i < |out| && Reproduces(m, p) :: FrameOn(m, stream, start + i as real * step, p, out[i])
  }

  ghost predicate FrameOn(m: Method, stream: seq<real>, x: real, p: Poly, y: real) {
    0.0 <= x && (TapsOn(m, stream, x.Floor, p) ==> y == Value(p, x))
  }

  lemma SampledInterpolates(m: Method, stream: seq<real>, start: real, step: real, out: seq<real>)
    requires Sampled(m, stream, start, step, out)
    ensures Interpolates(m, stream, start, step, out)
  {
    forall i, p | 0 <= i < |out| && Reproduces(m, p)
      ensures FrameOn(m, stream, start + i as real * step, p, out[i])
    {
      var x := start + Times(i, step);
      assert out[i] == At(m, stream, x);
      hide At, Value, TapsOn, Reproduces;
      if TapsOn(m, stream, x.Floor, p) {
        AtReproduces(m, stream, x, p);
      }
    }
  }

  // ---------------------------------------------------------------- the ring

  /** Slot p of the ring is element p + 1 of the buffer. The write position is |stream| - base. */
  ghost predicate RingOk(buf: seq<real>, size: nat, stream: seq<real>, base: nat) {
    && |buf| == size + 3 && base <= |stream| < base + size && (base == 0 || base >= size)
    && (forall b | 1 <= b <= |stream| - base :: buf[b] == stream[base + b - 1])
    && (base > 0 ==> forall b | |stream| - base < b <= size :: buf[b] == stream[base - size + b - 1])
  }

  /** The guard frames, as far as they can be reached. */
  ghost predicate GuardsOk(buf: seq<real>, size: nat, stream: seq<real>, m: Method)
    requires |buf| == size + 3 && size >= 1
  {
    && (|stream| > size ==> buf[size + 1] == buf[1] && buf[size + 2] == buf[2])
    && (|stream| >= size ==> buf[0] == buf[size])
    && (m == Cubic && |stream| < size ==> buf[0] == 0.0)
  }

  /** A frame that has been written and not yet overwritten is found at its slot. */
  lemma SlotIsStream(buf: seq<real>, size: nat, stream: seq<real>, base: nat, rdBase: nat, s: nat)
    requires RingOk(buf, size, stream, base) && (base == rdBase || base == rdBase + size) && s < size
    requires rdBase + s < |stream| <= rdBase + s + size
    ensures buf[s + 1] == stream[rdBase + s]
  {
  }

  /**
   Every tap equals the stream: a frame that has been written and not yet overwritten is found
   at its slot or, at either end of the ring, in a guard frame.
   */
  lemma TapIsStream(buf: seq<real>, size: nat, stream: seq<real>, base: nat, m: Method, rdBase: nat, ipos: nat, d: int)
    requires size >= 1 && RingOk(buf, size, stream, base) && GuardsOk(buf, size, stream, m)
    requires (base == rdBase || base == rdBase + size) && (rdBase == 0 || rdBase >= size) && ipos < size
    requires -1 <= d <= 2 && (d == -1 ==> m == Cubic)
    requires rdBase + ipos + d < |stream| <= rdBase + ipos + d + size
    ensures buf[1 + ipos + d] == Tap(stream, rdBase + ipos + d)
  {
    var s := ipos + d;
    if 0 <= s < size {
      SlotIsStream(buf, size, stream, base, rdBase, s);
    } else if s >= size {
      var q := s - size;
      assert base == rdBase + size && buf[q + 1] == stream[base + q];
    } else if rdBase > 0 {
      assert base == rdBase && buf[size] == stream[base - size + size - 1];
    }
  }

  /** The buffer after n frames have been copied in from slot pos on, around the end if need be. */
  ghost predicate Copied(buf: seq<real>, buf': seq<real>, size: nat, pos: nat, data: seq<real>)
    requires |buf| == |buf'| == size + 3 && pos < size && |data| < size
  {
    forall b | 1 <= b <= size ::
      buf'[b] == if pos < b <= pos + |data| then data[b - 1 - pos]
                 else if b <= pos + |data| - size then data[b - 1 + size - pos]
                 else buf[b]
  }

  /** Appending to the stream is copying into the ring. */
  lemma CopiedIsAppended(buf: seq<real>, buf': seq<real>, size: nat, stream: seq<real>, base: nat, data: seq<real>)
    requires size >= 1 && RingOk(buf, size, stream, base) && |data| < size && |buf'| == |buf|
    requires Copied(buf, buf', size, |stream| - base, data)
    ensures RingOk(buf', size, stream + data, if |stream| + |data| >= base + size then base + size else base)
  {
    var all, pos, n := stream + data, |stream| - base, |data|;
    var base' := if |all| >= base + size then base + size else base;
    forall b | 1 <= b <= |all| - base' ensures buf'[b] == all[base' + b - 1] {
    }
    if base' > 0 {
      forall b | |all| - base' < b <= size ensures buf'[b] == all[base' - size + b - 1] {
      }
    }
  }

  class Resampler {
    const kind: Method
    const size: nat
    const buf: array<real>
    var wrpos: nat
    var rdpos: real
    var balance: real
    var advance: real
    // the frames written since the last reset, and the rounds that writer and reader are in
    ghost var stream: seq<real>
    ghost var wrBase: nat
    ghost var rdBase: nat

    ghost predicate Valid()
      reads this, buf
    {
      && size >= 1 && buf.Length == size + 3 && RingOk(buf[..], size, stream, wrBase)
      && (kind != Reblock ==> GuardsOk(buf[..], size, stream, kind))
      && wrpos == |stream| - wrBase && Clock(|stream|, wrBase, rdBase, size, rdpos, balance)
      && 0.0 < advance && Latency(kind) as real <= balance
      && (kind == Reblock || kind == SkipFrames ==> Whole(rdpos) && Whole(balance))
      && (kind == SkipFrames ==> Whole(advance))
    }

    /**
     The ring of two frames that setup() computes for blocks of one frame, with cubic interpolation:
     reset() fills it with silence and leaves the write position behind the last frame.
     */
    ghost predicate Stuck()
      reads this, buf
    {
      && kind == Cubic && size == 2 && buf.Length == 5 && wrpos == 2 && rdpos == 0.0 && balance == 2.0
      && stream == Silence(2) && wrBase == 0 && rdBase == 0 && 0.0 < advance
    }

    /** Every ring that setup() computes. */
    ghost predicate Ready()
      reads this, buf
    {
      Valid() || Stuck()
    }

    /** The position in the stream up to which it has been read. */
    ghost function Position(): real
      reads this
    {
      |stream| as real - balance
    }

    /** The ring as its callers see it. */
    ghost function AsFlow(): Flow
      reads this
    {
      Flow(stream, Position())
    }

    constructor (kind: Method, size: nat, advance: real)
      requires (size > Latency(kind) || size == 2) && 0.0 < advance && (kind == SkipFrames ==> Whole(advance))
      ensures Ready() && (size > Latency(kind) ==> Valid()) && this.kind == kind && this.size == size && fresh(buf)
      ensures stream == Silence(Latency(kind)) && Position() == 0.0
    {
      this.kind, this.size, this.advance := kind, size, advance;
      buf := new real[size + 3](_ => 0.0);
      wrpos, rdpos, balance := Latency(kind), 0.0, Latency(kind) as real;
      stream, wrBase, rdBase := Silence(Latency(kind)), 0, 0;
    }

    /** reset(): the frames of the latency are zeroed and, for cubic interpolation, the frame before them. */
    method Reset()
      requires Ready()
      modifies this, buf
      ensures Ready() && (old(Valid()) && size > Latency(kind) ==> Valid()) && advance == old(advance)
      ensures stream == Silence(Latency(kind)) && Position() == 0.0
    {
      if kind == Cubic {
        buf[1], buf[2] := 0.0, 0.0;
        buf[size], buf[0] := 0.0, 0.0;
        wrpos, rdpos, balance := 2, 0.0, 2.0;
      } else if kind == Linear {
        buf[1] := 0.0;
        wrpos, rdpos, balance := 1, 0.0, 1.0;
      } else {
        wrpos, rdpos, balance := 0, 0.0, 0.0;
      }
      stream, wrBase, rdBase := Silence(Latency(kind)), 0, 0;
    }

    method Update(a: real)
      requires Ready() && 0.0 < a && (kind == SkipFrames ==> Whole(a))
      modifies this`advance
      ensures Ready() && (old(Valid()) ==> Valid()) && advance == a
    {
      advance := a;
    }

    /** Copying frames into the ring. */
    method CopyIn(data: seq<real>)
      requires buf.Length == size + 3 && wrpos < size && |data| < size
      modifies buf
      ensures Copied(old(buf[..]), buf[..], size, wrpos, data)
      ensures buf[0] == old(buf[0]) && buf[size + 1] == old(buf[size + 1]) && buf[size + 2] == old(buf[size + 2])
    {
      var pos, n := wrpos, |data|;
      if pos + n > size {
        var split := size - pos;
        forall j | 0 <= j < split {
          buf[pos + j + 1] := data[j];
        }
        forall j | 0 <= j < n - split {
          buf[j + 1] := data[split + j];
        }
      } else {
        forall j | 0 <= j < n {
          buf[pos + j + 1] := data[j];
        }
      }
    }

    /** Bringing the guard frames up to date after a write from slot pos to slot end. */
    method Mirror(pos: nat, end: nat)
      requires buf.Length == size + 3 && size >= 1
      modifies buf
      ensures buf[1..size + 1] == old(buf[1..size + 1])
      ensures if pos < 2 || end > size then buf[size + 1] == buf[1] && buf[size + 2] == buf[2]
              else buf[size + 1] == old(buf[size + 1]) && buf[size + 2] == old(buf[size + 2])
      ensures buf[0] == if end >= size then buf[size] else old(buf[0])
    {
      if pos < 2 || end > size {
        buf[size + 1] := buf[1];
        buf[size + 2] := buf[2];
      }
      if end >= size {
        buf[0] := buf[size];
      }
    }

    /** The part of write() that fills the ring. */
    method Store(data: seq<real>, pos: nat, end: nat)
      requires size >= 1 && RingOk(buf[..], size, stream, wrBase) && wrpos == |stream| - wrBase && |data| < size
      requires kind != Reblock ==> GuardsOk(buf[..], size, stream, kind)
      requires pos == wrpos && end == wrpos + |data|
      modifies buf
      ensures RingOk(buf[..], size, stream + data, if end >= size then wrBase + size else wrBase)
      ensures kind != Reblock ==> GuardsOk(buf[..], size, stream + data, kind)
    {
      ghost var was := buf[..];
      CopyIn(data);
      CopiedIsAppended(was, buf[..], size, stream, wrBase, data);
      ghost var copied := buf[..];
      hide RingOk, GuardsOk, Copied;
      if kind != Reblock {
        Mirror(pos, end);
        GuardsKept(was, copied, buf[..], size, stream, wrBase, data, kind);
      }
    }

    /** The part of write() that moves the write position. */
    method Advance(data: seq<real>, end: nat)
      requires size >= 1 && buf.Length == size + 3 && end == wrpos + |data| && 0.0 < advance && wrpos == |stream| - wrBase
      requires var base := if end >= size then wrBase + size else wrBase;
               && RingOk(buf[..], size, stream + data, base)
               && (kind != Reblock ==> GuardsOk(buf[..], size, stream + data, kind))
               && Clock(|stream + data|, base, rdBase, size, rdpos, balance + |data| as real)
      requires kind == Reblock || kind == SkipFrames ==> Whole(rdpos) && Whole(balance + |data| as real)
      requires Latency(kind) as real <= balance
      requires kind == SkipFrames ==> Whole(advance)
      modifies this`wrpos, this`balance, this`stream, this`wrBase
      ensures Valid() && stream == old(stream) + data && Position() == old(Position())
    {
      hide RingOk, GuardsOk, Whole, Clock;
      stream := stream + data;
      balance := balance + |data| as real;
      if end >= size {
        wrpos := end - size;
        wrBase := wrBase + size;
      } else {
        wrpos := end;
      }
    }

    /** write(): all frames are taken, or none if that would leave less than one frame of space. */
    method Write(data: seq<real>) returns (ok: bool)
      requires Ready()
      modifies this`wrpos, this`balance, this`stream, this`wrBase, buf
      ensures Ready() && (old(Valid()) ==> Valid())
      ensures ok <==> (size as real - old(balance)).Floor - 1 >= |data|
      ensures stream == (if ok then old(stream) + data else old(stream))
      ensures Position() == old(Position())
      ensures ok ==> |data| + Latency(kind) < size
      ensures Next(kind, old(AsFlow()), if ok then Wrote(data) else Refused, AsFlow())
    {
      var space := (size as real - balance).Floor;
      if space - 1 < |data| {
        return false;
      }
      assert Valid();
      var pos, end := wrpos, wrpos + |data|;
      ClockWrite(|stream|, |data|, wrBase, rdBase, size, rdpos, balance);
      WholeSum(balance, |data|);
      SpaceLeft(|data|, size, balance);
      assert (|data| + Latency(kind)) as real <= (size - 1) as real;
      hide RingOk, GuardsOk, Whole, Clock;
      Store(data, pos, end);
      Advance(data, end);
      ok := true;
    }

    /** One output frame at ring position pos, which is position round + pos of the stream. */
    method FrameAt(pos: real, ghost round: nat) returns (y: real)
      requires size >= 1 && buf.Length == size + 3 && RingOk(buf[..], size, stream, wrBase)
      requires kind != Reblock && GuardsOk(buf[..], size, stream, kind)
      requires 0.0 <= pos < size as real && (round == 0 || round >= size) && (wrBase == round || wrBase == round + size)
      requires var k := round + pos.Floor; k + Reach(kind) < |stream| < k + size
      ensures (round as real + pos).Floor == round + pos.Floor
      ensures y == At(kind, stream, round as real + pos)
    {
      FloorShift(round, pos);
      var ipos := pos.Floor;
      var fract := pos - ipos as real;
      InterpolatedIsAt(kind, buf[..], size, stream, wrBase, round, ipos, fract);
      hide CubicAt, LinearAt;
      if kind == Cubic {
        y := CubicAt(buf[ipos], buf[ipos + 1], buf[ipos + 2], buf[ipos + 3], fract);
      } else if kind == Linear {
        y := LinearAt(buf[ipos + 1], buf[ipos + 2], fract);
      } else {
        y := buf[ipos + 1];
      }
    }

    /** The body of the loop over the output frames, up to the advance of the position. */
    method NextFrame(pos: real, ghost round: nat, ghost n: nat, out: seq<real>) returns (out': seq<real>)
      requires Valid() && kind != Reblock && balance - Latency(kind) as real >= Times(n, advance) && |out| < n
      requires Reading(rdBase, size, rdpos, round, pos, Times(|out|, advance)) && Sampled(kind, stream, Position(), advance, out)
      ensures |out'| == |out| + 1 && Sampled(kind, stream, Position(), advance, out')
      ensures if pos + advance >= size as real then Reading(rdBase, size, rdpos, round + size, pos + advance - size as real, Times(|out'|, advance))
              else Reading(rdBase, size, rdpos, round, pos + advance, Times(|out'|, advance))
    {
      hide Times, At, RingOk, GuardsOk, Whole, Clock, Reading, Sampled, Latency;
      NextPosition(|stream|, wrBase, rdBase, size, rdpos, balance, round, pos, |out|, n, advance, Latency(kind));
      var y := FrameAt(pos, round);
      SampledStep(kind, stream, Position(), advance, out, y);
      out' := out + [y];
    }

    /** The loop over the output frames. */
    method Gather(n: nat) returns (out: seq<real>)
      requires (Valid() || (Stuck() && n == 0)) && kind != Reblock && balance - Latency(kind) as real >= Times(n, advance)
      ensures |out| == n && Sampled(kind, stream, Position(), advance, out)
    {
      assert Reading(rdBase, size, rdpos, rdBase, rdpos, 0.0);
      assert Sampled(kind, stream, Position(), advance, []);
      hide Times, RingOk, GuardsOk, Whole, Clock, Reading, Sampled, Latency;
      out := [];
      var pos, limit := rdpos, size as real;
      var i := 0;
      ghost var round: nat := rdBase;
      TimesStep(0, advance);
      while i < n
        invariant 0 <= i <= n && |out| == i && (i < n ==> Valid())
        invariant Reading(rdBase, size, rdpos, round, pos, Times(i, advance))
        invariant Sampled(kind, stream, Position(), advance, out)
      {
        out := NextFrame(pos, round, n, out);
        pos := pos + advance;
        if pos >= limit {
          pos := pos - limit;
          round := round + size;
        }
        i := i + 1;
      }
    }

    /** read() with hold, linear or cubic interpolation */
    method ReadInterpolated(n: nat) returns (ok: bool, out: seq<real>)
      requires Ready() && kind != Reblock && kind != SkipFrames
      modifies this`rdpos, this`balance, this`rdBase
      ensures Ready() && (old(Valid()) ==> Valid())
      ensures ok <==> old(balance) - Latency(kind) as real >= Times(n, advance)
      ensures ok ==> |out| == n && Sampled(kind, stream, old(Position()), advance, out)
      ensures Position() == old(Position()) + if ok then Times(n, advance) else 0.0
    {
      hide Times, Sampled, RingOk, GuardsOk, Whole;
      var frames := Times(n, advance);
      if balance - Latency(kind) as real < frames {
        return false, [];
      }
      TimesMonotone(0, n, advance);
      NothingToRead(n, advance);
      out := Gather(n);
      if Valid() {
        ClockRead(|stream|, wrBase, rdBase, size, rdpos, balance, frames);
      }
      hide Clock;
      var pos := rdpos + frames;
      if pos >= size as real {
        pos := pos - size as real;
        rdBase := rdBase + size;
      }
      rdpos := pos;
      balance := balance - frames;
      ok := true;
    }

    /** The same loop on whole positions. */
    method GatherSkip(n: nat) returns (out: seq<real>)
      requires Valid() && kind == SkipFrames && balance >= Times(n, advance)
      ensures |out| == n && Sampled(kind, stream, Position(), advance, out)
    {
      assert Reading(rdBase, size, rdpos, rdBase, rdpos, 0.0);
      assert Sampled(kind, stream, Position(), advance, []);
      hide Times, At, RingOk, GuardsOk, Clock, Reading, Sampled;
      out := [];
      var ipos, iadvance := rdpos.Floor, advance.Floor;
      assert iadvance as real == advance && ipos as real == rdpos;
      hide Whole;
      var i := 0;
      ghost var round: nat := rdBase;
      TimesStep(0, advance);
      while i < n
        invariant 0 <= i <= n && |out| == i
        invariant Reading(rdBase, size, rdpos, round, ipos as real, Times(i, advance))
        invariant Sampled(kind, stream, Position(), advance, out)
      {
        out := NextFrame(ipos as real, round, n, out);
        ipos := ipos + iadvance;
        if ipos >= size {
          ipos := ipos - size;
          round := round + size;
        }
        i := i + 1;
      }
    }

    /** read() for an integer ratio: whole positions only. */
    method ReadSkip(n: nat) returns (ok: bool, out: seq<real>)
      requires Valid() && kind == SkipFrames
      modifies this`rdpos, this`balance, this`rdBase
      ensures Valid()
      ensures ok <==> old(balance) >= Times(n, advance)
      ensures ok ==> |out| == n && Sampled(kind, stream, old(Position()), advance, out)
      ensures Position() == old(Position()) + if ok then Times(n, advance) else 0.0
    {
      hide Sampled, RingOk, GuardsOk;
      var iadvance, ibalance := advance.Floor, balance.Floor;
      var iframes := n * iadvance;
      WholeTimes(n, iadvance);
      hide Times;
      if ibalance < iframes {
        return false, [];
      }
      out := GatherSkip(n);
      TimesMonotone(0, n, advance);
      hide Clock;
      MoveWhole(iframes);
      ok := true;
    }

    /** The one or two copies out of the ring when only the block size changes. */
    method CopyOut(pos: nat, n: nat) returns (out: seq<real>)
      requires buf.Length == size + 3 && RingOk(buf[..], size, stream, wrBase) && (wrBase == rdBase || wrBase == rdBase + size)
      requires pos < size && n < size && rdBase + pos + n <= |stream| < rdBase + pos + size
      ensures out == stream[rdBase + pos..rdBase + pos + n]
    {
      hide RingOk;
      var end := pos + n;
      if end > size {
        out := buf[pos + 1..size + 1] + buf[1..end - size + 1];
      } else {
        out := buf[pos + 1..end + 1];
      }
      assert buf[pos + 1..size + 1] == buf[..][pos + 1..size + 1];
      Unrolled(buf[..], size, stream, wrBase, rdBase, pos, n, out);
    }

    method ReadReblocked(n: nat) returns (ok: bool, out: seq<real>, ghost start: nat)
      requires Valid() && kind == Reblock
      modifies this`rdpos, this`balance, this`rdBase
      ensures Valid()
      ensures ok <==> old(balance) >= n as real
      ensures ok ==> old(Position()) == start as real && start + n <= |stream| && out == stream[start..start + n]
      ensures Position() == old(Position()) + if ok then n as real else 0.0
    {
      start := 0;
      if balance.Floor < n {
        return false, [], start;
      }
      WholeRead(|stream|, wrBase, rdBase, size, rdpos, balance, n);
      start := rdBase + rdpos.Floor;
      hide RingOk, GuardsOk, Clock;
      out := CopyOut(rdpos.Floor, n);
      MoveWhole(n);
      ok := true;
    }

    /** Moving the read position by whole frames. */
    method MoveWhole(k: nat)
      requires Valid() && (kind == Reblock || kind == SkipFrames) && balance >= k as real
      modifies this`rdpos, this`balance, this`rdBase
      ensures Valid() && Position() == old(Position()) + k as real
    {
      ClockRead(|stream|, wrBase, rdBase, size, rdpos, balance, k as real);
      WholeSum(rdpos, k);
      WholeSum(rdpos, k - size);
      WholeSum(balance, 0 - k);
      var ipos := rdpos.Floor + k;
      assert ipos as real == rdpos + k as real && balance.Floor as real == balance;
      hide RingOk, GuardsOk, Clock, Whole;
      balance := (balance.Floor - k) as real;
      if ipos >= size {
        rdpos := (ipos - size) as real;
        rdBase := rdBase + size;
      } else {
        rdpos := ipos as real;
      }
    }

    /** How far one output frame advances in the stream. */
    ghost function Step(): real
      reads this
    {
      if kind == Reblock then 1.0 else advance
    }

    /**
     read(): refused as a whole, or the stream at equally spaced positions from the current one
     on, every tap being a frame that has been written and not yet been overwritten.
     */
    method Read(n: nat) returns (ok: bool, out: seq<real>)
      requires Ready()
      modifies this`rdpos, this`balance, this`rdBase
      ensures Ready() && (old(Valid()) ==> Valid())
      ensures ok <==> old(balance) - Latency(kind) as real >= Times(n, Step())
      ensures ok ==> |out| == n && Sampled(kind, stream, old(Position()), Step(), out)
      ensures ok ==> Interpolates(kind, stream, old(Position()), Step(), out)
      ensures Position() == old(Position()) + if ok then Times(n, Step()) else 0.0
      ensures Next(kind, old(AsFlow()), if ok then Got(Step(), out) else Refused, AsFlow())
    {
      hide RingOk, GuardsOk, Clock, Whole, Times, Sampled, Interpolates;
      match kind {
        case Reblock =>
          ghost var start;
          ok, out, start := ReadReblocked(n);
          TimesOne(n);
          if ok {
            SliceSampled(stream, start, n);
          }
        case SkipFrames => ok, out := ReadSkip(n);
        case _ => ok, out := ReadInterpolated(n);
      }
      if ok {
        SampledInterpolates(kind, stream, old(Position()), Step(), out);
      }
    }
  }

  /** Consecutive frames are the stream at steps of one. */
  lemma SliceSampled(stream: seq<real>, p: nat, n: nat)
    requires p + n <= |stream|
    ensures Sampled(Reblock, stream, p as real, 1.0, stream[p..p + n])
  {
    forall i | 0 <= i < n ensures var x := p as real + Times(i, 1.0); x.Floor == p + i {
      assert p as real + Times(i, 1.0) == (p + i) as real;
    }
  }

  lemma SampledFrame(stream: seq<real>, p: nat, out: seq<real>, i: nat)
    requires Sampled(Reblock, stream, p as real, 1.0, out) && i < |out|
    ensures p + i < |stream| && out[i] == stream[p + i]
  {
    assert p as real + Times(i, 1.0) == (p + i) as real;
  }

  lemma SampledSlice(stream: seq<real>, p: nat, out: seq<real>)
    requires Sampled(Reblock, stream, p as real, 1.0, out) && out != []
    ensures p + |out| <= |stream| && out == stream[p..p + |out|]
  {
    SampledFrame(stream, p, out, |out| - 1);
    forall i | 0 <= i < |out| ensures out[i] == stream[p + i] {
      SampledFrame(stream, p, out, i);
    }
  }

  // ---------------------------------------------------------------- runs

  /** The ring as its callers see it: all frames written and the position read up to. */
  datatype Flow = Flow(stream: seq<real>, position: real)

  datatype Event = Wrote(data: seq<real>) | Got(step: real, out: seq<real>) | Refused

  /** One call; the contracts of Write and Read promise it. */
  ghost predicate Next(m: Method, f: Flow, e: Event, f': Flow) {
    match e
    case Wrote(data) => f' == f.(stream := f.stream + data)
    case Got(step, out) =>
      && Sampled(m, f.stream, f.position, step, out) && (m == Reblock ==> step == 1.0)
      && f' == f.(position := f.position + Times(|out|, step))
    case Refused => f' == f
  }

  ghost predicate Run(m: Method, fs: seq<Flow>, es: seq<Event>) {
    && |fs| == |es| + 1 && fs[0] == Flow(Silence(Latency(m)), 0.0)
    && forall i | 0 <= i < |es| :: Next(m, fs[i], es[i], fs[i + 1])
  }

  function Written(es: seq<Event>): seq<real> {
    if es == [] then []
    else Written(es[..|es| - 1]) + (if es[|es| - 1].Wrote? then es[|es| - 1].data else [])
  }

  function ReadBack(es: seq<Event>): seq<real> {
    if es == [] then []
    else ReadBack(es[..|es| - 1]) + (if es[|es| - 1].Got? then es[|es| - 1].out else [])
  }

  /** When only the block size changes, the reads concatenate to a prefix of the accepted writes. */
  lemma {:induction false} ReadsArePrefixOfWrites(fs: seq<Flow>, es: seq<Event>)
    requires Run(Reblock, fs, es)
    ensures var f := fs[|es|];
            && f.stream == Written(es) && f.position == |ReadBack(es)| as real
            && |ReadBack(es)| <= |Written(es)| && ReadBack(es) == Written(es)[..|ReadBack(es)|]
  {
    if es != [] {
      var n := |es| - 1;
      var prev := es[..n];
      assert Run(Reblock, fs[..n + 1], prev);
      ReadsArePrefixOfWrites(fs[..n + 1], prev);
      assert Next(Reblock, fs[n], es[n], fs[n + 1]);
      var w, r := Written(prev), ReadBack(prev);
      match es[n] {
        case Wrote(data) => assert (w + data)[..|r|] == w[..|r|];
        case Got(step, out) =>
          assert Times(|out|, 1.0) == |out| as real;
          if out != [] {
            SampledSlice(w, |r|, out);
            assert w[..|r| + |out|] == w[..|r|] + w[|r|..|r| + |out|];
          }
        case Refused =>
      }
    }
  }

  /** A request to the ring: frames to write, or a number of frames to read. */
  datatype Request = Write(data: seq<real>) | Read(n: nat)

  /**
   Driving a ring that only changes the block size: whatever is written and read, in whatever
   order, what comes out is a prefix of what was taken in.
   */
  method Reblocked(size: nat, requests: seq<Request>) returns (taken: seq<real>, out: seq<real>)
    requires size > 0
    ensures |out| <= |taken| && out == taken[..|out|]
  {
    var ring := new Resampler(Reblock, size, 1.0);
    ghost var fs, es := [ring.AsFlow()], [];
    taken, out := [], [];
    for i := 0 to |requests|
      invariant ring.Valid() && ring.kind == Reblock && fresh(ring) && fresh(ring.buf)
      invariant Run(Reblock, fs, es) && fs[|es|] == ring.AsFlow()
      invariant taken == Written(es) && out == ReadBack(es)
    {
      ghost var e;
      match requests[i] {
        case Write(data) =>
          var ok := ring.Write(data);
          e := if ok then Wrote(data) else Refused;
          if ok {
            taken := taken + data;
          }
        case Read(n) =>
          var ok, frames := ring.Read(n);
          e := if ok then Got(ring.Step(), frames) else Refused;
          if ok {
            out := out + frames;
          }
      }
      RunOn(fs, es, e, ring.AsFlow());
      fs, es := fs + [ring.AsFlow()], es + [e];
    }
    ReadsArePrefixOfWrites(fs, es);
  }

  lemma RunOn(fs: seq<Flow>, es: seq<Event>, e: Event, f: Flow)
    requires Run(Reblock, fs, es) && Next(Reblock, fs[|es|], e, f)
    ensures Run(Reblock, fs + [f], es + [e])
    ensures Written(es + [e]) == Written(es) + (if e.Wrote? then e.data else [])
    ensures ReadBack(es + [e]) == ReadBack(es) + (if e.Got? then e.out else [])
  {
    hide Next;
    assert (es + [e])[..|es|] == es;
    var fs', es' := fs + [f], es + [e];
    forall i | 0 <= i < |es'| ensures Next(Reblock, fs'[i], es'[i], fs'[i + 1]) {
      if i < |es| {
        assert fs'[i] == fs[i] && fs'[i + 1] == fs[i + 1] && es'[i] == es[i];
      }
    }
  }

  /** Whole positions: n frames from the current one on are in the ring. */
  lemma WholeRead(len: nat, wrBase: nat, rdBase: nat, size: nat, rdpos: real, balance: real, n: nat)
    requires Clock(len, wrBase, rdBase, size, rdpos, balance) && Whole(rdpos) && balance >= n as real
    ensures var start := rdBase + rdpos.Floor;
            && 0 <= rdpos.Floor < size && n < size && len as real - balance == start as real
            && start + n <= len < start + size
    ensures wrBase == rdBase || wrBase == rdBase + size
  {
    var start := rdBase + rdpos.Floor;
    assert len as real - balance == start as real;
    assert (start + n) as real <= len as real;
    assert len as real <= (start + size - 1) as real;
  }

  lemma WholeTimes(n: nat, k: int)
    ensures Times(n, k as real) == (n * k) as real
  {
  }

  /** Slots pos to pos + n, around the end, are frames of the stream. */
  lemma Unrolled(buf: seq<real>, size: nat, stream: seq<real>, base: nat, rdBase: nat, pos: nat, n: nat, out: seq<real>)
    requires RingOk(buf, size, stream, base) && (base == rdBase || base == rdBase + size) && pos < size && n < size
    requires rdBase + pos + n <= |stream| < rdBase + pos + size
    requires out == if pos + n > size then buf[pos + 1..size + 1] + buf[1..pos + n - size + 1] else buf[pos + 1..pos + n + 1]
    ensures out == stream[rdBase + pos..rdBase + pos + n]
  {
    forall i | 0 <= i < n ensures out[i] == stream[rdBase + pos + i] {
      if pos + i < size {
        SlotIsStream(buf, size, stream, base, rdBase, pos + i);
      } else {
        SlotIsStream(buf, size, stream, base, rdBase + size, pos + i - size);
      }
    }
  }

  /** The reader inside the loop: it may have gone around the end once. */
  ghost predicate Reading(rdBase: nat, size: nat, rdpos: real, round: nat, pos: real, done: real) {
    && (round == rdBase || round == rdBase + size)
    && round as real + pos == rdBase as real + rdpos + done
    && 0.0 <= pos < size as real
  }

  lemma TimesOne(n: nat)
    ensures Times(n, 1.0) == n as real
  {
  }

  lemma NothingToRead(n: nat, a: real)
    requires a > 0.0
    ensures Times(n, a) <= 0.0 ==> n == 0
  {
    if n > 0 {
      TimesStep(0, a);
      TimesMonotone(1, n, a);
    }
  }

  lemma TimesMonotone(i: nat, n: nat, a: real)
    requires i <= n && a > 0.0
    ensures 0.0 <= Times(i, a) <= Times(n, a)
  {
    assert (n - i) as real * a >= 0.0 && i as real * a >= 0.0;
    assert n as real * a == i as real * a + (n - i) as real * a;
  }

  /** One step of the reader stays inside the stream and, once wrapped, inside the ring. */
  lemma ReadStep(len: nat, wrBase: nat, rdBase: nat, size: nat, rdpos: real, balance: real,
                 round: nat, pos: real, done: real, advance: real, latency: nat)
    requires Clock(len, wrBase, rdBase, size, rdpos, balance) && 0.0 < advance && 0.0 <= done
    requires Reading(rdBase, size, rdpos, round, pos, done) && done + advance <= balance - latency as real
    ensures var k := round + pos.Floor; k + latency < len < k + size
    ensures 0.0 <= pos < size as real && round as real + pos == rdBase as real + rdpos + done
    ensures (wrBase == round || wrBase == round + size) && (round == 0 || round >= size)
    ensures if pos + advance >= size as real then Reading(rdBase, size, rdpos, round + size, pos + advance - size as real, done + advance)
            else Reading(rdBase, size, rdpos, round, pos + advance, done + advance)
  {
    var x := round as real + pos;
    assert x + advance <= len as real - latency as real;
    assert x >= (len - size + 1) as real;
    FloorShift(round, pos);
    FloorBetween(x, len - size + 1, len - latency);
    if round == rdBase + size {
      assert wrBase == rdBase + size;
    }
  }

  /** The same for the next of n output frames, at position pos of the ring. */
  lemma NextPosition(len: nat, wrBase: nat, rdBase: nat, size: nat, rdpos: real, balance: real,
                     round: nat, pos: real, i: nat, n: nat, advance: real, latency: nat)
    requires Clock(len, wrBase, rdBase, size, rdpos, balance) && 0.0 < advance && i < n
    requires Reading(rdBase, size, rdpos, round, pos, Times(i, advance)) && Times(n, advance) <= balance - latency as real
    ensures var k := round + pos.Floor; k + latency < len < k + size
    ensures 0.0 <= pos < size as real && len as real - balance + Times(i, advance) == round as real + pos
    ensures (wrBase == round || wrBase == round + size) && (round == 0 || round >= size)
    ensures if pos + advance >= size as real then Reading(rdBase, size, rdpos, round + size, pos + advance - size as real, Times(i + 1, advance))
            else Reading(rdBase, size, rdpos, round, pos + advance, Times(i + 1, advance))
  {
    assert len as real - balance == rdBase as real + rdpos;
    hide Times, Reading, Clock;
    TimesStep(i, advance);
    TimesMonotone(i + 1, n, advance);
    TimesMonotone(0, i, advance);
    ReadStep(len, wrBase, rdBase, size, rdpos, balance, round, pos, Times(i, advance), advance, latency);
  }

  lemma FloorBetween(x: real, lo: int, hi: int)
    requires lo as real <= x < hi as real
    ensures lo <= x.Floor < hi
  {
  }

  lemma SampledStep(m: Method, stream: seq<real>, start: real, step: real, out: seq<real>, y: real)
    requires Sampled(m, stream, start, step, out)
    requires var x := start + Times(|out|, step); 0.0 <= x && x.Floor + Reach(m) < |stream| && y == At(m, stream, x)
    ensures Sampled(m, stream, start, step, out + [y])
  {
    hide Times, At;
  }

  lemma ClockRead(len: nat, wrBase: nat, rdBase: nat, size: nat, rdpos: real, balance: real, frames: real)
    requires Clock(len, wrBase, rdBase, size, rdpos, balance) && 0.0 <= frames <= balance
    ensures var pos := rdpos + frames;
            if pos >= size as real then Clock(len, wrBase, rdBase + size, size, pos - size as real, balance - frames)
            else Clock(len, wrBase, rdBase, size, pos, balance - frames)
  {
  }

  /** What read() computes from the buffer around slot ipos. */
  function Interpolated(m: Method, buf: seq<real>, ipos: nat, fract: real): real
    requires ipos + 3 < |buf|
  {
    match m
    case Cubic => CubicAt(buf[ipos], buf[ipos + 1], buf[ipos + 2], buf[ipos + 3], fract)
    case Linear => LinearAt(buf[ipos + 1], buf[ipos + 2], fract)
    case _ => buf[ipos + 1]
  }

  lemma InterpolatedIsAt(m: Method, buf: seq<real>, size: nat, stream: seq<real>, base: nat, round: nat, ipos: nat, fract: real)
    requires size >= 1 && RingOk(buf, size, stream, base) && GuardsOk(buf, size, stream, m)
    requires (round == 0 || round >= size) && (base == round || base == round + size) && ipos < size
    requires round + ipos + Reach(m) < |stream| < round + ipos + size
    requires 0.0 <= fract < 1.0
    ensures var x := (round + ipos) as real + fract;
            x.Floor == round + ipos && At(m, stream, x) == Interpolated(m, buf, ipos, fract)
  {
    var k := round + ipos;
    FloorShift(k, fract);
    TapIsStream(buf, size, stream, base, m, round, ipos, 0);
    if m == Cubic {
      TapIsStream(buf, size, stream, base, m, round, ipos, -1);
      TapIsStream(buf, size, stream, base, m, round, ipos, 1);
      TapIsStream(buf, size, stream, base, m, round, ipos, 2);
    } else if m == Linear {
      TapIsStream(buf, size, stream, base, m, round, ipos, 1);
    }
    hide RingOk, GuardsOk, CubicAt, LinearAt, Tap;
    var x := k as real + fract;
    assert x - k as real == fract;
  }

  lemma FloorShift(k: int, x: real)
    ensures (k as real + x).Floor == k + x.Floor
  {
  }

  function Times(i: nat, a: real): real { i as real * a }

  lemma TimesStep(i: nat, a: real)
    ensures Times(i + 1, a) == Times(i, a) + a && Times(0, a) == 0.0
  {
  }

  /** The frames are the stream at equally spaced positions. */
  ghost predicate Sampled(m: Method, stream: seq<real>, start: real, step: real, out: seq<real>) {
    forall i | 0 <= i < |out| ::
      var x := start + Times(i, step);
      0.0 <= x && x.Floor + Reach(m) < |stream| && out[i] == At(m, stream, x)
  }

  /** Positions of writer and reader: rounds of the ring plus positions in it. */
  ghost predicate Clock(len: nat, wrBase: nat, rdBase: nat, size: nat, rdpos: real, balance: real) {
    && 0.0 <= rdpos < size as real && 0.0 <= balance <= (size - 1) as real
    && len as real - balance == rdBase as real + rdpos
    && wrBase <= len < wrBase + size
    && (wrBase == rdBase || wrBase == rdBase + size) && (rdBase == 0 || rdBase >= size)
  }

  lemma WholeSum(x: real, n: int)
    ensures Whole(x) ==> Whole(x + n as real)
  {
    assert Whole(x) ==> x + n as real == (x.Floor + n) as real;
  }

  lemma SpaceLeft(n: nat, size: nat, balance: real)
    requires (size as real - balance).Floor - 1 >= n
    ensures balance + n as real <= (size - 1) as real
  {
    var space := (size as real - balance).Floor;
    assert space as real <= size as real - balance;
    assert (n + 1) as real <= space as real;
  }

  /** The writer is never more than one round ahead of the reader. */
  lemma ClockWrite(len: nat, n: nat, wrBase: nat, rdBase: nat, size: nat, rdpos: real, balance: real)
    requires Clock(len, wrBase, rdBase, size, rdpos, balance) && (size as real - balance).Floor - 1 >= n
    ensures n < size
    ensures Clock(len + n, if len + n >= wrBase + size then wrBase + size else wrBase, rdBase, size, rdpos, balance + n as real)
  {
    SpaceLeft(n, size, balance);
    assert (len + n) as real <= (rdBase + size - 1) as real + rdpos;
    assert (len + n) as real < (rdBase + size - 1 + size) as real;
  }

  /** The guard frames after a write. */
  lemma GuardsKept(was: seq<real>, copied: seq<real>, buf: seq<real>, size: nat, stream: seq<real>, base: nat,
                   data: seq<real>, m: Method)
    requires size >= 1 && RingOk(was, size, stream, base) && GuardsOk(was, size, stream, m)
    requires |data| < size && |buf| == |copied| == size + 3
    requires Copied(was, copied, size, |stream| - base, data) && buf[1..size + 1] == copied[1..size + 1]
    requires copied[0] == was[0] && copied[size + 1] == was[size + 1] && copied[size + 2] == was[size + 2]
    requires var pos, end := |stream| - base, |stream| - base + |data|;
             && (if pos < 2 || end > size then buf[size + 1] == buf[1] && buf[size + 2] == buf[2]
                 else buf[size + 1] == copied[size + 1] && buf[size + 2] == copied[size + 2])
             && buf[0] == if end >= size then buf[size] else copied[0]
    ensures GuardsOk(buf, size, stream + data, m)
    ensures forall base' :: RingOk(copied, size, stream + data, base') ==> RingOk(buf, size, stream + data, base')
  {
    assert forall b | 1 <= b <= size :: buf[b] == buf[1..size + 1][b - 1] && copied[b] == copied[1..size + 1][b - 1];
  }

  ghost predicate Whole(x: real) { x == x.Floor as real }

  function Silence(n: nat): (s: seq<real>)
    ensures |s| == n && forall i | 0 <= i < n :: s[i] == 0.0
  {
    seq(n, _ => 0.0)
  }
}
