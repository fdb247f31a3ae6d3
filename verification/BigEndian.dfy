/** Bytes and byte strings. */
module Bytes {
  type byte = x: nat | x < 256

  type Data = seq<byte>

  function Concat(parts: seq<Data>): (r: Data) {
    if parts == [] then [] else parts[0] + Concat(parts[1..])
  }

  lemma {:induction false} ConcatAppend(a: seq<Data>, b: seq<Data>)
    ensures Concat(a + b) == Concat(a) + Concat(b)
  {
    if a == [] {
      assert a + b == b;
    } else {
      assert (a + b)[1..] == a[1..] + b;
      ConcatAppend(a[1..], b);
    }
  }

  lemma ConcatNone()
    ensures Concat([]) == []
  {
  }

  lemma ConcatOne(d: Data)
    ensures Concat([d]) == d
  {
    assert Concat([d]) == d + Concat([]);
  }

  lemma ConcatStep(parts: seq<Data>, i: nat)
    requires i < |parts|
    ensures Concat(parts[..i + 1]) == Concat(parts[..i]) + parts[i]
  {
    assert parts[..i + 1] == parts[..i] + [parts[i]];
    ConcatAppend(parts[..i], [parts[i]]);
    ConcatOne(parts[i]);
  }
}

/**
 The codecs under every binary message: big-endian integers (common/utils.hpp) and messages that
 are sequences of fixed-width fields.
 */
module BigEndian {
  import opened Wrappers
  import opened Arithmetic
  import opened Bytes

  function Pow256(k: nat): (p: nat)
    ensures p > 0
  {
    if k == 0 then 1 else 256 * Pow256(k - 1)
  }

  lemma Shifted(v: nat, j: nat)
    ensures v / 256 / Pow256(j) == v / Pow256(j + 1)
  {
    var p := Pow256(j);
    assert p > 0 && Pow256(j + 1) == 256 * p;
    hide Pow256;
    DivTwice(v, p);
  }

  lemma DivTwice(v: nat, p: nat)
    requires p > 0
    ensures v / 256 / p == v / (256 * p)
  {
    var u := v / 256;
    var q, s := u / p, u % p;
    assert u == q * p + s && v == 256 * u + v % 256;
    assert 256 * (q * p) == q * (256 * p);
    DivUnique(v, 256 * p, q);
  }

  /** The value fits into k bytes. */
  predicate Fits(k: nat, v: nat) { v < Pow256(k) }

  function ToBytes(k: nat, v: nat): (r: Data)
    requires Fits(k, v)
    ensures |r| == k
  {
    if k == 0 then [] else ToBytes(k - 1, v / 256) + [v % 256]
  }

  function FromBytes(bytes: Data): (v: nat)
    ensures Fits(|bytes|, v)
  {
    if bytes == [] then 0 else 256 * FromBytes(bytes[..|bytes| - 1]) + bytes[|bytes| - 1]
  }

  lemma {:induction false} FromTo(k: nat, v: nat)
    requires Fits(k, v)
    ensures FromBytes(ToBytes(k, v)) == v
  {
    if k > 0 {
      FromTo(k - 1, v / 256);
      var r := ToBytes(k, v);
      assert r[..k - 1] == ToBytes(k - 1, v / 256);
    }
  }

  lemma {:induction false} ToFrom(bytes: Data)
    ensures ToBytes(|bytes|, FromBytes(bytes)) == bytes
  {
    if bytes != [] {
      var n := |bytes| - 1;
      ToFrom(bytes[..n]);
      var v := FromBytes(bytes);
      assert v / 256 == FromBytes(bytes[..n]) && v % 256 == bytes[n];
      assert bytes == bytes[..n] + [bytes[n]];
    }
  }

  /** The bytes of a value in the memory of a little-endian machine. */
  function Memory(k: nat, v: nat): (r: Data)
    requires Fits(k, v)
    ensures |r| == k
  {
    if k == 0 then [] else [v % 256] + Memory(k - 1, v / 256)
  }

  lemma {:induction false} MemoryReversed(k: nat, v: nat, i: nat)
    requires Fits(k, v) && i < k
    ensures ToBytes(k, v)[i] == Memory(k, v)[k - 1 - i]
  {
    if i < k - 1 {
      MemoryReversed(k - 1, v / 256, i);
    }
  }

  /** Overwriting part of a byte string. */
  function Splice(s: Data, at: nat, bytes: Data): (r: Data)
    requires at + |bytes| <= |s|
    ensures |r| == |s|
  {
    s[..at] + bytes + s[at + |bytes|..]
  }

  /** to_bytes() on a little-endian machine: the bytes in memory, in reverse. */
  method PutBytes(buf: array<byte>, at: nat, k: nat, v: nat)
    requires Fits(k, v) && at + k <= buf.Length
    modifies buf
    ensures buf[..] == Splice(old(buf[..]), at, ToBytes(k, v))
  {
    var memory := Memory(k, v);
    for i := 0 to k
      invariant forall j | 0 <= j < i :: buf[at + j] == ToBytes(k, v)[j]
      invariant forall j | 0 <= j < buf.Length && !(at <= j < at + i) :: buf[j] == old(buf[j])
    {
      MemoryReversed(k, v, i);
      buf[at + i] := memory[k - i - 1];
    }
  }

  /** from_bytes() on a little-endian machine. */
  method GetBytes(bytes: Data) returns (v: nat)
    ensures v == FromBytes(bytes)
  {
    v := 0;
    for i := 0 to |bytes|
      invariant v == FromBytes(bytes[..i])
    {
      assert bytes[..i + 1][..i] == bytes[..i];
      v := 256 * v + bytes[i];
    }
    assert bytes[..|bytes|] == bytes;
  }

  // ---------------------------------------------------------------- fields

  datatype Field = Field(width: nat, value: nat)

  predicate FieldsFit(fields: seq<Field>) {
    forall i | 0 <= i < |fields| :: Fits(fields[i].width, fields[i].value)
  }

  function Encode(fields: seq<Field>): (r: Data)
    requires FieldsFit(fields)
  {
    if fields == [] then [] else ToBytes(fields[0].width, fields[0].value) + Encode(fields[1..])
  }

  function Widths(fields: seq<Field>): (r: seq<nat>)
    ensures |r| == |fields| && forall i | 0 <= i < |r| :: r[i] == fields[i].width
  {
    seq(|fields|, i requires 0 <= i < |fields| => fields[i].width)
  }

  lemma WidthsAppend(a: seq<Field>, b: seq<Field>)
    ensures Widths(a + b) == Widths(a) + Widths(b)
  {
  }

  function Sum(widths: seq<nat>): nat {
    if widths == [] then 0 else widths[0] + Sum(widths[1..])
  }

  /** Fields of the given widths from the front of a message, if it is long enough. */
  function Decode(widths: seq<nat>, s: Data): (r: Option<seq<Field>>)
    ensures r.Some? ==> |r.value| == |widths| && FieldsFit(r.value) && forall i | 0 <= i < |widths| :: r.value[i].width == widths[i]
    ensures r.Some? <==> |s| >= Sum(widths)
    decreases |widths|
  {
    if widths == [] then Some([])
    else if |s| < widths[0] then None
    else
      var rest := Decode(widths[1..], s[widths[0]..]);
      if rest.None? then None else Some([Field(widths[0], FromBytes(s[..widths[0]]))] + rest.value)
  }

  lemma {:induction false} EncodeLength(fields: seq<Field>)
    requires FieldsFit(fields)
    ensures |Encode(fields)| == Sum(Widths(fields))
  {
    if fields != [] {
      EncodeLength(fields[1..]);
      assert Widths(fields)[1..] == Widths(fields[1..]);
    }
  }

  lemma {:induction false} EncodeAppend(a: seq<Field>, b: seq<Field>)
    requires FieldsFit(a) && FieldsFit(b)
    ensures FieldsFit(a + b) && Encode(a + b) == Encode(a) + Encode(b)
  {
    if a == [] {
      assert a + b == b;
    } else {
      EncodeAppend(a[1..], b);
      hide ToBytes, Fits;
      assert (a + b)[1..] == a[1..] + b && (a + b)[0] == a[0];
      JoinedThree(ToBytes(a[0].width, a[0].value), Encode(a[1..]), Encode(b));
    }
  }

  lemma JoinedThree(a: Data, b: Data, c: Data)
    ensures (a + b) + c == a + (b + c)
  {
  }

  /** Reading back what was written, whatever follows it. */
  lemma {:induction false} DecodeEncode(fields: seq<Field>, tail: Data)
    requires FieldsFit(fields)
    ensures Decode(Widths(fields), Encode(fields) + tail) == Some(fields)
  {
    if fields != [] {
      var f, rest := fields[0], fields[1..];
      DecodeEncode(rest, tail);
      FromTo(f.width, f.value);
      SplitFront(ToBytes(f.width, f.value), Encode(rest), tail);
      hide ToBytes, FromBytes, Fits;
      var s := Encode(fields) + tail;
      assert Widths(fields)[1..] == Widths(rest);
      assert fields == [f] + rest;
    }
  }

  lemma SplitFront(a: Data, b: Data, tail: Data)
    ensures ((a + b) + tail)[..|a|] == a && ((a + b) + tail)[|a|..] == b + tail
  {
  }

  /** Writing back what was read. */
  lemma {:induction false} EncodeDecode(widths: seq<nat>, s: Data)
    requires Decode(widths, s).Some?
    ensures Encode(Decode(widths, s).value) == s[..Sum(widths)]
    decreases |widths|
  {
    if widths != [] {
      var w := widths[0];
      EncodeDecode(widths[1..], s[w..]);
      ToFrom(s[..w]);
      var fields := Decode(widths, s).value;
      assert fields[1..] == Decode(widths[1..], s[w..]).value;
      assert s[..w] + s[w..][..Sum(widths[1..])] == s[..Sum(widths)];
    }
  }

  /** Fields behind a fixed tag. */
  function Tagged(tag: Data, fields: seq<Field>): (r: Data)
    requires FieldsFit(fields)
  {
    tag + Encode(fields)
  }

  function ReadTagged(tag: Data, widths: seq<nat>, s: Data): (r: Option<seq<Field>>)
    ensures r.Some? ==> |r.value| == |widths| && FieldsFit(r.value) && Widths(r.value) == widths
  {
    if |s| < |tag| || s[..|tag|] != tag then None else Decode(widths, s[|tag|..])
  }

  lemma ReadTaggedWritten(tag: Data, fields: seq<Field>, tail: Data)
    requires FieldsFit(fields)
    ensures |Tagged(tag, fields)| == |tag| + Sum(Widths(fields))
    ensures ReadTagged(tag, Widths(fields), Tagged(tag, fields) + tail) == Some(fields)
  {
    hide Encode, Decode, Sum, FieldsFit;
    EncodeLength(fields);
    DecodeEncode(fields, tail);
    SplitFront(tag, Encode(fields), tail);
  }

  lemma TaggedRead(tag: Data, widths: seq<nat>, s: Data)
    requires ReadTagged(tag, widths, s).Some?
    ensures var n := |tag| + Sum(widths);
            n <= |s| && Tagged(tag, ReadTagged(tag, widths, s).value) == s[..n]
  {
    hide Encode, Decode, Sum, FieldsFit;
    EncodeDecode(widths, s[|tag|..]);
    assert s[..|tag| + Sum(widths)] == s[..|tag|] + s[|tag|..][..Sum(widths)];
  }

  /** Writing fields one behind the other. */
  method PutFields(buf: array<byte>, at: nat, fields: seq<Field>) returns (end: nat)
    requires FieldsFit(fields) && at + |Encode(fields)| <= buf.Length
    modifies buf
    ensures end == at + |Encode(fields)|
    ensures buf[..] == Splice(old(buf[..]), at, Encode(fields))
  {
    end := at;
    var i := 0;
    while i < |fields|
      invariant i <= |fields| && end + |Encode(fields[i..])| == at + |Encode(fields)|
      invariant end >= at && buf[..end] + Encode(fields[i..]) == old(buf[..at]) + Encode(fields)
      invariant buf[end..] == old(buf[..])[end..]
    {
      ghost var f, was := fields[i], buf[..];
      assert fields[i..][0] == f && fields[i..][1..] == fields[i + 1..];
      PutBytes(buf, end, fields[i].width, fields[i].value);
      PutStep(was, buf[..], end, f, Encode(fields[i + 1..]));
      end := end + fields[i].width;
      i := i + 1;
    }
    assert fields[i..] == [];
    PutDone(old(buf[..]), buf[..], at, end, Encode(fields));
  }

  lemma PutStep(was: Data, buf: Data, end: nat, f: Field, rest: Data)
    requires Fits(f.width, f.value) && end + f.width <= |was| && buf == Splice(was, end, ToBytes(f.width, f.value))
    ensures buf[..end + f.width] + rest == was[..end] + (ToBytes(f.width, f.value) + rest)
    ensures buf[end + f.width..] == was[end + f.width..]
  {
  }

  lemma PutDone(was: Data, buf: Data, at: nat, end: nat, bytes: Data)
    requires |buf| == |was| && end == at + |bytes| <= |was|
    requires buf[..end] + [] == was[..at] + bytes && buf[end..] == was[end..]
    ensures buf == Splice(was, at, bytes)
  {
    assert buf == buf[..end] + buf[end..];
  }
}
