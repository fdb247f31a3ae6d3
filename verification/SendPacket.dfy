/**
 Sending one data packet to many sinks (aoo/src/source.cpp, send_packet): the arguments are
 encoded once, then the message header, the stream ID and the channel are patched in place for
 each sink. The bytes are proved equal to a fresh encoding for that sink.
 */
module SendPacket {
  import opened Wrappers
  import opened Bytes
  import opened BigEndian
  import opened LowLatency
  import opened DataMessage

  const SMALL_HEADER: nat := 4
  const LARGE_HEADER: nat := 12
  const SINK_TYPE: nat := 1
  const DATA_COMMAND: nat := 0
  /** The domain bit in the first byte, and the size bit in the second. */
  const HIGH_BIT: nat := 0x80

  // ---------------------------------------------------------------- message header

  /** AOO IDs are int32, the valid ones are not negative. */
  predicate ValidId(id: int) { 0 <= id < 0x8000_0000 }

  predicate Large(to: int, from: int) { to >= 256 || from >= 256 }

  /** binmsg_write_header() for a data message to a sink */
  function MessageHeader(to: int, from: int): (r: Data)
    requires ValidId(to) && ValidId(from)
    ensures |r| == if Large(to, from) then LARGE_HEADER else SMALL_HEADER
  {
    if Large(to, from) then
      FitsInt32(to);
      FitsInt32(from);
      [SINK_TYPE + HIGH_BIT, DATA_COMMAND + HIGH_BIT, 0, 0] + ToBytes(4, to) + ToBytes(4, from)
    else [SINK_TYPE + HIGH_BIT, DATA_COMMAND, to, from]
  }

  /** binmsg_check() */
  predicate IsBinary(msg: Data) { |msg| >= 4 && msg[0] >= HIGH_BIT }

  function MessageType(msg: Data): nat
    requires IsBinary(msg)
  {
    msg[0] - HIGH_BIT
  }

  predicate LargeBit(msg: Data)
    requires IsBinary(msg)
  {
    msg[1] >= HIGH_BIT
  }

  function Command(msg: Data): nat
    requires IsBinary(msg)
  {
    if LargeBit(msg) then msg[1] - HIGH_BIT else msg[1]
  }

  /** binmsg_headersize(); 0 if the message is too short */
  function HeaderSize(msg: Data): nat
    requires IsBinary(msg)
  {
    var n := if LargeBit(msg) then LARGE_HEADER else SMALL_HEADER;
    if |msg| >= n then n else 0
  }

  /** binmsg_to(), -1 if the message is too short */
  function To(msg: Data): int
    requires IsBinary(msg)
  {
    if !LargeBit(msg) then msg[2]
    else if |msg| >= 12 then Signed(FromBytes(msg[4..8]))
    else -1
  }

  function From(msg: Data): int
    requires IsBinary(msg) && HeaderSize(msg) > 0
  {
    if LargeBit(msg) then Signed(FromBytes(msg[8..12])) else msg[3]
  }

  /** The receiver finds type, command, both IDs and the arguments. */
  lemma HeaderIsRead(to: int, from: int, args: Data)
    requires ValidId(to) && ValidId(from)
    ensures var msg := MessageHeader(to, from) + args;
            && IsBinary(msg) && MessageType(msg) == SINK_TYPE && Command(msg) == DATA_COMMAND
            && HeaderSize(msg) == |MessageHeader(to, from)|
            && To(msg) == to && From(msg) == from && msg[HeaderSize(msg)..] == args
  {
    var msg := MessageHeader(to, from) + args;
    if Large(to, from) {
      FitsInt32(to);
      FitsInt32(from);
      FromTo(4, to);
      FromTo(4, from);
      hide ToBytes, FromBytes;
      assert msg[4..8] == ToBytes(4, to) && msg[8..12] == ToBytes(4, from);
    }
  }

  // ---------------------------------------------------------------- patching

  lemma SpliceMiddle(a: Data, x: Data, b: Data, y: Data)
    requires |x| == |y|
    ensures Splice(a + (x + b), |a|, y) == a + (y + b)
  {
  }

  lemma SpliceInside(a: Data, s: Data, b: Data, at: nat, y: Data)
    requires at + |y| <= |s|
    ensures Splice(a + (s + b), |a| + at, y) == a + (Splice(s, at, y) + b)
  {
  }

  /** Where find_low_latency_header() finds the header. */
  function HeaderOffset(flags: nat): nat {
    12 + (if Has(flags, FRAMES) then 8 else 0) + (if Has(flags, STREAM_MESSAGE) then 4 else 0)
    + (if Has(flags, SAMPLE_RATE) then 8 else 0) + (if Has(flags, TIME_STAMP) then 8 else 0)
  }

  function ForSink(d: DataPacket, streamId: int, channel: nat): DataPacket {
    d.(streamId := streamId, channel := channel)
  }

  predicate ValidTarget(streamId: int, channel: nat) { Int32(streamId) && channel < 256 }

  /** The arguments with stream ID and channel replaced. */
  function Patched(s: Data, flags: nat, streamId: int, channel: nat): (r: Data)
    requires ValidTarget(streamId, channel) && |s| >= 12 && (Has(flags, LOW_LATENCY) ==> |s| >= HeaderOffset(flags) + HEADER_SIZE)
    ensures |r| == |s|
  {
    FitsInt32(streamId);
    FitsWider(Unsigned(streamId));
    var s1 := Splice(s, 0, ToBytes(4, Unsigned(streamId)));
    var s2 := Splice(s1, 8, [channel]);
    if Has(flags, LOW_LATENCY) then Splice(s2, HeaderOffset(flags) + 12, ToBytes(8, Unsigned(streamId))) else s2
  }

  lemma FitsWider(v: nat)
    requires Fits(4, v)
    ensures Fits(8, v)
  {
    assert Pow256(4) == 0x1_0000_0000;
    assert Pow256(8) == 0x1_0000_0000 * Pow256(4);
  }

  /** Packets differ from sink to sink only in stream ID and channel. */
  lemma TargetTyped(d: DataPacket, streamId: int, channel: nat)
    requires Typed(d) && ValidTarget(streamId, channel)
    ensures Typed(ForSink(d, streamId, channel))
    ensures OptionalFields(ForSink(d, streamId, channel)) == OptionalFields(d)
  {
    var e := ForSink(d, streamId, channel);
    FitsInt32(streamId);
    FitsWider(Unsigned(streamId));
    PrefixTyped(d, e);
    if Has(d.flags, LOW_LATENCY) {
      HeaderRetyped(HeaderFor(d), Unsigned(streamId));
      hide HeaderTyped, FieldsFit, PrefixFields;
      assert HeaderFor(e) == HeaderFor(d).(streamId := Unsigned(streamId));
    }
    hide HeaderTyped, FieldsFit, PrefixFields;
  }

  lemma PrefixTyped(d: DataPacket, e: DataPacket)
    requires Typed(d) && Int32(e.streamId) && e == ForSink(d, e.streamId, e.channel) && e.channel < 256
    ensures FieldsFit(PrefixFields(e))
  {
    FitsInt32(e.streamId);
    assert Fits(1, e.channel) by {
      assert Pow256(1) == 256;
    }
    var f, g := PrefixFields(d), PrefixFields(e);
    assert g[0] == Field(4, Unsigned(e.streamId)) && g[1] == f[1] && g[2] == Field(1, e.channel) && g[3] == f[3] && g[4] == f[4];
    hide Fits, OptionalFields;
  }

  lemma HeaderRetyped(h: Header, streamId: nat)
    requires HeaderTyped(h) && Fits(8, streamId)
    ensures HeaderTyped(h.(streamId := streamId))
  {
    assert forall i | 0 <= i < 14 && i != 5 :: HeaderFields(h.(streamId := streamId))[i] == HeaderFields(h)[i];
    hide Fits;
  }

  lemma EncodeCons(f: Field, rest: seq<Field>)
    requires FieldsFit([f] + rest)
    ensures FieldsFit(rest) && Fits(f.width, f.value) && Encode([f] + rest) == ToBytes(f.width, f.value) + Encode(rest)
  {
    assert ([f] + rest)[0] == f && ([f] + rest)[1..] == rest;
    assert forall i | 0 <= i < |rest| :: ([f] + rest)[i + 1] == rest[i];
  }

  lemma OneByte(v: nat)
    requires v < 256
    ensures Fits(1, v) && ToBytes(1, v) == [v]
  {
    assert Pow256(1) == 256;
    assert ToBytes(0, 0) == [];
  }

  /** The first twelve bytes: stream ID, sequence, channel, flags and size. */
  lemma PrefixBytes(d: DataPacket)
    requires Typed(d) && d.channel < 256
    ensures Fits(4, Unsigned(d.streamId)) && Fits(4, Unsigned(d.sequence)) && FieldsFit([Field(1, d.flags), Field(2, d.size)])
    ensures Encode(PrefixFields(d)) ==
            ToBytes(4, Unsigned(d.streamId)) + (ToBytes(4, Unsigned(d.sequence)) + ([d.channel] + Encode([Field(1, d.flags), Field(2, d.size)])))
  {
    var f := PrefixFields(d);
    var f1, f2, f3 := f[1..], f[2..], f[3..];
    assert f == [f[0]] + f1 && f1 == [f[1]] + f2 && f2 == [f[2]] + f3 && f3 == [Field(1, d.flags), Field(2, d.size)];
    hide Encode, Fits, OptionalFields;
    EncodeCons(f[0], f1);
    EncodeCons(f[1], f2);
    EncodeCons(f[2], f3);
    OneByte(d.channel);
  }

  lemma PatchTwo(a: Data, b: Data, c: Data, t: Data, r: Data, a': Data, c': Data)
    requires |a| == |a'| == 4 && |b| == 4 && |c| == |c'| == 1
    ensures Splice(Splice((a + (b + (c + t))) + r, 0, a'), 8, c') == (a' + (b + (c' + t))) + r
  {
    hide Splice;
    var u := t + r;
    Regroup(a, b, c, t, r);
    SpliceFront(a, b + (c + u), a');
    Assoc(a', b, c + u);
    SpliceMiddle(a' + b, c, u, c');
    Assoc(a', b, c' + u);
    Regroup(a', b, c', t, r);
  }

  lemma SpliceFront(x: Data, b: Data, y: Data)
    requires |x| == |y|
    ensures Splice(x + b, 0, y) == y + b
  {
  }

  lemma Assoc(a: Data, b: Data, c: Data)
    ensures (a + b) + c == a + (b + c)
  {
  }

  lemma Regroup(a: Data, b: Data, c: Data, t: Data, r: Data)
    ensures (a + (b + (c + t))) + r == a + (b + (c + (t + r)))
  {
    Assoc(a, b + (c + t), r);
    Assoc(b, c + t, r);
    Assoc(c, t, r);
  }

  lemma PatchPrefix(d: DataPacket, e: DataPacket, r: Data)
    requires Typed(d) && Typed(e) && d.channel < 256 && e.channel < 256 && e == ForSink(d, e.streamId, e.channel)
    ensures |Encode(PrefixFields(d))| == 12 && Fits(4, Unsigned(e.streamId))
    ensures Splice(Splice(Encode(PrefixFields(d)) + r, 0, ToBytes(4, Unsigned(e.streamId))), 8, [e.channel]) ==
            Encode(PrefixFields(e)) + r
  {
    PrefixBytes(d);
    PrefixBytes(e);
    PrefixWidthSum(d);
    EncodeLength(PrefixFields(d));
    hide Typed, PrefixFields, Encode, ToBytes, Splice, Unsigned, Fits, FieldsFit, Sum, PrefixWidths;
    var t := Encode([Field(1, d.flags), Field(2, d.size)]);
    PatchTwo(ToBytes(4, Unsigned(d.streamId)), ToBytes(4, Unsigned(d.sequence)), [d.channel], t, r,
             ToBytes(4, Unsigned(e.streamId)), [e.channel]);
  }

  /** The stream ID is in bytes 12 to 19 of the low-latency header. */
  lemma HeaderSplit(h: Header)
    requires HeaderTyped(h)
    ensures var f := HeaderFields(h);
            && FieldsFit(f[..5]) && FieldsFit(f[6..]) && Fits(8, h.streamId) && |Magic() + Encode(f[..5])| == 12
            && HeaderBytes(h) == (Magic() + Encode(f[..5])) + (ToBytes(8, h.streamId) + Encode(f[6..]))
  {
    var f := HeaderFields(h);
    assert f == f[..5] + f[5..] && f[5..] == [f[5]] + f[6..] && f[5] == Field(8, h.streamId);
    EncodeAppend(f[..5], f[5..]);
    EncodeCons(f[5], f[6..]);
    FrontLength(h);
    hide Encode, Fits, Magic, HeaderFields, ToBytes, FieldsFit;
    Assoc(Magic(), Encode(f[..5]), ToBytes(8, h.streamId) + Encode(f[6..]));
  }

  lemma FrontLength(h: Header)
    requires HeaderTyped(h)
    ensures FieldsFit(HeaderFields(h)[..5]) && |Encode(HeaderFields(h)[..5])| == 8
  {
    var f := HeaderFields(h)[..5];
    EncodeLength(f);
    assert Widths(f) == [2, 2, 1, 1, 2];
    hide Fits, Encode;
    assert [2, 2, 1, 1, 2][1..] == [2, 1, 1, 2] && [2, 1, 1, 2][1..] == [1, 1, 2] && [1, 1, 2][1..] == [1, 2] && [1, 2][1..] == [2];
    assert Sum([2, 2, 1, 1, 2]) == 8;
  }

  lemma HeaderPatched(h: Header, streamId: nat)
    requires HeaderTyped(h) && Fits(8, streamId)
    ensures var h' := h.(streamId := streamId);
            && HeaderTyped(h') && |HeaderBytes(h)| == HEADER_SIZE
            && Splice(HeaderBytes(h), 12, ToBytes(8, streamId)) == HeaderBytes(h')
  {
    var h' := h.(streamId := streamId);
    HeaderRetyped(h, streamId);
    HeaderLength(h);
    HeaderSplit(h);
    HeaderSplit(h');
    var f, f' := HeaderFields(h), HeaderFields(h');
    assert f[..5] == f'[..5] && f[6..] == f'[6..];
    hide HeaderFields, HeaderTyped, Encode, ToBytes, Fits, FieldsFit, HeaderBytes, Magic;
    SpliceMiddle(Magic() + Encode(f[..5]), ToBytes(8, h.streamId), Encode(f[6..]), ToBytes(8, streamId));
  }

  lemma OptionalLength(d: DataPacket)
    requires FieldsFit(OptionalFields(d))
    ensures 12 + |Encode(OptionalFields(d))| == HeaderOffset(d.flags)
  {
    EncodeLength(OptionalFields(d));
    OptionalWidthsMatch(d);
    hide Has, Encode, FieldsFit, OptionalFields;
    var a, b := When(Has(d.flags, FRAMES), [4, 2, 2]), When(Has(d.flags, STREAM_MESSAGE), [4]);
    var c, e := When(Has(d.flags, SAMPLE_RATE), [8]), When(Has(d.flags, TIME_STAMP), [8]);
    SumStep(a + b + c, e);
    SumStep(a + b, c);
    SumStep(a, b);
    assert [4, 2, 2][1..] == [2, 2] && [2, 2][1..] == [2];
  }

  /** Encoding once and patching gives the bytes of a fresh encoding for another stream ID and channel. */
  lemma PatchedIsFresh(d: DataPacket, streamId: int, channel: nat)
    requires Typed(d) && d.channel < 256 && ValidTarget(streamId, channel)
    ensures Typed(ForSink(d, streamId, channel))
    ensures |WriteBinData(d)| >= 12 && (Has(d.flags, LOW_LATENCY) ==> |WriteBinData(d)| >= HeaderOffset(d.flags) + HEADER_SIZE)
    ensures Patched(WriteBinData(d), d.flags, streamId, channel) == WriteBinData(ForSink(d, streamId, channel))
  {
    TargetTyped(d, streamId, channel);
    var e := ForSink(d, streamId, channel);
    var o := Encode(OptionalFields(d));
    PatchPrefix(d, e, o + (LowLatencyPart(d) + d.data));
    OptionalLength(d);
    FitsWider(Unsigned(streamId));
    if Has(d.flags, LOW_LATENCY) {
      HeaderPatched(HeaderFor(d), Unsigned(streamId));
      PatchHeader(d, e, o);
    }
    hide Typed, PrefixFields, OptionalFields, Encode, ToBytes, Unsigned, Fits, HeaderBytes, HeaderOffset, HeaderFor;
  }

  lemma PatchHeader(d: DataPacket, e: DataPacket, o: Data)
    requires Typed(d) && Typed(e) && Has(d.flags, LOW_LATENCY) && e == ForSink(d, e.streamId, e.channel)
    requires 12 + |o| == HeaderOffset(d.flags) && |Encode(PrefixFields(e))| == 12 && Fits(8, Unsigned(e.streamId))
    requires |HeaderBytes(HeaderFor(d))| == HEADER_SIZE
    requires Splice(HeaderBytes(HeaderFor(d)), 12, ToBytes(8, Unsigned(e.streamId))) == HeaderBytes(HeaderFor(e))
    ensures |Encode(PrefixFields(e)) + (o + (LowLatencyPart(d) + d.data))| >= HeaderOffset(d.flags) + HEADER_SIZE
    ensures Splice(Encode(PrefixFields(e)) + (o + (LowLatencyPart(d) + d.data)), HeaderOffset(d.flags) + 12, ToBytes(8, Unsigned(e.streamId)))
         == Encode(PrefixFields(e)) + (o + (LowLatencyPart(e) + e.data))
  {
    hide PrefixFields, Encode, ToBytes, Unsigned, Fits, HeaderBytes, HeaderOffset, HeaderFor, Splice, HeaderTyped, FieldsFit, ValidHeader;
    var p, h := Encode(PrefixFields(e)), HeaderBytes(HeaderFor(d));
    assert p + (o + (h + d.data)) == (p + o) + (h + d.data);
    SpliceInside(p + o, h, d.data, 12, ToBytes(8, Unsigned(e.streamId)));
    var h' := HeaderBytes(HeaderFor(e));
    assert (p + o) + (h' + d.data) == p + (o + (h' + d.data));
  }

  // ---------------------------------------------------------------- the send loop

  /** A sink as the source caches it. */
  datatype CachedSink = CachedSink(id: int, streamId: int, channel: nat)

  predicate ValidSink(s: CachedSink) { ValidId(s.id) && ValidTarget(s.streamId, s.channel) }

  /** A message encoded from scratch for one sink (send_packet_bin). */
  function Fresh(s: CachedSink, id: int, d: DataPacket): Data
    requires ValidSink(s) && ValidId(id) && Typed(ForSink(d, s.streamId, s.channel))
  {
    MessageHeader(s.id, id) + WriteBinData(ForSink(d, s.streamId, s.channel))
  }

  method PutData(buf: array<byte>, at: nat, bytes: Data)
    requires at + |bytes| <= buf.Length
    modifies buf
    ensures buf[..] == Splice(old(buf[..]), at, bytes)
  {
    for i := 0 to |bytes|
      invariant forall j | 0 <= j < i :: buf[at + j] == bytes[j]
      invariant forall j | 0 <= j < buf.Length && !(at <= j < at + i) :: buf[j] == old(buf[j])
    {
      buf[at + i] := bytes[i];
    }
  }

  lemma SpliceTwice(s: Data, at: nat, x: Data, y: Data)
    requires at + |x| + |y| <= |s|
    ensures Splice(Splice(s, at, x), at + |x|, y) == Splice(s, at, x + y)
  {
  }

  /** write_bin_data() into a buffer */
  method WriteArguments(buf: array<byte>, at: nat, d: DataPacket) returns (end: nat)
    requires Typed(d) && at + |WriteBinData(d)| <= buf.Length
    modifies buf
    ensures end == at + |WriteBinData(d)| && buf[..] == Splice(old(buf[..]), at, WriteBinData(d))
  {
    hide HeaderTyped, ValidHeader, FieldsFit, PrefixFields, OptionalFields, Encode, Splice, HeaderBytes, Tagged;
    ghost var was := buf[..];
    ghost var p, o, l := Encode(PrefixFields(d)), Encode(OptionalFields(d)), LowLatencyPart(d);
    end := PutFields(buf, at, PrefixFields(d));
    end := PutFields(buf, end, OptionalFields(d));
    SpliceTwice(was, at, p, o);
    if Has(d.flags, LOW_LATENCY) {
      PutData(buf, end, HeaderBytes(HeaderFor(d)));
      SpliceTwice(was, at, p + o, l);
      end := end + HEADER_SIZE;
      HeaderLength(HeaderFor(d));
    } else {
      assert l == [] && (p + o) + [] == p + o;
    }
    assert end == at + |(p + o) + l| && buf[..] == Splice(was, at, (p + o) + l);
    PutData(buf, end, d.data);
    SpliceTwice(was, at, (p + o) + l, d.data);
    end := end + |d.data|;
    Assoc(p, o, l);
    Assoc(p, o + l, d.data);
    Assoc(o, l, d.data);
  }

  /** The three in-place patches of the arguments at offset 12. */
  method PatchArguments(buf: array<byte>, end: nat, flags: nat, s: CachedSink, ghost args: Data)
    requires ValidSink(s) && LARGE_HEADER + |args| == end <= buf.Length && buf[LARGE_HEADER..end] == args
    requires |args| >= 12 && (Has(flags, LOW_LATENCY) ==> |args| >= HeaderOffset(flags) + HEADER_SIZE)
    modifies buf
    ensures buf[LARGE_HEADER..end] == Patched(args, flags, s.streamId, s.channel)
    ensures buf[..LARGE_HEADER] == old(buf[..LARGE_HEADER])
  {
    hide ToBytes, HeaderOffset, Splice, Has, Unsigned, Fits;
    FitsInt32(s.streamId);
    FitsWider(Unsigned(s.streamId));
    ghost var x, y := ToBytes(4, Unsigned(s.streamId)), ToBytes(8, Unsigned(s.streamId));
    ghost var b0 := buf[..];
    PutBytes(buf, LARGE_HEADER, 4, Unsigned(s.streamId));
    SpliceShift(b0, end, args, 0, x);
    ghost var b1 := buf[..];
    PutData(buf, LARGE_HEADER + 8, [s.channel]);
    SpliceShift(b1, end, Splice(args, 0, x), 8, [s.channel]);
    ghost var b2 := buf[..];
    if Has(flags, LOW_LATENCY) {
      PutBytes(buf, LARGE_HEADER + HeaderOffset(flags) + 12, 8, Unsigned(s.streamId));
      SpliceShift(b2, end, Splice(Splice(args, 0, x), 8, [s.channel]), HeaderOffset(flags) + 12, y);
    }
    hide Splice;
    assert buf[LARGE_HEADER..end] == buf[..][LARGE_HEADER..end];
  }

  /** A patch of the buffer is a patch of the arguments in it. */
  lemma SpliceShift(buf: Data, end: nat, args: Data, at: nat, x: Data)
    requires LARGE_HEADER + |args| == end <= |buf| && buf[LARGE_HEADER..end] == args && at + |x| <= |args|
    ensures var buf' := Splice(buf, LARGE_HEADER + at, x);
            buf'[LARGE_HEADER..end] == Splice(args, at, x) && buf'[..LARGE_HEADER] == buf[..LARGE_HEADER]
  {
  }

  /** send_packet(): every sink gets the bytes of a fresh encoding. */
  method SendToAll(sinks: seq<CachedSink>, id: int, d: DataPacket) returns (out: seq<Data>)
    requires ValidId(id) && forall i | 0 <= i < |sinks| :: ValidSink(sinks[i])
    requires d.channel < 256 && d.streamId == -1 && Typed(d) && LARGE_HEADER + |WriteBinData(d)| <= MAX_PACKET_SIZE
    ensures |out| == |sinks|
    ensures forall i | 0 <= i < |sinks| :: Typed(ForSink(d, sinks[i].streamId, sinks[i].channel)) && out[i] == Fresh(sinks[i], id, d)
  {
    hide WriteBinData, Typed, Patched, MessageHeader;
    var buf := new byte[MAX_PACKET_SIZE](_ => 0);
    var end := WriteArguments(buf, LARGE_HEADER, d);
    ghost var e := d;
    out := [];
    for i := 0 to |sinks|
      invariant |out| == i && e == ForSink(d, e.streamId, e.channel) && e.channel < 256 && Typed(e)
      invariant end == LARGE_HEADER + |WriteBinData(e)| <= buf.Length && buf[LARGE_HEADER..end] == WriteBinData(e)
      invariant forall k | 0 <= k < i :: Typed(ForSink(d, sinks[k].streamId, sinks[k].channel)) && out[k] == Fresh(sinks[k], id, d)
    {
      var s := sinks[i];
      PatchedIsFresh(e, s.streamId, s.channel);
      PatchArguments(buf, end, d.flags, s, WriteBinData(e));
      e := ForSink(d, s.streamId, s.channel);
      var header := MessageHeader(s.id, id);
      var start := LARGE_HEADER - |header|;
      ghost var args := buf[LARGE_HEADER..end];
      ghost var was := buf[..];
      PutData(buf, start, header);
      SpliceHeader(was, start, header, end);
      assert buf[start..end] == header + args && buf[LARGE_HEADER..end] == args;
      out := out + [buf[start..end]];
    }
  }

  lemma SpliceHeader(buf: Data, start: nat, header: Data, end: nat)
    requires start + |header| == LARGE_HEADER <= end <= |buf|
    ensures var buf' := Splice(buf, start, header);
            buf'[start..end] == header + buf[LARGE_HEADER..end] && buf'[LARGE_HEADER..end] == buf[LARGE_HEADER..end]
  {
    var buf' := Splice(buf, start, header);
    assert buf'[start..LARGE_HEADER] == header;
    assert buf'[start..end] == buf'[start..LARGE_HEADER] + buf'[LARGE_HEADER..end];
  }

  /** End to end: each sink reads its own ID, the source's ID, and the packet with its stream ID and channel. */
  lemma SinkReadsPacket(s: CachedSink, id: int, d: DataPacket)
    requires ValidSink(s) && ValidId(id) && Canonical(ForSink(d, s.streamId, s.channel))
    ensures var msg := Fresh(s, id, d);
            && IsBinary(msg) && MessageType(msg) == SINK_TYPE && Command(msg) == DATA_COMMAND && HeaderSize(msg) > 0
            && To(msg) == s.id && From(msg) == id
            && Parse(msg[HeaderSize(msg)..]) == Ok(ForSink(d, s.streamId, s.channel))
  {
    var e := ForSink(d, s.streamId, s.channel);
    HeaderIsRead(s.id, id, WriteBinData(e));
    DataRoundTrip(e);
    hide WriteBinData, Parse, MessageHeader, To, From, Canonical;
  }
}
