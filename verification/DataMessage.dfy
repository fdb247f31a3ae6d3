/**
 Binary data messages: what aoo/src/source.cpp writes (write_bin_data, send_packet), what
 aoo/src/sink.cpp reads (handle_data_message), and the message header of aoo/src/binmsg.hpp.

 Sample rates appear as the 64 bits of the double.
 */
module DataMessage {
  import opened Wrappers
  import opened Bytes
  import opened BigEndian
  import opened LowLatency

  const SAMPLE_RATE: nat := 0x01
  const FRAMES: nat := 0x02
  const STREAM_MESSAGE: nat := 0x04
  const XRUN: nat := 0x08
  const TIME_STAMP: nat := 0x10
  const LOW_LATENCY: nat := 0x20

  predicate Has(flags: nat, bit: nat)
    requires bit > 0
  {
    flags / bit % 2 == 1
  }

  /** The part of a packet that only low-latency streams use. */
  datatype Extra = Extra(
    version: nat, profile: nat, format: nat, position: nat, timestamp: nat, blockFrames: nat, channelCount: nat)

  const NO_EXTRA: Extra := Extra(0, 0, 0, 0, 0, 0, 0)

  datatype DataPacket = DataPacket(
    streamId: int, sequence: int, channel: nat, flags: nat, size: nat, total: nat, numFrames: nat, frameIndex: nat,
    msgSize: nat, sampleRate: nat, tt: nat, extra: Extra, data: Data)

  // ---------------------------------------------------------------- int32

  predicate Int32(i: int) { -0x8000_0000 <= i < 0x8000_0000 }

  /** The bits of an int32 as an unsigned number, and back. */
  function Unsigned(i: int): nat
    requires Int32(i)
  {
    if i < 0 then i + 0x1_0000_0000 else i
  }

  function Signed(v: nat): int {
    if v >= 0x8000_0000 then v - 0x1_0000_0000 else v
  }

  lemma FitsInt32(i: int)
    requires Int32(i)
    ensures Fits(4, Unsigned(i)) && Signed(Unsigned(i)) == i
  {
    assert Pow256(4) == 0x1_0000_0000;
  }

  // ---------------------------------------------------------------- writing

  function PrefixFields(d: DataPacket): (r: seq<Field>)
    requires Int32(d.streamId) && Int32(d.sequence)
  {
    [Field(4, Unsigned(d.streamId)), Field(4, Unsigned(d.sequence)), Field(1, d.channel), Field(1, d.flags), Field(2, d.size)]
  }

  function PrefixWidths(): (r: seq<nat>)
    ensures |r| == 5
  {
    [4, 4, 1, 1, 2]
  }

  function When<T>(b: bool, s: seq<T>): seq<T> { if b then s else [] }

  function OptionalFields(d: DataPacket): (r: seq<Field>) {
    When(Has(d.flags, FRAMES), [Field(4, d.total), Field(2, d.numFrames), Field(2, d.frameIndex)])
    + When(Has(d.flags, STREAM_MESSAGE), [Field(4, d.msgSize)])
    + When(Has(d.flags, SAMPLE_RATE), [Field(8, d.sampleRate)])
    + When(Has(d.flags, TIME_STAMP), [Field(8, d.tt)])
  }

  function OptionalWidths(flags: nat): (r: seq<nat>) {
    When(Has(flags, FRAMES), [4, 2, 2]) + When(Has(flags, STREAM_MESSAGE), [4])
    + When(Has(flags, SAMPLE_RATE), [8]) + When(Has(flags, TIME_STAMP), [8])
  }

  function HeaderFor(d: DataPacket): Header
    requires Int32(d.streamId) && Int32(d.sequence)
  {
    Header(d.extra.version, HEADER_SIZE, d.extra.profile, d.extra.format, 0, Unsigned(d.streamId), Unsigned(d.sequence),
           d.extra.position, d.extra.timestamp, d.extra.blockFrames, d.frameIndex, d.numFrames, d.extra.channelCount, d.size)
  }

  /** The values fit the integer types they are written as. */
  predicate Typed(d: DataPacket) {
    && Int32(d.streamId) && Int32(d.sequence)
    && FieldsFit(PrefixFields(d)) && FieldsFit(OptionalFields(d)) && |d.data| == d.size
    && (Has(d.flags, LOW_LATENCY) ==> HeaderTyped(HeaderFor(d)) && ValidHeader(HeaderFor(d)))
  }

  function LowLatencyPart(d: DataPacket): Data
    requires Typed(d)
  {
    if Has(d.flags, LOW_LATENCY) then HeaderBytes(HeaderFor(d)) else []
  }

  /** write_bin_data() */
  function WriteBinData(d: DataPacket): Data
    requires Typed(d)
  {
    Encode(PrefixFields(d)) + (Encode(OptionalFields(d)) + (LowLatencyPart(d) + d.data))
  }

  // ---------------------------------------------------------------- reading

  /** The optional fields, or what is used instead if they are absent. */
  function WithOptional(d: DataPacket, f: seq<Field>): DataPacket
    requires |f| == |OptionalWidths(d.flags)|
  {
    var frames, message, rate, time :=
      Has(d.flags, FRAMES), Has(d.flags, STREAM_MESSAGE), Has(d.flags, SAMPLE_RATE), Has(d.flags, TIME_STAMP);
    var i := if frames then 3 else 0;
    var j := if message then i + 1 else i;
    var k := if rate then j + 1 else j;
    d.(total := if frames then f[0].value else d.size,
       numFrames := if frames then f[1].value else if d.size > 0 then 1 else 0,
       frameIndex := if frames then f[2].value else 0,
       msgSize := if message then f[i].value else 0,
       sampleRate := if rate then f[j].value else 0,
       tt := if time then f[k].value else 0)
  }

  function PrefixOf(f: seq<Field>): DataPacket
    requires |f| == 5
  {
    DataPacket(Signed(f[0].value), Signed(f[1].value), f[2].value, f[3].value, f[4].value,
               0, 0, 0, 0, 0, 0, NO_EXTRA, [])
  }

  /** The header repeats some of the fields and must agree with them. */
  predicate Agrees(h: Header, d: DataPacket)
    requires Int32(d.streamId) && Int32(d.sequence)
  {
    && h.streamId == Unsigned(d.streamId) && h.sequence == Unsigned(d.sequence)
    && h.fragmentIndex == d.frameIndex && h.fragmentCount == d.numFrames && h.payload == d.size
  }

  function WithExtra(d: DataPacket, h: Header): DataPacket {
    d.(extra := Extra(h.version, h.profile, h.format, h.position, h.timestamp, h.blockFrames, h.channelCount))
  }

  function ParsePayload(d: DataPacket, s: Data): Result<DataPacket, Error> {
    if |s| < d.size then Err(BadFormat) else Ok(d.(data := s[..d.size]))
  }

  function ParseLowLatency(d: DataPacket, s: Data): Result<DataPacket, Error>
    requires Int32(d.streamId) && Int32(d.sequence)
  {
    if !Has(d.flags, LOW_LATENCY) then ParsePayload(d, s)
    else
      var h := DecodeHeader(s);
      if h.Err? || !Agrees(h.value, d) then Err(BadFormat)
      else ParsePayload(WithExtra(d, h.value), s[HEADER_SIZE..])
  }

  function ParseOptional(d: DataPacket, s: Data): Result<DataPacket, Error>
    requires Int32(d.streamId) && Int32(d.sequence)
  {
    var f := Decode(OptionalWidths(d.flags), s);
    if f.None? then Err(BadFormat)
    else ParseLowLatency(WithOptional(d, f.value), s[Sum(OptionalWidths(d.flags))..])
  }

  /** handle_data_message() up to the call of handle_data_packet() */
  function Parse(msg: Data): Result<DataPacket, Error> {
    var f := Decode(PrefixWidths(), msg);
    if f.None? || |msg| < 12 then Err(BadFormat)
    else
      PrefixInt32(f.value);
      ParseOptional(PrefixOf(f.value), msg[12..])
  }

  lemma PrefixInt32(f: seq<Field>)
    requires |f| == 5 && FieldsFit(f) && f[0].width == 4 && f[1].width == 4
    ensures Int32(PrefixOf(f).streamId) && Int32(PrefixOf(f).sequence)
  {
    assert Pow256(4) == 0x1_0000_0000;
    assert Fits(f[0].width, f[0].value) && Fits(f[1].width, f[1].value);
  }

  // ---------------------------------------------------------------- round trip

  /**
   A packet that the wire format can carry: a field whose flag is not set has the value that the
   reader assumes. `Emission` shows that everything the source builds is of this kind.
   */
  predicate Canonical(d: DataPacket) {
    && Typed(d)
    && (!Has(d.flags, FRAMES) ==> d.total == d.size && d.numFrames == (if d.size > 0 then 1 else 0) && d.frameIndex == 0)
    && (!Has(d.flags, STREAM_MESSAGE) ==> d.msgSize == 0)
    && (!Has(d.flags, SAMPLE_RATE) ==> d.sampleRate == 0)
    && (!Has(d.flags, TIME_STAMP) ==> d.tt == 0)
    && (!Has(d.flags, LOW_LATENCY) ==> d.extra == NO_EXTRA)
  }

  function Bare(d: DataPacket): DataPacket { d.(extra := NO_EXTRA, data := []) }

  lemma OptionalWidthsMatch(d: DataPacket)
    ensures Widths(OptionalFields(d)) == OptionalWidths(d.flags)
  {
    var a := When(Has(d.flags, FRAMES), [Field(4, d.total), Field(2, d.numFrames), Field(2, d.frameIndex)]);
    var b := When(Has(d.flags, STREAM_MESSAGE), [Field(4, d.msgSize)]);
    var c := When(Has(d.flags, SAMPLE_RATE), [Field(8, d.sampleRate)]);
    var e := When(Has(d.flags, TIME_STAMP), [Field(8, d.tt)]);
    assert Widths(a) == When(Has(d.flags, FRAMES), [4, 2, 2]) && Widths(b) == When(Has(d.flags, STREAM_MESSAGE), [4]);
    assert Widths(c) == When(Has(d.flags, SAMPLE_RATE), [8]) && Widths(e) == When(Has(d.flags, TIME_STAMP), [8]);
    hide When, Has;
    WidthsAppend(a + b + c, e);
    WidthsAppend(a + b, c);
    WidthsAppend(a, b);
  }

  lemma OptionalRecovered(d: DataPacket, d0: DataPacket)
    requires Canonical(d) && d0 == d.(total := 0, numFrames := 0, frameIndex := 0, msgSize := 0, sampleRate := 0, tt := 0, extra := NO_EXTRA, data := [])
    ensures |OptionalFields(d)| == |OptionalWidths(d.flags)| && WithOptional(d0, OptionalFields(d)) == Bare(d)
  {
    hide Typed;
    OptionalWidthsMatch(d);
  }

  lemma PrefixRecovered(d: DataPacket)
    requires Typed(d)
    ensures PrefixOf(PrefixFields(d)) ==
            d.(total := 0, numFrames := 0, frameIndex := 0, msgSize := 0, sampleRate := 0, tt := 0, extra := NO_EXTRA, data := [])
  {
    FitsInt32(d.streamId);
    FitsInt32(d.sequence);
    hide Typed;
  }

  lemma LowLatencyRecovered(d: DataPacket)
    requires Canonical(d)
    ensures ParseLowLatency(Bare(d), LowLatencyPart(d) + d.data) == Ok(d)
  {
    var s := LowLatencyPart(d) + d.data;
    if Has(d.flags, LOW_LATENCY) {
      var h := HeaderFor(d);
      HeaderRoundTrip(h, HEADER_SIZE, d.data);
      hide DecodeHeader, HeaderBytes, OptionalFields, PrefixFields, FieldsFit, ValidHeader, HeaderTyped;
      assert DecodeHeader(s) == Ok(h);
      assert s[HEADER_SIZE..] == d.data && d.data[..d.size] == d.data;
      assert WithExtra(Bare(d), h).(data := d.data) == d;
    } else {
      assert s == d.data && d.data[..d.size] == d.data;
    }
  }

  lemma OptionalParsed(d: DataPacket)
    requires Canonical(d)
    ensures var d0 := PrefixOf(PrefixFields(d));
            && Int32(d0.streamId) && Int32(d0.sequence)
            && ParseOptional(d0, Encode(OptionalFields(d)) + (LowLatencyPart(d) + d.data)) == Ok(d)
  {
    PrefixRecovered(d);
    OptionalRecovered(d, PrefixOf(PrefixFields(d)));
    OptionalWidthsMatch(d);
    var f, tail := OptionalFields(d), LowLatencyPart(d) + d.data;
    EncodeLength(f);
    DecodeEncode(f, tail);
    LowLatencyRecovered(d);
    hide Decode, Encode, OptionalFields, OptionalWidths, PrefixFields, PrefixOf, WithOptional, ParseLowLatency, LowLatencyPart, FieldsFit, Sum;
    assert (Encode(f) + tail)[Sum(OptionalWidths(d.flags))..] == tail;
  }

  lemma PrefixWidthSum(d: DataPacket)
    requires Int32(d.streamId) && Int32(d.sequence)
    ensures Widths(PrefixFields(d)) == PrefixWidths() && Sum(PrefixWidths()) == 12
  {
    assert [4, 4, 1, 1, 2][1..] == [4, 1, 1, 2] && [4, 1, 1, 2][1..] == [1, 1, 2] && [1, 1, 2][1..] == [1, 2] && [1, 2][1..] == [2];
  }

  /** Parsing what was written returns the same packet, for every combination of flags. */
  lemma DataRoundTrip(d: DataPacket)
    requires Canonical(d)
    ensures Parse(WriteBinData(d)) == Ok(d)
  {
    var f, tail := PrefixFields(d), Encode(OptionalFields(d)) + (LowLatencyPart(d) + d.data);
    PrefixWidthSum(d);
    EncodeLength(f);
    DecodeEncode(f, tail);
    OptionalParsed(d);
    hide Decode, Encode, OptionalFields, PrefixFields, PrefixOf, PrefixWidths, ParseOptional, LowLatencyPart, FieldsFit, Sum;
    assert (Encode(f) + tail)[12..] == tail;
  }

  lemma PrefixReturns(f: seq<Field>)
    requires |f| == 5 && FieldsFit(f) && forall i | 0 <= i < 5 :: f[i].width == PrefixWidths()[i]
    ensures Int32(PrefixOf(f).streamId) && Int32(PrefixOf(f).sequence) && PrefixFields(PrefixOf(f)) == f
  {
    PrefixInt32(f);
    assert Pow256(4) == 0x1_0000_0000;
    assert Fits(f[0].width, f[0].value) && Fits(f[1].width, f[1].value);
    hide Pow256, FieldsFit;
    var d := PrefixOf(f);
    assert Unsigned(d.streamId) == f[0].value && Unsigned(d.sequence) == f[1].value;
    forall i | 0 <= i < 5 ensures PrefixFields(d)[i] == f[i] {
      assert f[i].width == PrefixWidths()[i];
    }
  }

  lemma OptionalReturns(d: DataPacket, f: seq<Field>)
    requires |f| == |OptionalWidths(d.flags)| && forall i | 0 <= i < |f| :: f[i].width == OptionalWidths(d.flags)[i]
    ensures OptionalFields(WithOptional(d, f)) == f
  {
    hide Has;
    var g := OptionalFields(WithOptional(d, f));
    OptionalWidthsMatch(WithOptional(d, f));
    assert |g| == |f|;
    forall i | 0 <= i < |f| ensures g[i] == f[i] {
      assert f[i].width == OptionalWidths(d.flags)[i];
    }
  }

  /** The header that would be written for the parsed packet is the one that was read, without its flags. */
  lemma HeaderReturns(d: DataPacket, s: Data)
    requires Int32(d.streamId) && Int32(d.sequence) && DecodeHeader(s).Ok? && Agrees(DecodeHeader(s).value, d)
    ensures var h := HeaderFor(WithExtra(d, DecodeHeader(s).value)); HeaderTyped(h) && ValidHeader(h)
  {
    HeaderRoundTripBack(s, HEADER_SIZE);
    var h := DecodeHeader(s).value;
    hide DecodeHeader, EncodeHeader;
    assert HeaderFor(WithExtra(d, h)) == h.(flags := 0);
    FlagsDropped(h);
  }

  lemma FlagsDropped(h: Header)
    requires HeaderTyped(h)
    ensures HeaderTyped(h.(flags := 0))
  {
    assert forall i | 0 <= i < 14 && i != 4 :: HeaderFields(h.(flags := 0))[i] == HeaderFields(h)[i];
    assert Fits(2, 0);
    hide Fits;
  }

  /** Whatever the sink accepts is a packet that the format can carry. */
  lemma ParsedIsCanonical(msg: Data)
    requires Parse(msg).Ok?
    ensures Canonical(Parse(msg).value)
  {
    var f := Decode(PrefixWidths(), msg).value;
    PrefixReturns(f);
    var d0, s := PrefixOf(f), msg[12..];
    var g := Decode(OptionalWidths(d0.flags), s).value;
    OptionalReturns(d0, g);
    var d1, s1 := WithOptional(d0, g), s[Sum(OptionalWidths(d0.flags))..];
    assert d1 == d0.(total := d1.total, numFrames := d1.numFrames, frameIndex := d1.frameIndex, msgSize := d1.msgSize,
                     sampleRate := d1.sampleRate, tt := d1.tt);
    assert ParseLowLatency(d1, s1).Ok? && Parse(msg) == ParseLowLatency(d1, s1);
    LowLatencyCanonical(d0, d1, s1);
    hide PrefixFields, OptionalFields, ParseLowLatency, Decode, PrefixOf;
  }

  lemma LowLatencyCanonical(d0: DataPacket, d1: DataPacket, s: Data)
    requires Int32(d1.streamId) && Int32(d1.sequence) && FieldsFit(PrefixFields(d1)) && FieldsFit(OptionalFields(d1))
    requires |OptionalFields(d1)| == |OptionalWidths(d0.flags)| && d1 == WithOptional(d0, OptionalFields(d1)) && d0.extra == NO_EXTRA
    requires ParseLowLatency(d1, s).Ok?
    ensures Canonical(ParseLowLatency(d1, s).value)
  {
    var d := ParseLowLatency(d1, s).value;
    if Has(d1.flags, LOW_LATENCY) {
      HeaderReturns(d1, s);
      hide DecodeHeader, HeaderTyped, ValidHeader, FieldsFit;
      assert HeaderFor(d) == HeaderFor(WithExtra(d1, DecodeHeader(s).value));
    }
    assert PrefixFields(d) == PrefixFields(d1);
    assert OptionalFields(d) == OptionalFields(d1);
    hide PrefixFields, FieldsFit, HeaderTyped, ValidHeader, DecodeHeader;
  }

  /** So an accepted message, written again, is accepted as the same packet. */
  lemma AcceptedRoundTrips(msg: Data)
    requires Parse(msg).Ok?
    ensures Canonical(Parse(msg).value) && Parse(WriteBinData(Parse(msg).value)) == Parse(msg)
  {
    ParsedIsCanonical(msg);
    hide Parse, Canonical, WriteBinData;
    DataRoundTrip(Parse(msg).value);
  }

  /** What the rest of the sink relies on: a frame index below the frame count, or an empty block. */
  predicate WellNumbered(d: DataPacket) {
    if d.numFrames == 0 then d.frameIndex == 0 && d.size == 0 else d.frameIndex < d.numFrames
  }

  /**
   The parser sees to that exactly where it can derive or compare the numbers: without the frames
   fields, or with the low-latency header.
   */
  lemma AcceptedIsNumbered(msg: Data)
    requires Parse(msg).Ok?
    ensures var d := Parse(msg).value;
            !Has(d.flags, FRAMES) || Has(d.flags, LOW_LATENCY) ==> WellNumbered(d)
  {
    ParsedIsCanonical(msg);
    hide Parse, FieldsFit, HeaderTyped;
  }

  /** With the frames fields alone it accepts any two numbers. */
  lemma NumbersAreUnchecked(numFrames: nat, frameIndex: nat) returns (msg: Data)
    requires numFrames < 0x1_0000 && frameIndex < 0x1_0000
    ensures Parse(msg).Ok? && Parse(msg).value.numFrames == numFrames && Parse(msg).value.frameIndex == frameIndex
  {
    var d := DataPacket(0, 0, 0, FRAMES, 0, 0, numFrames, frameIndex, 0, 0, 0, NO_EXTRA, []);
    assert Pow256(1) == 256 && Pow256(2) == 0x1_0000;
    assert Pow256(4) == 0x1_0000 * Pow256(2);
    var f := OptionalFields(d);
    assert f == [Field(4, 0), Field(2, numFrames), Field(2, frameIndex)];
    assert Canonical(d);
    hide Pow256, OptionalFields, PrefixFields, Canonical, WriteBinData, Parse;
    DataRoundTrip(d);
    msg := WriteBinData(d);
  }
}
