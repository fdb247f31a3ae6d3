/**
 Where every field is in the messages of aoo/src/source.cpp (write_bin_data) and
 aoo/src/low_latency.cpp, byte by byte: the formats as a receiver written by somebody else sees them.
 */
module Layout {
  import opened Wrappers
  import opened Bytes
  import opened BigEndian
  import opened LowLatency
  import opened DataMessage
  import SendPacket

  /** The bytes are those of v, the most significant one first. */
  ghost predicate BytesOf(bytes: Data, v: nat) {
    forall i | 0 <= i < |bytes| :: bytes[i] == v / Pow256(|bytes| - 1 - i) % 256
  }

  /** Bytes `at` to `at + k` hold v. */
  ghost predicate Big(s: Data, at: nat, k: nat, v: nat) {
    at + k <= |s| && BytesOf(s[at..at + k], v)
  }

  // ---------------------------------------------------------------- fields behind each other

  lemma {:induction false} ByteAt(k: nat, v: nat, i: nat)
    requires Fits(k, v) && i < k
    ensures ToBytes(k, v)[i] == v / Pow256(k - 1 - i) % 256
  {
    if i < k - 1 {
      ByteAt(k - 1, v / 256, i);
      Shifted(v, k - 2 - i);
      assert ToBytes(k, v)[i] == ToBytes(k - 1, v / 256)[i];
    } else {
      assert Pow256(0) == 1;
    }
  }

  /** Where the i-th field begins. */
  function Offset(fields: seq<Field>, i: nat): nat
    requires i <= |fields|
  {
    if i == 0 then 0 else Offset(fields, i - 1) + fields[i - 1].width
  }

  lemma {:induction false} PrefixLength(fields: seq<Field>, i: nat)
    requires FieldsFit(fields) && i <= |fields|
    ensures |Encode(fields[..i])| == Offset(fields, i)
  {
    if i > 0 {
      PrefixLength(fields, i - 1);
      assert fields[..i] == fields[..i - 1] + [fields[i - 1]];
      EncodeAppend(fields[..i - 1], [fields[i - 1]]);
      EncodeSingle(fields[i - 1]);
      hide Encode;
    }
  }

  lemma EncodeSingle(f: Field)
    requires Fits(f.width, f.value)
    ensures FieldsFit([f]) && Encode([f]) == ToBytes(f.width, f.value)
  {
    assert [f][1..] == [];
    assert Encode([]) == [];
  }

  lemma CutSequence(fields: seq<Field>, i: nat)
    requires FieldsFit(fields) && i < |fields|
    ensures fields == fields[..i] + ([fields[i]] + fields[i + 1..])
    ensures FieldsFit(fields[..i]) && FieldsFit([fields[i]]) && FieldsFit(fields[i + 1..])
    ensures Fits(fields[i].width, fields[i].value)
  {
    hide Fits;
  }

  lemma CutAt(fields: seq<Field>, i: nat)
    requires FieldsFit(fields) && i < |fields|
    ensures var f := fields[i];
            && Fits(f.width, f.value) && FieldsFit(fields[..i]) && FieldsFit(fields[i + 1..])
            && |Encode(fields[..i])| == Offset(fields, i)
            && Encode(fields) == Encode(fields[..i]) + (ToBytes(f.width, f.value) + Encode(fields[i + 1..]))
  {
    var a, f, b := fields[..i], fields[i], fields[i + 1..];
    hide Encode, Offset, ToBytes, FieldsFit, Fits;
    CutSequence(fields, i);
    PrefixLength(fields, i);
    EncodeAppend([f], b);
    EncodeAppend(a, [f] + b);
    EncodeSingle(f);
  }

  lemma BigBytes(k: nat, v: nat)
    requires Fits(k, v)
    ensures BytesOf(ToBytes(k, v), v)
  {
    forall i | 0 <= i < k ensures ToBytes(k, v)[i] == v / Pow256(k - 1 - i) % 256 {
      ByteAt(k, v, i);
    }
  }

  /** A field of an encoded sequence with something before and after it. */
  lemma FieldAt(pre: Data, fields: seq<Field>, post: Data, i: nat)
    requires FieldsFit(fields) && i < |fields|
    ensures Big(pre + (Encode(fields) + post), |pre| + Offset(fields, i), fields[i].width, fields[i].value)
  {
    hide Encode, FieldsFit, ToBytes, Offset, BytesOf, Fits;
    CutAt(fields, i);
    var f := fields[i];
    BigBytes(f.width, f.value);
    Between(pre, Encode(fields[..i]), ToBytes(f.width, f.value), Encode(fields[i + 1..]), post);
  }

  lemma Between(pre: Data, a: Data, x: Data, b: Data, post: Data)
    ensures (pre + ((a + (x + b)) + post))[|pre| + |a|..|pre| + |a| + |x|] == x
    ensures |pre| + |a| + |x| <= |pre + ((a + (x + b)) + post)|
  {
  }

  lemma WholeLength(fields: seq<Field>)
    requires FieldsFit(fields)
    ensures |Encode(fields)| == Offset(fields, |fields|)
  {
    PrefixLength(fields, |fields|);
    assert fields[..|fields|] == fields;
  }

  // ---------------------------------------------------------------- low latency

  /** The header of a low-latency packet, at some place in a message. */
  ghost predicate HeaderAt(s: Data, at: nat, h: Header) {
    && at + 52 <= |s| && s[at..at + 4] == [0x41, 0x4f, 0x4c, 0x4c]
    && Big(s, at + 4, 2, h.version) && Big(s, at + 6, 2, h.headerSize) && Big(s, at + 8, 1, h.profile) && Big(s, at + 9, 1, h.format)
    && Big(s, at + 10, 2, h.flags) && Big(s, at + 12, 8, h.streamId) && Big(s, at + 20, 4, h.sequence)
    && Big(s, at + 24, 8, h.position) && Big(s, at + 32, 8, h.timestamp)
    && Big(s, at + 40, 2, h.blockFrames) && Big(s, at + 42, 2, h.fragmentIndex) && Big(s, at + 44, 2, h.fragmentCount)
    && Big(s, at + 46, 2, h.channelCount) && Big(s, at + 48, 4, h.payload)
  }

  lemma HeaderOffsets(h: Header)
    ensures var f := HeaderFields(h);
            && Offset(f, 0) == 0 && Offset(f, 1) == 2 && Offset(f, 2) == 4 && Offset(f, 3) == 5 && Offset(f, 4) == 6
            && Offset(f, 5) == 8 && Offset(f, 6) == 16 && Offset(f, 7) == 20 && Offset(f, 8) == 28 && Offset(f, 9) == 36
            && Offset(f, 10) == 38 && Offset(f, 11) == 40 && Offset(f, 12) == 42 && Offset(f, 13) == 44 && Offset(f, 14) == 48
  {
    var f := HeaderFields(h);
    OffsetStep(f, 0);
    OffsetStep(f, 1);
    OffsetStep(f, 2);
    OffsetStep(f, 3);
    OffsetStep(f, 4);
    OffsetStep(f, 5);
    OffsetStep(f, 6);
    OffsetStep(f, 7);
    OffsetStep(f, 8);
    OffsetStep(f, 9);
    OffsetStep(f, 10);
    OffsetStep(f, 11);
    OffsetStep(f, 12);
    OffsetStep(f, 13);
    hide Offset;
  }

  lemma OffsetStep(fields: seq<Field>, i: nat)
    requires i < |fields|
    ensures Offset(fields, 0) == 0 && Offset(fields, i + 1) == Offset(fields, i) + fields[i].width
  {
  }

  /** All fields of the header are where the format has them. */
  lemma HeaderLayout(pre: Data, h: Header, post: Data)
    requires HeaderTyped(h)
    ensures HeaderAt(pre + (HeaderBytes(h) + post), |pre|, h)
  {
    hide Encode, Big, Offset, HeaderFields, Magic;
    HeaderOffsets(h);
    TaggedIs(Magic(), pre, HeaderFields(h), post);
    HeaderFromFields(pre + (HeaderBytes(h) + post), |pre|, h);
  }

  /** A tag and all fields behind it. */
  lemma TaggedIs(tag: Data, pre: Data, f: seq<Field>, post: Data)
    requires FieldsFit(f)
    ensures var s := pre + (Tagged(tag, f) + post);
            && |pre| + |tag| + Offset(f, |f|) + |post| == |s| && s[|pre|..|pre| + |tag|] == tag
            && forall i | 0 <= i < |f| :: Big(s, |pre| + |tag| + Offset(f, i), f[i].width, f[i].value)
  {
    hide Encode, Big, Offset, FieldsFit;
    WholeLength(f);
    var s := pre + (Tagged(tag, f) + post);
    assert s == (pre + tag) + (Encode(f) + post);
    assert s[|pre|..|pre| + |tag|] == tag;
    hide Tagged;
    forall i | 0 <= i < |f| ensures Big(s, |pre| + |tag| + Offset(f, i), f[i].width, f[i].value) {
      FieldAt(pre + tag, f, post, i);
    }
  }

  lemma HeaderFromFields(s: Data, at: nat, h: Header)
    requires at + 52 <= |s| && s[at..at + 4] == Magic()
    requires var f := HeaderFields(h); forall i | 0 <= i < 14 :: Big(s, at + 4 + Offset(f, i), f[i].width, f[i].value)
    ensures HeaderAt(s, at, h)
  {
    var f := HeaderFields(h);
    HeaderOffsets(h);
    hide Big, Offset;
    assert Big(s, at + 4 + Offset(f, 0), f[0].width, f[0].value) && Big(s, at + 4 + Offset(f, 1), f[1].width, f[1].value);
    assert Big(s, at + 4 + Offset(f, 2), f[2].width, f[2].value) && Big(s, at + 4 + Offset(f, 3), f[3].width, f[3].value);
    assert Big(s, at + 4 + Offset(f, 4), f[4].width, f[4].value) && Big(s, at + 4 + Offset(f, 5), f[5].width, f[5].value);
    assert Big(s, at + 4 + Offset(f, 6), f[6].width, f[6].value) && Big(s, at + 4 + Offset(f, 7), f[7].width, f[7].value);
    assert Big(s, at + 4 + Offset(f, 8), f[8].width, f[8].value) && Big(s, at + 4 + Offset(f, 9), f[9].width, f[9].value);
    assert Big(s, at + 4 + Offset(f, 10), f[10].width, f[10].value) && Big(s, at + 4 + Offset(f, 11), f[11].width, f[11].value);
    assert Big(s, at + 4 + Offset(f, 12), f[12].width, f[12].value) && Big(s, at + 4 + Offset(f, 13), f[13].width, f[13].value);
  }

  /** The configuration of a low-latency stream. */
  ghost predicate ConfigurationAt(s: Data, c: Configuration) {
    && |s| == 92 && s[..4] == [0x41, 0x4f, 0x4c, 0x53] && s[28..] == c.channelMap
    && Big(s, 4, 2, c.version) && Big(s, 6, 1, c.profile) && Big(s, 7, 1, c.format)
    && Big(s, 8, 2, c.channelCount) && Big(s, 10, 2, c.blockFrames) && Big(s, 12, 2, c.datagramBytes)
    && Big(s, 14, 2, c.channelMapCount) && Big(s, 16, 4, c.sampleRate)
    && Big(s, 20, 4, c.targetLatencyFrames) && Big(s, 24, 4, c.capabilities)
  }

  lemma ConfigurationOffsets(c: Configuration)
    ensures var f := ConfigurationFields(c);
            && Offset(f, 0) == 0 && Offset(f, 1) == 2 && Offset(f, 2) == 3 && Offset(f, 3) == 4 && Offset(f, 4) == 6
            && Offset(f, 5) == 8 && Offset(f, 6) == 10 && Offset(f, 7) == 12 && Offset(f, 8) == 16 && Offset(f, 9) == 20
            && Offset(f, 10) == 24
  {
    var f := ConfigurationFields(c);
    OffsetStep(f, 0);
    OffsetStep(f, 1);
    OffsetStep(f, 2);
    OffsetStep(f, 3);
    OffsetStep(f, 4);
    OffsetStep(f, 5);
    OffsetStep(f, 6);
    OffsetStep(f, 7);
    OffsetStep(f, 8);
    OffsetStep(f, 9);
    hide Offset;
  }

  lemma ConfigurationFromFields(s: Data, c: Configuration)
    requires |s| == 92 && s[..4] == ConfigurationMagic() && s[28..] == c.channelMap
    requires var f := ConfigurationFields(c); forall i | 0 <= i < 10 :: Big(s, 4 + Offset(f, i), f[i].width, f[i].value)
    ensures ConfigurationAt(s, c)
  {
    var f := ConfigurationFields(c);
    ConfigurationOffsets(c);
    hide Big, Offset;
    assert Big(s, 4 + Offset(f, 0), f[0].width, f[0].value) && Big(s, 4 + Offset(f, 1), f[1].width, f[1].value);
    assert Big(s, 4 + Offset(f, 2), f[2].width, f[2].value) && Big(s, 4 + Offset(f, 3), f[3].width, f[3].value);
    assert Big(s, 4 + Offset(f, 4), f[4].width, f[4].value) && Big(s, 4 + Offset(f, 5), f[5].width, f[5].value);
    assert Big(s, 4 + Offset(f, 6), f[6].width, f[6].value) && Big(s, 4 + Offset(f, 7), f[7].width, f[7].value);
    assert Big(s, 4 + Offset(f, 8), f[8].width, f[8].value) && Big(s, 4 + Offset(f, 9), f[9].width, f[9].value);
  }

  /** All fields of the configuration are where the format has them. */
  lemma ConfigurationLayout(c: Configuration, room: nat)
    requires ConfigurationTyped(c) && EncodeConfiguration(c, room).Ok?
    ensures ConfigurationAt(EncodeConfiguration(c, room).value, c)
  {
    hide Encode, Big, Offset, ConfigurationFields, ConfigurationMagic, Tagged, ValidConfiguration;
    var s, f := EncodeConfiguration(c, room).value, ConfigurationFields(c);
    ConfigurationOffsets(c);
    TaggedIs(ConfigurationMagic(), [], f, c.channelMap);
    assert [] + (Tagged(ConfigurationMagic(), f) + c.channelMap) == s;
    assert s[0..4] == s[..4];
    assert s[28..] == c.channelMap;
    ConfigurationFromFields(s, c);
  }

  // ---------------------------------------------------------------- data messages

  /** The fields of a data message; what is absent takes no room. */
  ghost predicate MessageIs(s: Data, d: DataPacket)
    requires Int32(d.streamId) && Int32(d.sequence)
  {
    var frames, message, rate, time, low :=
      Has(d.flags, FRAMES), Has(d.flags, STREAM_MESSAGE), Has(d.flags, SAMPLE_RATE), Has(d.flags, TIME_STAMP), Has(d.flags, LOW_LATENCY);
    var a := if frames then 20 else 12;
    var b := if message then a + 4 else a;
    var c := if rate then b + 8 else b;
    var e := if time then c + 8 else c;
    var end := if low then e + 52 else e;
    && Big(s, 0, 4, Unsigned(d.streamId)) && Big(s, 4, 4, Unsigned(d.sequence))
    && Big(s, 8, 1, d.channel) && Big(s, 9, 1, d.flags) && Big(s, 10, 2, d.size)
    && (frames ==> Big(s, 12, 4, d.total) && Big(s, 16, 2, d.numFrames) && Big(s, 18, 2, d.frameIndex))
    && (message ==> Big(s, a, 4, d.msgSize)) && (rate ==> Big(s, b, 8, d.sampleRate)) && (time ==> Big(s, c, 8, d.tt))
    && (low ==> HeaderAt(s, e, Header(d.extra.version, 52, d.extra.profile, d.extra.format, 0, Unsigned(d.streamId),
                                      Unsigned(d.sequence), d.extra.position, d.extra.timestamp, d.extra.blockFrames,
                                      d.frameIndex, d.numFrames, d.extra.channelCount, d.size)))
    && end <= |s| && s[end..] == d.data
  }

  lemma PrefixOffsets(d: DataPacket)
    requires Int32(d.streamId) && Int32(d.sequence)
    ensures var f := PrefixFields(d);
            Offset(f, 0) == 0 && Offset(f, 1) == 4 && Offset(f, 2) == 8 && Offset(f, 3) == 9 && Offset(f, 4) == 10 && Offset(f, 5) == 12
  {
    var f := PrefixFields(d);
    OffsetStep(f, 0);
    OffsetStep(f, 1);
    OffsetStep(f, 2);
    OffsetStep(f, 3);
    OffsetStep(f, 4);
    hide Offset;
  }

  /** Which optional field is where in the sequence of those that are present. */
  lemma OptionalOffsets(d: DataPacket)
    ensures var f := OptionalFields(d);
            var i := if Has(d.flags, FRAMES) then 3 else 0;
            var j := if Has(d.flags, STREAM_MESSAGE) then i + 1 else i;
            var k := if Has(d.flags, SAMPLE_RATE) then j + 1 else j;
            var n := if Has(d.flags, TIME_STAMP) then k + 1 else k;
            && |f| == n && Offset(f, i) == (if Has(d.flags, FRAMES) then 8 else 0)
            && Offset(f, j) == Offset(f, i) + (if Has(d.flags, STREAM_MESSAGE) then 4 else 0)
            && Offset(f, k) == Offset(f, j) + (if Has(d.flags, SAMPLE_RATE) then 8 else 0)
            && Offset(f, n) == Offset(f, k) + (if Has(d.flags, TIME_STAMP) then 8 else 0)
            && (Has(d.flags, FRAMES) ==>
                  && Offset(f, 0) == 0 && Offset(f, 1) == 4 && Offset(f, 2) == 6
                  && f[0] == Field(4, d.total) && f[1] == Field(2, d.numFrames) && f[2] == Field(2, d.frameIndex))
            && (Has(d.flags, STREAM_MESSAGE) ==> f[i] == Field(4, d.msgSize))
            && (Has(d.flags, SAMPLE_RATE) ==> f[j] == Field(8, d.sampleRate))
            && (Has(d.flags, TIME_STAMP) ==> f[k] == Field(8, d.tt))
  {
    hide Has;
    var f := OptionalFields(d);
    var i := if Has(d.flags, FRAMES) then 3 else 0;
    var j := if Has(d.flags, STREAM_MESSAGE) then i + 1 else i;
    var k := if Has(d.flags, SAMPLE_RATE) then j + 1 else j;
    if Has(d.flags, FRAMES) {
      OffsetStep(f, 0);
      OffsetStep(f, 1);
      OffsetStep(f, 2);
    }
    if Has(d.flags, STREAM_MESSAGE) {
      OffsetStep(f, i);
    }
    if Has(d.flags, SAMPLE_RATE) {
      OffsetStep(f, j);
    }
    if Has(d.flags, TIME_STAMP) {
      OffsetStep(f, k);
    }
  }

  /** The fields of a sequence somewhere in a message. */
  lemma FieldsAt(s: Data, pre: Data, f: seq<Field>, post: Data)
    requires FieldsFit(f) && s == pre + (Encode(f) + post)
    ensures |Encode(f)| == Offset(f, |f|)
    ensures forall i | 0 <= i < |f| :: Big(s, |pre| + Offset(f, i), f[i].width, f[i].value)
  {
    hide Encode, Big, Offset, FieldsFit;
    WholeLength(f);
    forall i | 0 <= i < |f| ensures Big(s, |pre| + Offset(f, i), f[i].width, f[i].value) {
      FieldAt(pre, f, post, i);
    }
  }

  lemma PrefixLayout(s: Data, d: DataPacket, post: Data)
    requires Typed(d) && s == Encode(PrefixFields(d)) + post
    ensures |Encode(PrefixFields(d))| == 12
    ensures Big(s, 0, 4, Unsigned(d.streamId)) && Big(s, 4, 4, Unsigned(d.sequence))
    ensures Big(s, 8, 1, d.channel) && Big(s, 9, 1, d.flags) && Big(s, 10, 2, d.size)
  {
    var f := PrefixFields(d);
    PrefixOffsets(d);
    hide Encode, Big, Offset, OptionalFields, FieldsFit, HeaderTyped, ValidHeader;
    assert [] + (Encode(f) + post) == s;
    FieldsAt(s, [], f, post);
    assert Big(s, 0 + Offset(f, 0), f[0].width, f[0].value) && Big(s, 0 + Offset(f, 1), f[1].width, f[1].value);
    assert Big(s, 0 + Offset(f, 2), f[2].width, f[2].value) && Big(s, 0 + Offset(f, 3), f[3].width, f[3].value);
    assert Big(s, 0 + Offset(f, 4), f[4].width, f[4].value);
  }

  lemma OptionalLayout(s: Data, d: DataPacket, pre: Data, post: Data)
    requires FieldsFit(OptionalFields(d)) && |pre| == 12 && s == pre + (Encode(OptionalFields(d)) + post)
    ensures var a := if Has(d.flags, FRAMES) then 20 else 12;
            var b := if Has(d.flags, STREAM_MESSAGE) then a + 4 else a;
            var c := if Has(d.flags, SAMPLE_RATE) then b + 8 else b;
            var e := if Has(d.flags, TIME_STAMP) then c + 8 else c;
            && (Has(d.flags, FRAMES) ==> Big(s, 12, 4, d.total) && Big(s, 16, 2, d.numFrames) && Big(s, 18, 2, d.frameIndex))
            && (Has(d.flags, STREAM_MESSAGE) ==> Big(s, a, 4, d.msgSize))
            && (Has(d.flags, SAMPLE_RATE) ==> Big(s, b, 8, d.sampleRate))
            && (Has(d.flags, TIME_STAMP) ==> Big(s, c, 8, d.tt))
            && |Encode(OptionalFields(d))| == e - 12
  {
    var f := OptionalFields(d);
    hide Encode, Big, Offset, Has, OptionalFields, FieldsFit;
    OptionalOffsets(d);
    FieldsAt(s, pre, f, post);
    var i := if Has(d.flags, FRAMES) then 3 else 0;
    var j := if Has(d.flags, STREAM_MESSAGE) then i + 1 else i;
    var k := if Has(d.flags, SAMPLE_RATE) then j + 1 else j;
    if Has(d.flags, FRAMES) {
      assert Big(s, 12 + Offset(f, 0), f[0].width, f[0].value) && Big(s, 12 + Offset(f, 1), f[1].width, f[1].value);
      assert Big(s, 12 + Offset(f, 2), f[2].width, f[2].value);
    }
    if Has(d.flags, STREAM_MESSAGE) {
      assert Big(s, 12 + Offset(f, i), f[i].width, f[i].value);
    }
    if Has(d.flags, SAMPLE_RATE) {
      assert Big(s, 12 + Offset(f, j), f[j].width, f[j].value);
    }
    if Has(d.flags, TIME_STAMP) {
      assert Big(s, 12 + Offset(f, k), f[k].width, f[k].value);
    }
  }

  /** Every field of a data message is where the format has it, for every combination of flags. */
  lemma MessageLayout(d: DataPacket)
    requires Typed(d)
    ensures MessageIs(WriteBinData(d), d)
  {
    hide Encode, Big, Has, OptionalFields, PrefixFields, FieldsFit, HeaderTyped, ValidHeader, HeaderAt, HeaderBytes, LowLatencyPart;
    var s, p, o, l := WriteBinData(d), Encode(PrefixFields(d)), Encode(OptionalFields(d)), LowLatencyPart(d);
    PrefixLayout(s, d, o + (l + d.data));
    OptionalLayout(s, d, p, l + d.data);
    Tail(p, o, l, d.data);
    hide WriteBinData;
    LowLatencyLayout(s, d, p + o);
  }

  lemma Tail(p: Data, o: Data, l: Data, data: Data)
    ensures (p + (o + (l + data)))[|p| + |o| + |l|..] == data
    ensures p + (o + (l + data)) == (p + o) + (l + data) && |p + o| == |p| + |o|
  {
  }

  lemma LowLatencyLayout(s: Data, d: DataPacket, pre: Data)
    requires Typed(d) && s == pre + (LowLatencyPart(d) + d.data)
    ensures Has(d.flags, LOW_LATENCY) ==>
              && |LowLatencyPart(d)| == 52
              && HeaderAt(s, |pre|, Header(d.extra.version, 52, d.extra.profile, d.extra.format, 0, Unsigned(d.streamId),
                                           Unsigned(d.sequence), d.extra.position, d.extra.timestamp, d.extra.blockFrames,
                                           d.frameIndex, d.numFrames, d.extra.channelCount, d.size))
    ensures !Has(d.flags, LOW_LATENCY) ==> LowLatencyPart(d) == []
  {
    if Has(d.flags, LOW_LATENCY) {
      HeaderLayout(pre, HeaderFor(d), d.data);
      HeaderLength52(HeaderFor(d));
    }
    hide HeaderAt, HeaderBytes, HeaderTyped, FieldsFit, OptionalFields, PrefixFields;
  }

  lemma HeaderLength52(h: Header)
    requires HeaderTyped(h)
    ensures |HeaderBytes(h)| == 52
  {
    WholeLength(HeaderFields(h));
    HeaderOffsets(h);
    hide Encode, Offset, HeaderFields;
  }

  // ---------------------------------------------------------------- the message header

  /** A data message to a sink: four bytes for IDs below 256, else twelve with the IDs as words. */
  ghost predicate AddressedTo(s: Data, to: int, from: int)
    requires 0 <= to && 0 <= from
  {
    if to < 256 && from < 256 then s == [0x81, 0x00, to, from]
    else |s| == 12 && s[..4] == [0x81, 0x80, 0, 0] && Big(s, 4, 4, to) && Big(s, 8, 4, from)
  }

  lemma MessageHeaderLayout(to: int, from: int)
    requires SendPacket.ValidId(to) && SendPacket.ValidId(from)
    ensures AddressedTo(SendPacket.MessageHeader(to, from), to, from)
  {
    if to >= 256 || from >= 256 {
      FitsInt32(to);
      FitsInt32(from);
      BigBytes(4, to);
      BigBytes(4, from);
      hide ToBytes, BytesOf, Fits;
      var s := SendPacket.MessageHeader(to, from);
      assert s[4..8] == ToBytes(4, to) && s[8..12] == ToBytes(4, from);
    }
  }
}
