/**
 The data packets that aoo/src/source.cpp builds: send_data and send_xruns for new blocks,
 resend_data for requested ones. Each of them is a packet that the wire format can carry, so the
 sink reads exactly what was built, and what it queues is a frame of the block that was sent.

 A sample rate of zero has the bits zero.
 */
module Emission {
  import opened Wrappers
  import opened Arithmetic
  import opened Bytes
  import opened BigEndian
  import opened LowLatency
  import opened Fragments
  import opened Resend
  import opened DataMessage
  import Receive
  import EndToEnd

  const UINT64: nat := 0x1_0000_0000_0000_0000

  /** What goes with the bytes of a block. */
  datatype Tags = Tags(msgSize: nat, sampleRate: nat, tt: nat, position: nat, timestamp: nat)

  /** The stream as one sink knows it; `profile` is there if it is a low-latency stream. */
  datatype Stream = Stream(id: int, channel: nat, profile: Option<Configuration>)

  function Bit(b: bool, bit: nat): nat { if b then bit else 0 }

  function Flags(rate: bool, frames: bool, message: bool, xrun: bool, time: bool, low: bool): nat {
    Bit(rate, SAMPLE_RATE) + Bit(frames, FRAMES) + Bit(message, STREAM_MESSAGE) + Bit(xrun, XRUN)
    + Bit(time, TIME_STAMP) + Bit(low, LOW_LATENCY)
  }

  /** The low-latency fields. send_data sets the time stamp in any case, but it is not written then. */
  function ExtraOf(st: Stream, position: nat, timestamp: nat): Extra {
    if st.profile.None? then NO_EXTRA.(timestamp := timestamp)
    else
      var c := st.profile.value;
      Extra(c.version, c.profile, c.format, position, timestamp, c.blockFrames, c.channelCount)
  }

  /** send_data(): the packet for frame f of block b */
  function DataFor(st: Stream, b: Sent, m: Tags, f: Frame): DataPacket {
    var flags := Flags(m.sampleRate != 0, b.numFrames > 1, m.msgSize > 0, false, m.tt != 0, st.profile.Some?);
    DataPacket(st.id, b.sequence, st.channel, flags, |f.data|, |b.data|, b.numFrames, f.index,
               m.msgSize, m.sampleRate, m.tt, ExtraOf(st, m.position, m.timestamp), f.data)
  }

  /** send_xruns(): the packet for an empty block */
  function XrunFor(st: Stream, sequence: int, position: nat): DataPacket {
    DataPacket(st.id, sequence, st.channel, Flags(false, false, false, true, false, st.profile.Some?), 0, 0, 0, 0,
               0, 0, 0, ExtraOf(st, position, 0), [])
  }

  /** resend_data(): the flags are those of the first time, but the time tag is not kept. */
  function Again(d: DataPacket, st: Stream, f: Frame): DataPacket {
    d.(streamId := st.id, channel := st.channel, tt := 0, size := |f.data|, frameIndex := f.index, data := f.data)
  }

  /** f is one of the frames that the send loop or a reply consists of. */
  ghost predicate PartOf(f: Frame, b: Sent)
    requires WellCut(b)
  {
    if b.numFrames == 0 then f == Frame(0, []) else f.index < b.numFrames && f.data == Chunk(b, f.index)
  }

  /** What the types of the source allow, and a configuration that make_new_stream has accepted. */
  ghost predicate InRange(st: Stream) {
    && Int32(st.id) && st.channel < 0x100
    && (st.profile.Some? ==> ConfigurationTyped(st.profile.value) && ValidConfiguration(st.profile.value))
  }

  ghost predicate BlockInRange(b: Sent, m: Tags) {
    && 0 <= b.sequence < INT32_MAX && |b.data| <= INT32_MAX && b.frameSize < 0x1_0000 && b.numFrames < 0x1_0000
    && m.msgSize <= |b.data| && m.sampleRate < UINT64 && m.tt < UINT64 && m.position < UINT64 && m.timestamp < UINT64
  }

  /** How a packet came about. */
  datatype Origin =
    | New(stream: Stream, block: Sent, tags: Tags, frame: Frame)
    | Xrun(stream: Stream, sequence: int, position: nat)
    | Resent(first: Origin, stream: Stream, frame: Frame)

  function Built(o: Origin): DataPacket {
    match o
    case New(st, b, m, f) => DataFor(st, b, m, f)
    case Xrun(st, q, position) => XrunFor(st, q, position)
    case Resent(first, st, f) => Again(Built(first), st, f)
  }

  /** The block that the packet belongs to, as the history keeps it. */
  function BlockOf(o: Origin): Sent {
    match o
    case New(_, b, _, _) => b
    case Xrun(_, q, _) => Sent(q, 0, 0, [])
    case Resent(first, _, _) => BlockOf(first)
  }

  ghost predicate Genuine(o: Origin) {
    InRange(o.stream) &&
    match o
    case New(_, b, m, f) => WellCut(b) && BlockInRange(b, m) && PartOf(f, b)
    case Xrun(_, q, position) => 0 <= q < INT32_MAX && position < UINT64
    case Resent(first, _, f) => !first.Resent? && Genuine(first) && WellCut(BlockOf(first)) && PartOf(f, BlockOf(first))
  }

  // ---------------------------------------------------------------- flags and ranges

  lemma FlagsRead(rate: bool, frames: bool, message: bool, xrun: bool, time: bool, low: bool)
    ensures var flags := Flags(rate, frames, message, xrun, time, low);
            && flags < 0x100
            && (Has(flags, SAMPLE_RATE) <==> rate) && (Has(flags, FRAMES) <==> frames)
            && (Has(flags, STREAM_MESSAGE) <==> message) && (Has(flags, XRUN) <==> xrun)
            && (Has(flags, TIME_STAMP) <==> time) && (Has(flags, LOW_LATENCY) <==> low)
  {
  }

  lemma Powers()
    ensures Pow256(1) == 0x100 && Pow256(2) == 0x1_0000 && Pow256(4) == 0x1_0000_0000 && Pow256(8) == UINT64
  {
    assert Pow256(2) == 256 * Pow256(1) && Pow256(4) == 256 * Pow256(3) && Pow256(3) == 256 * Pow256(2);
    assert Pow256(8) == 256 * Pow256(7) && Pow256(7) == 256 * Pow256(6) && Pow256(6) == 256 * Pow256(5) && Pow256(5) == 256 * Pow256(4);
  }

  /** The numbers fit the integers they are written as. */
  predicate Small(d: DataPacket) {
    && Int32(d.streamId) && Int32(d.sequence) && d.channel < 0x100 && d.flags < 0x100
    && d.size < 0x1_0000 && |d.data| == d.size && d.total < 0x1_0000_0000 && d.numFrames < 0x1_0000 && d.frameIndex < 0x1_0000
    && d.msgSize < 0x1_0000_0000 && d.sampleRate < UINT64 && d.tt < UINT64
  }

  predicate SmallExtra(x: Extra) {
    && x.version == PROTOCOL_VERSION && ValidProfileFormat(x.profile, x.format) && x.position < UINT64 && x.timestamp < UINT64
    && 0 < x.blockFrames < 0x1_0000 && 0 < x.channelCount <= MAX_CHANNELS
  }

  lemma PrefixFits(d: DataPacket)
    requires Small(d)
    ensures FieldsFit(PrefixFields(d))
  {
    Powers();
    FitsInt32(d.streamId);
    FitsInt32(d.sequence);
    hide Pow256;
  }

  lemma OptionalFit(d: DataPacket)
    requires Small(d)
    ensures FieldsFit(OptionalFields(d))
  {
    Powers();
    hide Pow256, Has;
  }

  lemma HeaderFits(d: DataPacket)
    requires Small(d) && SmallExtra(d.extra) && WellNumbered(d)
    ensures HeaderTyped(HeaderFor(d)) && ValidHeader(HeaderFor(d))
  {
    Powers();
    FitsInt32(d.streamId);
    FitsInt32(d.sequence);
    hide Pow256;
    var f := HeaderFields(HeaderFor(d));
    assert FieldsFit(f[..7]) && FieldsFit(f[7..]);
  }

  lemma SmallIsTyped(d: DataPacket)
    requires Small(d) && (Has(d.flags, LOW_LATENCY) ==> SmallExtra(d.extra) && WellNumbered(d))
    ensures Typed(d)
  {
    PrefixFits(d);
    OptionalFit(d);
    if Has(d.flags, LOW_LATENCY) {
      HeaderFits(d);
    }
    hide FieldsFit, HeaderTyped, ValidHeader, SmallExtra;
  }

  lemma ExtraFits(st: Stream, position: nat, timestamp: nat)
    requires InRange(st) && st.profile.Some? && position < UINT64 && timestamp < UINT64
    ensures SmallExtra(ExtraOf(st, position, timestamp))
  {
    Powers();
    var c := st.profile.value;
    assert ConfigurationFields(c)[4] == Field(2, c.blockFrames);
    hide Pow256;
  }

  /** The size of a frame, and what it says about the block if there is only one. */
  lemma PartSize(f: Frame, b: Sent)
    requires WellCut(b) && PartOf(f, b)
    ensures |f.data| <= b.frameSize && (f.data == [] <==> b.numFrames == 0)
    ensures b.numFrames == 0 ==> b.data == []
    ensures b.numFrames == 1 ==> f.data == b.data
  {
    if b.frameSize > 0 {
      ChunkCount(b.data, b.frameSize);
      if b.numFrames == 0 {
        ChunksConcat(b.data, b.frameSize);
      } else {
        ChunkAt(b.data, b.frameSize, f.index);
      }
    }
  }

  // ---------------------------------------------------------------- what the sink reads

  /** What the optional parts of the message stand for. */
  predicate Matches(d: DataPacket) {
    && (!Has(d.flags, FRAMES) ==> d.total == d.size && d.numFrames == (if d.size > 0 then 1 else 0) && d.frameIndex == 0)
    && (!Has(d.flags, STREAM_MESSAGE) ==> d.msgSize == 0)
    && (!Has(d.flags, SAMPLE_RATE) ==> d.sampleRate == 0)
    && (!Has(d.flags, TIME_STAMP) ==> d.tt == 0)
  }

  predicate Proper(d: DataPacket) {
    Small(d) && WellNumbered(d) && Matches(d) && (Has(d.flags, LOW_LATENCY) ==> SmallExtra(d.extra))
  }

  /** The packet without what is not written. */
  function OnWire(d: DataPacket): DataPacket {
    if Has(d.flags, LOW_LATENCY) then d else d.(extra := NO_EXTRA)
  }

  lemma ProperIsRead(d: DataPacket)
    requires Proper(d)
    ensures Typed(d) && Canonical(OnWire(d)) && Parse(WriteBinData(d)) == Ok(OnWire(d))
  {
    var w := OnWire(d);
    SmallIsTyped(d);
    SmallIsTyped(w);
    assert Canonical(w) by {
      hide Typed, Small;
    }
    hide Small, Canonical, Parse;
    DataRoundTrip(w);
    assert WriteBinData(d) == WriteBinData(w) by {
      assert PrefixFields(d) == PrefixFields(w) && OptionalFields(d) == OptionalFields(w);
      hide PrefixFields, OptionalFields, FieldsFit, HeaderBytes;
    }
  }

  lemma NewIsProper(st: Stream, b: Sent, m: Tags, f: Frame)
    requires InRange(st) && WellCut(b) && BlockInRange(b, m) && PartOf(f, b)
    ensures Proper(DataFor(st, b, m, f))
  {
    PartSize(f, b);
    FlagsRead(m.sampleRate != 0, b.numFrames > 1, m.msgSize > 0, false, m.tt != 0, st.profile.Some?);
    if st.profile.Some? {
      ExtraFits(st, m.position, m.timestamp);
    }
    hide Flags, Has, SmallExtra, ConfigurationTyped, ValidConfiguration, Chunk, NumFrames;
  }

  lemma XrunIsProper(st: Stream, q: int, position: nat)
    requires InRange(st) && 0 <= q < INT32_MAX && position < UINT64
    ensures Proper(XrunFor(st, q, position))
  {
    FlagsRead(false, false, false, true, false, st.profile.Some?);
    if st.profile.Some? {
      ExtraFits(st, position, 0);
    }
    hide Flags, Has, SmallExtra, ConfigurationTyped, ValidConfiguration;
  }

  /** The numbers of a packet are those of its block. */
  predicate About(d: DataPacket, b: Sent) {
    && d.sequence == b.sequence && d.total == |b.data| && d.numFrames == b.numFrames
    && (!Has(d.flags, FRAMES) ==> b.numFrames <= 1)
  }

  lemma AgainIsProper(d: DataPacket, b: Sent, st: Stream, f: Frame)
    requires Proper(d) && About(d, b) && InRange(st) && WellCut(b) && PartOf(f, b) && b.frameSize < 0x1_0000
    ensures Proper(Again(d, st, f)) && About(Again(d, st, f), b)
  {
    PartSize(f, b);
    hide Has, SmallExtra, ConfigurationTyped, ValidConfiguration, Chunk, NumFrames;
  }

  lemma {:induction false} EmittedIsProper(o: Origin)
    requires Genuine(o)
    ensures Proper(Built(o)) && About(Built(o), BlockOf(o)) && WellCut(BlockOf(o)) && BlockOf(o).frameSize < 0x1_0000
    ensures 0 <= BlockOf(o).sequence < INT32_MAX
    ensures PartOf(Frame(Built(o).frameIndex, Built(o).data), BlockOf(o))
  {
    hide Proper, InRange;
    match o {
      case New(st, b, m, f) =>
        NewIsProper(st, b, m, f);
        FlagsRead(m.sampleRate != 0, b.numFrames > 1, m.msgSize > 0, false, m.tt != 0, st.profile.Some?);
      case Xrun(st, q, position) =>
        XrunIsProper(st, q, position);
      case Resent(first, st, f) =>
        EmittedIsProper(first);
        AgainIsProper(Built(first), BlockOf(first), st, f);
    }
  }

  /** Every packet that the source builds is read by the sink as it was built. */
  lemma EmittedIsRead(o: Origin)
    requires Genuine(o)
    ensures var d := Built(o); Typed(d) && Canonical(OnWire(d)) && Parse(WriteBinData(d)) == Ok(OnWire(d))
  {
    EmittedIsProper(o);
    hide Proper, Genuine, Built, BlockOf, Parse, WriteBinData, Canonical, Typed;
    ProperIsRead(Built(o));
  }

  /** What goes with the block that the packet belongs to. */
  function TagsOf(o: Origin): Tags {
    match o
    case New(_, _, m, _) => m
    case Xrun(_, _, position) => Tags(0, 0, 0, position, 0)
    case Resent(first, _, _) => TagsOf(first)
  }

  /** The configuration of the stream that the block was sent in first. */
  function ProfileOf(o: Origin): Option<Configuration> {
    match o
    case New(st, _, _, _) => st.profile
    case Xrun(st, _, _) => st.profile
    case Resent(first, _, _) => ProfileOf(first)
  }

  /** What the sink reads, whether the packet is new or resent, is what the source knows of block, stream and frame. */
  lemma EmittedSays(o: Origin)
    requires Genuine(o)
    ensures Typed(Built(o)) && Parse(WriteBinData(Built(o))).Ok?
    ensures var w, b, m, p := Parse(WriteBinData(Built(o))).value, BlockOf(o), TagsOf(o), ProfileOf(o);
            && w.streamId == o.stream.id && w.channel == o.stream.channel && w.sequence == b.sequence
            && w.total == |b.data| && w.numFrames == b.numFrames && w.msgSize == m.msgSize && w.sampleRate == m.sampleRate
            && (!o.Xrun? ==> w.frameIndex == o.frame.index && w.data == o.frame.data)
            && (if p.None? then w.extra == NO_EXTRA
                else w.extra == Extra(p.value.version, p.value.profile, p.value.format, m.position, m.timestamp,
                                      p.value.blockFrames, p.value.channelCount))
  {
    EmittedIsRead(o);
    BuiltSays(o);
    LowFlag(o);
    hide Parse, WriteBinData, Typed, Canonical, Has, Flags, Genuine, Built;
  }

  lemma {:induction false} LowFlag(o: Origin)
    ensures Has(Built(o).flags, LOW_LATENCY) <==> ProfileOf(o).Some?
  {
    hide Flags, Has;
    match o {
      case New(st, b, m, f) =>
        FlagsRead(m.sampleRate != 0, b.numFrames > 1, m.msgSize > 0, false, m.tt != 0, st.profile.Some?);
      case Xrun(st, _, _) => FlagsRead(false, false, false, true, false, st.profile.Some?);
      case Resent(first, _, _) => LowFlag(first);
    }
  }

  lemma {:induction false} BuiltSays(o: Origin)
    ensures var d, b, m, p := Built(o), BlockOf(o), TagsOf(o), ProfileOf(o);
            && d.streamId == o.stream.id && d.channel == o.stream.channel && d.sequence == b.sequence
            && d.total == |b.data| && d.numFrames == b.numFrames && d.msgSize == m.msgSize && d.sampleRate == m.sampleRate
            && (!o.Xrun? ==> d.frameIndex == o.frame.index && d.data == o.frame.data)
            && (p.Some? ==> d.extra == Extra(p.value.version, p.value.profile, p.value.format, m.position, m.timestamp,
                                             p.value.blockFrames, p.value.channelCount))
  {
    hide Flags;
    if o.Resent? {
      BuiltSays(o.first);
    }
  }

  /** The packet as handle_data queues it, with its payload in frame x. */
  function Queued(d: DataPacket, x: nat): Receive.Packet {
    Receive.Packet(d.streamId, d.sequence, d.numFrames, d.frameIndex, d.size, if d.size > 0 then Some(x) else None,
                   d.extra.position, d.extra.blockFrames)
  }

  /**
   What the sink queues of such a packet meets the expectations of the receive path and carries
   a frame of the block that was sent.
   */
  lemma EmittedIsFrame(o: Origin, x: nat, mem: Content)
    requires Genuine(o) && mem(x) == Built(o).data
    ensures var p := Queued(OnWire(Built(o)), x);
            && WellCut(BlockOf(o)) && p.sequence == BlockOf(o).sequence
            && Receive.Conforms(p) && EndToEnd.Carries(p, x, BlockOf(o), mem)
  {
    EmittedIsProper(o);
    var d := Built(o);
    PartSize(Frame(d.frameIndex, d.data), BlockOf(o));
    hide Genuine, Built, BlockOf, Has, Chunk, WellCut, Matches, SmallExtra;
  }

  /** Two packets of one block agree with each other, whichever of them arrives first. */
  lemma EmittedAgree(o: Origin, p: Origin, x: nat, y: nat)
    requires Genuine(o) && Genuine(p) && BlockOf(o) == BlockOf(p)
    ensures Receive.SameBlock(Queued(OnWire(Built(o)), x), Queued(OnWire(Built(p)), y))
  {
    EmittedIsProper(o);
    EmittedIsProper(p);
    hide Genuine, Built, BlockOf, Has, Chunk, WellCut, Matches, SmallExtra;
  }

  /** The time tag that the block was sent with. */
  function TagOf(o: Origin): nat {
    match o
    case New(_, _, m, _) => m.tt
    case Xrun(_, _, _) => 0
    case Resent(first, _, _) => TagOf(first)
  }

  /**
   The history does not keep the time tag: the sink reads the one that the block was sent with if
   and only if the packet is not a resent one or there was none. The flag is set all the same.
   */
  lemma TimeTagIsReadUnlessResent(o: Origin)
    requires Genuine(o)
    ensures var d := Built(o);
            && Typed(d) && Parse(WriteBinData(d)).Ok?
            && (Parse(WriteBinData(d)).value.tt == TagOf(o) <==> !o.Resent? || TagOf(o) == 0)
            && (Has(d.flags, TIME_STAMP) <==> TagOf(o) != 0)
  {
    EmittedIsRead(o);
    TimeFlag(o);
    hide Parse, WriteBinData, Typed, Canonical, Has, Flags, Genuine;
  }

  lemma {:induction false} TimeFlag(o: Origin)
    ensures Has(Built(o).flags, TIME_STAMP) <==> TagOf(o) != 0
  {
    hide Flags, Has;
    match o {
      case New(st, b, m, f) =>
        FlagsRead(m.sampleRate != 0, b.numFrames > 1, m.msgSize > 0, false, m.tt != 0, st.profile.Some?);
      case Xrun(st, _, _) => FlagsRead(false, false, false, true, false, st.profile.Some?);
      case Resent(first, _, _) => TimeFlag(first);
    }
  }

  /** A block of one byte with a time tag, sent and sent again. */
  lemma ResentTagIsLost() returns (o: Origin)
    ensures Genuine(o) && TagOf(o) != 0 && Typed(Built(o)) && Parse(WriteBinData(Built(o))).Ok?
    ensures Parse(WriteBinData(Built(o))).value.tt == 0 && Has(Built(o).flags, TIME_STAMP)
  {
    var st, b, f := Stream(0, 0, None), Sent(0, 1, 1, [0]), Frame(0, [0]);
    assert Chunk(b, 0) == [0];
    o := Resent(New(st, b, Tags(0, 0, 1, 0, 0), f), st, f);
    EmittedIsRead(o);
    TimeTagIsReadUnlessResent(o);
    hide Parse, WriteBinData, Typed, Canonical, Has, Flags;
  }
}
