/** The versioned low-latency packet header and stream configuration of aoo/src/low_latency.cpp. */
module LowLatency {
  import opened Wrappers
  import opened Bytes
  import opened BigEndian

  const PROTOCOL_VERSION: nat := 1
  const HEADER_SIZE: nat := 52
  const CONFIGURATION_SIZE: nat := 92
  const MAX_CHANNELS: nat := 64
  const MAX_PACKET_SIZE: nat := 4096

  /** "AOLL" and "AOLS" */
  function Magic(): (r: Data)
    ensures |r| == 4
  {
    [0x41, 0x4f, 0x4c, 0x4c]
  }

  function ConfigurationMagic(): (r: Data)
    ensures |r| == 4
  {
    [0x41, 0x4f, 0x4c, 0x53]
  }

  /** Profiles and sample formats; each profile has its own format. */
  const WIRED: nat := 1
  const WIRELESS: nat := 2
  const FLOAT32: nat := 1
  const INT24: nat := 2

  datatype Error = BadArgument | BadFormat

  // ---------------------------------------------------------------- packet header

  datatype Header = Header(
    version: nat, headerSize: nat, profile: nat, format: nat, flags: nat, streamId: nat, sequence: nat,
    position: nat, timestamp: nat, blockFrames: nat, fragmentIndex: nat, fragmentCount: nat,
    channelCount: nat, payload: nat)

  function HeaderFields(h: Header): (r: seq<Field>)
    ensures Widths(r) == HeaderWidths()
  {
    [Field(2, h.version), Field(2, h.headerSize), Field(1, h.profile), Field(1, h.format), Field(2, h.flags),
     Field(8, h.streamId), Field(4, h.sequence), Field(8, h.position), Field(8, h.timestamp),
     Field(2, h.blockFrames), Field(2, h.fragmentIndex), Field(2, h.fragmentCount), Field(2, h.channelCount),
     Field(4, h.payload)]
  }

  function HeaderWidths(): (r: seq<nat>)
    ensures |r| == 14
  {
    [2, 2, 1, 1, 2, 8, 4, 8, 8, 2, 2, 2, 2, 4]
  }

  function HeaderOf(f: seq<Field>): (h: Header)
    requires |f| == 14
  {
    Header(f[0].value, f[1].value, f[2].value, f[3].value, f[4].value, f[5].value, f[6].value, f[7].value,
           f[8].value, f[9].value, f[10].value, f[11].value, f[12].value, f[13].value)
  }

  /** The values fit the integer types of the struct. */
  predicate HeaderTyped(h: Header) { FieldsFit(HeaderFields(h)) }

  predicate ValidProfileFormat(profile: nat, format: nat) {
    (profile == WIRED && format == FLOAT32) || (profile == WIRELESS && format == INT24)
  }

  predicate ValidHeader(h: Header) {
    && h.version == PROTOCOL_VERSION && h.headerSize == HEADER_SIZE
    && ValidProfileFormat(h.profile, h.format)
    && h.blockFrames != 0
    && (if h.fragmentCount == 0 then h.fragmentIndex == 0 && h.payload == 0 else h.fragmentIndex < h.fragmentCount)
    && 0 < h.channelCount <= MAX_CHANNELS
  }

  /** aoo_lowLatencyPacketHeaderEncode into a destination with the given room */
  function EncodeHeader(h: Header, room: nat): (r: Result<Data, Error>)
    requires HeaderTyped(h)
  {
    if room < HEADER_SIZE || !ValidHeader(h) then Err(BadArgument) else Ok(HeaderBytes(h))
  }

  /** The header as it is written: the magic bytes and the fields. */
  function HeaderBytes(h: Header): Data
    requires HeaderTyped(h)
  {
    Tagged(Magic(), HeaderFields(h))
  }

  function ReadHeader(s: Data): (r: Option<Header>)
    ensures r.Some? ==> |s| >= HEADER_SIZE
  {
    if |s| < HEADER_SIZE then None
    else
      var fields := ReadTagged(Magic(), HeaderWidths(), s);
      if fields.None? then None else Some(HeaderOf(fields.value))
  }

  /** aoo_lowLatencyPacketHeaderDecode from the front of a message */
  function DecodeHeader(s: Data): (r: Result<Header, Error>) {
    var h := ReadHeader(s);
    if h.None? || !ValidHeader(h.value) || h.value.payload > |s| - HEADER_SIZE then Err(BadFormat) else Ok(h.value)
  }

  lemma HeaderWidthSum()
    ensures Sum(HeaderWidths()) == 48
  {
    SumStep([2, 2, 1, 1, 2, 8, 4], [8, 8, 2, 2, 2, 2, 4]);
    assert HeaderWidths() == [2, 2, 1, 1, 2, 8, 4] + [8, 8, 2, 2, 2, 2, 4];
  }

  lemma SumStep(a: seq<nat>, b: seq<nat>)
    ensures Sum(a + b) == Sum(a) + Sum(b)
  {
    if a == [] {
      assert a + b == b;
    } else {
      SumStep(a[1..], b);
      assert (a + b)[1..] == a[1..] + b;
    }
  }

  lemma FieldsOfHeader(f: seq<Field>)
    requires |f| == 14 && Widths(f) == HeaderWidths()
    ensures HeaderFields(HeaderOf(f)) == f
  {
    forall i | 0 <= i < 14 ensures HeaderFields(HeaderOf(f))[i] == f[i] {
      assert f[i].width == Widths(f)[i];
    }
  }

  lemma HeaderOfFields(h: Header)
    ensures HeaderOf(HeaderFields(h)) == h
  {
  }

  lemma HeaderLength(h: Header)
    requires HeaderTyped(h)
    ensures |HeaderBytes(h)| == HEADER_SIZE
  {
    hide HeaderFields, HeaderWidths, Tagged, ReadTagged, Magic, Sum;
    ReadTaggedWritten(Magic(), HeaderFields(h), []);
    HeaderWidthSum();
  }

  lemma ReadWritten(h: Header, tail: Data)
    requires HeaderTyped(h)
    ensures |HeaderBytes(h)| == HEADER_SIZE && ReadHeader(HeaderBytes(h) + tail) == Some(h)
  {
    hide HeaderFields, HeaderOf, HeaderWidths, Tagged, ReadTagged, Magic, FieldsFit, Sum;
    HeaderLength(h);
    HeaderOfFields(h);
    ReadTaggedWritten(Magic(), HeaderFields(h), tail);
  }

  lemma WrittenRead(s: Data)
    requires ReadHeader(s).Some?
    ensures HEADER_SIZE <= |s| && HeaderTyped(ReadHeader(s).value) && HeaderBytes(ReadHeader(s).value) == s[..HEADER_SIZE]
  {
    hide HeaderFields, HeaderOf, HeaderWidths, Tagged, ReadTagged, Magic, Sum;
    FieldsOfHeader(ReadTagged(Magic(), HeaderWidths(), s).value);
    TaggedRead(Magic(), HeaderWidths(), s);
    HeaderWidthSum();
  }

  /** Decoding an encoded header, with at least its payload behind it, gives the header back. */
  lemma HeaderRoundTrip(h: Header, room: nat, tail: Data)
    requires HeaderTyped(h) && ValidHeader(h) && HEADER_SIZE <= room && h.payload <= |tail|
    ensures EncodeHeader(h, room).Ok? && |EncodeHeader(h, room).value| == HEADER_SIZE
    ensures DecodeHeader(EncodeHeader(h, room).value + tail) == Ok(h)
  {
    ReadWritten(h, tail);
    assert |HeaderBytes(h) + tail| == HEADER_SIZE + |tail|;
    hide HeaderBytes, ReadHeader, ValidHeader, HeaderTyped, HeaderFields, HeaderOf, HeaderWidths, Magic;
  }

  /** Encoding a decoded header gives the first 52 bytes back; what is accepted is valid. */
  lemma HeaderRoundTripBack(s: Data, room: nat)
    requires DecodeHeader(s).Ok? && HEADER_SIZE <= room
    ensures var h := DecodeHeader(s).value;
            && HeaderTyped(h) && ValidHeader(h) && HEADER_SIZE + h.payload <= |s|
            && EncodeHeader(h, room) == Ok(s[..HEADER_SIZE])
  {
    WrittenRead(s);
    hide HeaderBytes, ReadHeader, ValidHeader, HeaderTyped, HeaderFields, HeaderOf, HeaderWidths, Magic;
  }

  // ---------------------------------------------------------------- stream configuration

  datatype Configuration = Configuration(
    version: nat, profile: nat, format: nat, channelCount: nat, blockFrames: nat, datagramBytes: nat,
    channelMapCount: nat, sampleRate: nat, targetLatencyFrames: nat, capabilities: nat, channelMap: Data)

  function ConfigurationFields(c: Configuration): (r: seq<Field>)
    ensures Widths(r) == ConfigurationWidths()
  {
    [Field(2, c.version), Field(1, c.profile), Field(1, c.format), Field(2, c.channelCount), Field(2, c.blockFrames),
     Field(2, c.datagramBytes), Field(2, c.channelMapCount), Field(4, c.sampleRate),
     Field(4, c.targetLatencyFrames), Field(4, c.capabilities)]
  }

  function ConfigurationWidths(): (r: seq<nat>)
    ensures |r| == 10
  {
    [2, 1, 1, 2, 2, 2, 2, 4, 4, 4]
  }

  function ConfigurationOf(f: seq<Field>, channelMap: Data): Configuration
    requires |f| == 10
  {
    Configuration(f[0].value, f[1].value, f[2].value, f[3].value, f[4].value, f[5].value, f[6].value, f[7].value,
                  f[8].value, f[9].value, channelMap)
  }

  predicate ConfigurationTyped(c: Configuration) {
    FieldsFit(ConfigurationFields(c)) && |c.channelMap| == MAX_CHANNELS
  }

  /** The conditions on single fields. The capability bits are sample position, channel map, resampling, resend. */
  predicate ValidFields(c: Configuration) {
    && c.version == PROTOCOL_VERSION
    && ValidProfileFormat(c.profile, c.format)
    && 0 < c.channelCount <= MAX_CHANNELS && c.channelMapCount == c.channelCount
    && c.blockFrames >= 16
    && 8000 <= c.sampleRate <= 384000
    && 256 <= c.datagramBytes <= MAX_PACKET_SIZE
    && c.targetLatencyFrames >= c.blockFrames
    && c.capabilities % 8 == 7
    && (c.profile == WIRELESS ==> c.capabilities / 8 % 2 == 1)
  }

  /** The used part of the channel map is injective and in range. */
  ghost predicate ValidMap(c: Configuration)
    requires c.channelMapCount <= |c.channelMap|
  {
    && (forall i | 0 <= i < c.channelMapCount :: c.channelMap[i] < MAX_CHANNELS)
    && forall i, j | 0 <= i < j < c.channelMapCount :: c.channelMap[i] != c.channelMap[j]
  }

  ghost predicate ValidConfiguration(c: Configuration) {
    |c.channelMap| == MAX_CHANNELS && ValidFields(c) && ValidMap(c)
  }

  /** aoo_lowLatencyStreamConfigurationValidate: the loop marks the channels it has seen. */
  method Validate(c: Configuration) returns (ok: bool)
    requires ConfigurationTyped(c)
    ensures ok <==> ValidConfiguration(c)
  {
    if !ValidFields(c) {
      return false;
    }
    var used := new bool[MAX_CHANNELS](_ => false);
    for index := 0 to c.channelMapCount
      invariant forall i | 0 <= i < index :: c.channelMap[i] < MAX_CHANNELS && used[c.channelMap[i]]
      invariant forall k | 0 <= k < MAX_CHANNELS && used[k] :: k in c.channelMap[..index]
      invariant forall i, j | 0 <= i < j < index :: c.channelMap[i] != c.channelMap[j]
    {
      var channel := c.channelMap[index];
      if channel >= MAX_CHANNELS || used[channel] {
        assert channel < MAX_CHANNELS ==> exists i | 0 <= i < index :: c.channelMap[i] == channel;
        return false;
      }
      used[channel] := true;
      assert c.channelMap[..index + 1] == c.channelMap[..index] + [channel];
    }
    return true;
  }

  ghost function EncodeConfiguration(c: Configuration, room: nat): Result<Data, Error>
    requires ConfigurationTyped(c)
  {
    if room < CONFIGURATION_SIZE || !ValidConfiguration(c) then Err(BadArgument)
    else Ok(Tagged(ConfigurationMagic(), ConfigurationFields(c)) + c.channelMap)
  }

  ghost function DecodeConfiguration(s: Data): Result<Configuration, Error> {
    if |s| != CONFIGURATION_SIZE then Err(BadFormat)
    else
      var fields := ReadTagged(ConfigurationMagic(), ConfigurationWidths(), s);
      if fields.None? then Err(BadFormat)
      else
        var c := ConfigurationOf(fields.value, s[28..]);
        if ValidConfiguration(c) then Ok(c) else Err(BadFormat)
  }

  lemma ConfigurationWidthSum()
    ensures Sum(ConfigurationWidths()) == 24
  {
    SumStep([2, 1, 1, 2, 2], [2, 2, 4, 4, 4]);
    assert ConfigurationWidths() == [2, 1, 1, 2, 2] + [2, 2, 4, 4, 4];
  }

  lemma FieldsOfConfiguration(f: seq<Field>, channelMap: Data)
    requires |f| == 10 && Widths(f) == ConfigurationWidths()
    ensures ConfigurationFields(ConfigurationOf(f, channelMap)) == f
  {
    forall i | 0 <= i < 10 ensures ConfigurationFields(ConfigurationOf(f, channelMap))[i] == f[i] {
      assert f[i].width == Widths(f)[i];
    }
  }

  lemma ConfigurationOfFields(c: Configuration)
    ensures ConfigurationOf(ConfigurationFields(c), c.channelMap) == c
  {
  }

  /** A valid configuration survives encoding and decoding. */
  lemma ConfigurationRoundTrip(c: Configuration, room: nat)
    requires ConfigurationTyped(c) && ValidConfiguration(c) && CONFIGURATION_SIZE <= room
    ensures EncodeConfiguration(c, room).Ok?
    ensures DecodeConfiguration(EncodeConfiguration(c, room).value) == Ok(c)
  {
    hide ConfigurationFields, ConfigurationOf, ConfigurationWidths, ConfigurationMagic, Tagged, ReadTagged, FieldsFit, Sum,
      ValidConfiguration;
    var fields := ConfigurationFields(c);
    ReadTaggedWritten(ConfigurationMagic(), fields, c.channelMap);
    ConfigurationWidthSum();
    ConfigurationOfFields(c);
    assert (Tagged(ConfigurationMagic(), fields) + c.channelMap)[28..] == c.channelMap;
  }

  /** An accepted message is the encoding of a valid configuration. */
  lemma ConfigurationRoundTripBack(s: Data, room: nat)
    requires DecodeConfiguration(s).Ok? && CONFIGURATION_SIZE <= room
    ensures var c := DecodeConfiguration(s).value;
            ConfigurationTyped(c) && ValidConfiguration(c) && EncodeConfiguration(c, room) == Ok(s)
  {
    hide ConfigurationFields, ConfigurationWidths, ConfigurationMagic, Tagged, ReadTagged, FieldsFit, Sum,
      ValidConfiguration;
    var fields := ReadTagged(ConfigurationMagic(), ConfigurationWidths(), s).value;
    FieldsOfConfiguration(fields, s[28..]);
    TaggedRead(ConfigurationMagic(), ConfigurationWidths(), s);
    ConfigurationWidthSum();
    assert s == s[..28] + s[28..];
  }
}
