/**
 * One push byte by byte: what a logic server writes to a gateway's connection for a small packet and
 * two channels, and what the gateway makes of these bytes among others.
 */
module WireExample {
  import opened Bytes
  import opened Endian
  import opened ProtoWire
  import opened HeaderCodec
  import opened Packets
  import opened Frames
  import opened Routing
  import opened Container
  import opened EndToEnd
  import ChannelIds
  import Utf8

  /** command "c", channelId "i", sequence 150, flag Push, dest "d"; then an entry "k": "v". */
  const FIELDS: bytes := [0x0A, 0x01, 0x63, 0x12, 0x01, 0x69, 0x18, 0x96, 0x01, 0x20, 0x02, 0x32, 0x01, 0x64]
  const ENTRY: bytes := [0x3A, 0x08, 0x0A, 0x01, 0x6B, 0x12, 0x01, 0x76, 0x18, 0x01]

  /** The entries "dest.channels": "a,b" and "dest.server": "g". */
  const CHANNELS_KEY: bytes := [0x64, 0x65, 0x73, 0x74, 0x2E, 0x63, 0x68, 0x61, 0x6E, 0x6E, 0x65, 0x6C, 0x73]
  const SERVER_KEY: bytes := [0x64, 0x65, 0x73, 0x74, 0x2E, 0x73, 0x65, 0x72, 0x76, 0x65, 0x72]
  const CHANNELS: bytes :=
    [0x3A, 0x16] + ([0x0A, 0x0D] + CHANNELS_KEY + ([0x12, 0x03] + [0x61, 0x2C, 0x62]) + [0x18, 0x01])
  const SERVER: bytes := [0x3A, 0x12] + ([0x0A, 0x0B] + SERVER_KEY + ([0x12, 0x01] + [0x67]) + [0x18, 0x01])

  const MAGIC: bytes := [0xC3, 0x11, 0xA3, 0x65]

  /** The packet with the body "hi" as it was, and the frame in which it travels to the gateway. */
  const DATA: bytes := MAGIC + ([0, 0, 0, 0x18] + (FIELDS + ENTRY) + ([0, 0, 0, 2] + [0x68, 0x69]))
  const WIRE: bytes :=
    [0x02] + ([0, 0, 0, 0x52]
    + (MAGIC + ([0, 0, 0, 0x44] + (FIELDS + ENTRY + CHANNELS + SERVER) + ([0, 0, 0, 2] + [0x68, 0x69]))))

  function InstanceHeader(metas: seq<Meta>): Header {
    Header([0x63], [0x69], 150, 2, 0, [0x64], [Meta([0x6B], [0x76], 1, [])] + metas, [])
  }

  const INSTANCE: LogicPacket := LogicPacket(InstanceHeader([]), [0x68, 0x69])

  lemma InstanceFields(metas: seq<Meta>)
    ensures EncodeHeader(InstanceHeader(metas)) == FIELDS + ENTRY + PutRecords(MetaFields(metas))
  {
    hide EncodeHeader, PutRecords, MetaFields, StringBytes, NumberBytes, EncodeMeta, Varint;
    var h := InstanceHeader(metas);
    HeaderBytes(h);
    ReferenceFields();
    assert NumberBytes(0x28, 0) == [] by { NoNumber(); }
    StringMetaBytes([0x6B], [0x76]);
    MetaFieldBytes(Meta([0x6B], [0x76], 1, []), metas);
    var rest := PutRecords(MetaFields(metas));
    assert PutRecords(MetaFields(h.meta)) == ENTRY + rest;
    assert EncodeHeader(h) == FIELDS + (ENTRY + rest);
    ConcatAssoc(FIELDS, ENTRY, rest);
  }

  lemma NoNumber()
    ensures NumberBytes(0x28, 0) == []
  {
  }

  lemma ChannelsBytes()
    ensures [0x3A, |EncodeMeta(Meta(DEST_CHANNELS, [0x61, 0x2C, 0x62], 1, []))|]
            + EncodeMeta(Meta(DEST_CHANNELS, [0x61, 0x2C, 0x62], 1, [])) == CHANNELS
  {
    hide EncodeMeta;
    assert |DEST_CHANNELS| == 13;
    StringMetaBytes(DEST_CHANNELS, [0x61, 0x2C, 0x62]);
  }

  lemma ServerBytes()
    ensures [0x3A, |EncodeMeta(Meta(DEST_SERVER, [0x67], 1, []))|] + EncodeMeta(Meta(DEST_SERVER, [0x67], 1, []))
         == SERVER
  {
    hide EncodeMeta;
    assert |DEST_SERVER| == 11;
    StringMetaBytes(DEST_SERVER, [0x67]);
  }

  lemma RoutingBytes()
    ensures PutRecords(MetaFields([Meta(DEST_CHANNELS, [0x61, 0x2C, 0x62], 1, []), Meta(DEST_SERVER, [0x67], 1, [])]))
         == CHANNELS + SERVER
  {
    hide PutRecords, MetaFields, EncodeMeta, Varint;
    var c, s := Meta(DEST_CHANNELS, [0x61, 0x2C, 0x62], 1, []), Meta(DEST_SERVER, [0x67], 1, []);
    ChannelsBytes();
    ServerBytes();
    assert |EncodeMeta(c)| + 2 == |CHANNELS| == 24 && |EncodeMeta(s)| + 2 == |SERVER| == 20;
    assert [s] + [] == [s] && [c] + [s] == [c, s];
    MetaFieldBytes(s, []);
    MetaFieldBytes(c, [s]);
    EmptyBytes();
    assert SERVER + [] == SERVER;
  }

  lemma InstanceEnvelope()
    ensures Envelope(INSTANCE, [[0x61], [0x62]], [0x67])
         == LogicPacket(
              InstanceHeader([Meta(DEST_CHANNELS, [0x61, 0x2C, 0x62], 1, []), Meta(DEST_SERVER, [0x67], 1, [])]),
              [0x68, 0x69])
  {
    var ids: seq<GoString> := [[0x61], [0x62]];
    assert ids[1..] == [[0x62]];
    assert Join(ids) == [0x61] + [COMMA] + [0x62] == [0x61, 0x2C, 0x62];
  }

  lemma EmptyBytes()
    ensures PutRecords(MetaFields([])) == []
  {
  }

  lemma InstanceMarshal(metas: seq<Meta>, header: bytes)
    requires EncodeHeader(InstanceHeader(metas)) == header && |header| < 256
    requires TextHeader(InstanceHeader(metas))
    ensures Packets.Marshal(Logic(LogicPacket(InstanceHeader(metas), [0x68, 0x69])))
         == MAGIC + ([0, 0, 0, |header|] + header + ([0, 0, 0, 2] + [0x68, 0x69]))
  {
    hide EncodeHeader, PutBytes, TextHeader;
    SmallBytes(header);
    SmallBytes([0x68, 0x69]);
  }

  lemma InstanceText(ids: seq<GoString>, gateway: GoString)
    requires ids == [[0x61], [0x62]] && gateway == [0x67]
    ensures AllUtf8(INSTANCE, ids, gateway) && AllCommaFree(ids)
    ensures KnownOrRetained(INSTANCE.header) && NoRoutingKeys(INSTANCE)
  {
    hide Utf8.Valid, Retained;
    AsciiText(ids, gateway);
    ChannelIds.DigitsText([0x63]);
    ChannelIds.DigitsText([0x69]);
    ChannelIds.DigitsText([0x64]);
    ChannelIds.DigitsText([0x6B]);
    ChannelIds.DigitsText([0x76]);
    RetainedEmpty(UnknownToHeader);
    RetainedEmpty(UnknownToMeta);
    assert |DEST_SERVER| == 11 && |DEST_CHANNELS| == 13;
  }

  /** The packet's own bytes and those of its frame to the gateway, for the channels "a" and "b" at "g". */
  lemma InstanceBytes()
    ensures Packets.Marshal(Logic(INSTANCE)) == DATA
    ensures EncodeFrame(EnvelopeFrame(INSTANCE, [[0x61], [0x62]], [0x67])) == WIRE
  {
    hide EncodeHeader, PutRecords, MetaFields, Packets.Marshal, Envelope, PutBytes, TextHeader, AllText, Utf8.Valid;
    var ids: seq<GoString> := [[0x61], [0x62]];
    var gateway: GoString := [0x67];
    InstanceText(ids, gateway);
    EnvelopeText(INSTANCE, ids, gateway);
    EmptyBytes();
    InstanceFields([]);
    assert FIELDS + ENTRY + [] == FIELDS + ENTRY;
    InstanceMarshal([], FIELDS + ENTRY);
    InstanceEnvelope();
    RoutingBytes();
    var metas := [Meta(DEST_CHANNELS, [0x61, 0x2C, 0x62], 1, []), Meta(DEST_SERVER, [0x67], 1, [])];
    InstanceFields(metas);
    ConcatAssoc(FIELDS + ENTRY, CHANNELS, SERVER);
    InstanceMarshal(metas, FIELDS + ENTRY + CHANNELS + SERVER);
    SmallBytes(Packets.Marshal(Logic(Envelope(INSTANCE, ids, gateway))));
  }

  lemma ConsumeNext(self: GoString, f: Frame, rest: bytes)
    requires Sized(f)
    ensures Consume(self, EncodeFrame(f) + rest)
         == if f.opcode == OP_CLOSE then ([], Stopped)
            else if Handle(self, f).1 then ([], Panicked)
            else (Handle(self, f).0 + Consume(self, rest).0, Consume(self, rest).1)
  {
    hide EncodeFrame, DecodeFrame, Handle;
    FrameRoundTrip(f, rest);
  }

  /**
   * The bytes on a connection of the gateway "g": a ping, a binary frame that holds no packet, the push,
   * a close, and the push again. The gateway pushes the packet's bytes to "a" and then to "b", and stops
   * at the close.
   */
  lemma LiteralStream()
    ensures Consume([0x67], [0x09, 0, 0, 0, 0] + ([0x02, 0, 0, 0, 1, 0xFF] + (WIRE + ([0x08, 0, 0, 0, 0] + WIRE))))
         == ([Push([0x61], DATA), Push([0x62], DATA)], Stopped)
  {
    hide Consume, EncodeFrame, EnvelopeFrame, Packets.Marshal, MustReadLogic, NoRoutingKeys, AllCommaFree, AllUtf8,
      KnownOrRetained, NumericChannels, Pushes, Verdict;
    var ids: seq<GoString> := [[0x61], [0x62]];
    var gateway: GoString := [0x67];
    var f := EnvelopeFrame(INSTANCE, ids, gateway);
    InstanceText(ids, gateway);
    InstanceBytes();
    FrameBytes();
    JunkFrame();
    FrameSize(f);
    EnvelopePushed(INSTANCE, ids, gateway);
    PanicExactly(gateway, MustReadLogic(f.payload).value);
    TwoPushes(DATA);
    var close, junk, ping := Frame(OP_CLOSE, []), Frame(OP_BINARY, [0xFF]), Frame(OP_PING, []);
    ConsumeNext(gateway, close, WIRE);
    var end := [0x08, 0, 0, 0, 0] + WIRE;
    ConsumeNext(gateway, f, end);
    ConsumeNext(gateway, junk, WIRE + end);
    ConsumeNext(gateway, ping, [0x02, 0, 0, 0, 1, 0xFF] + (WIRE + end));
    var pushes := [Push([0x61], DATA), Push([0x62], DATA)];
    assert pushes + [] == pushes && [] + pushes == pushes;
  }

  lemma JunkFrame()
    ensures EncodeFrame(Frame(OP_BINARY, [0xFF])) == [0x02, 0, 0, 0, 1, 0xFF]
    ensures MustReadLogic([0xFF]).Err?
  {
    hide PutBytes;
    SmallBytes([0xFF]);
    ReadErrors([0xFF]);
  }

  lemma FrameSize(f: Frame)
    requires EncodeFrame(f) == WIRE
    ensures Sized(f)
  {
    assert |EncodeFrame(f)| == 5 + |f.payload|;
  }
}
