/** wxf/wire/pkt: the two packet kinds behind their magic numbers. */
module Packets {
  import opened Bytes
  import opened Endian
  import opened HeaderCodec

  const MAGIC_LOGIC: bytes := [0xc3, 0x11, 0xa3, 0x65]
  const MAGIC_BASIC: bytes := [0xc3, 0x15, 0xa7, 0x65]

  /** The values a LogicPkt and a BasicPkt stand for. */
  datatype LogicPacket = LogicPacket(header: Header, body: bytes)
  datatype BasicPacket = BasicPacket(code: uint16, length: uint16, body: bytes)
  datatype Packet = Logic(logic: LogicPacket) | Basic(basic: BasicPacket)

  // ---- Specification -------------------------------------------------------------------------

  function EncodeLogic(p: LogicPacket): bytes {
    match HeaderCodec.Marshal(p.header)
    case None => []
    case Some(h) => PutBytes(4, h) + PutBytes(4, p.body)
  }

  function EncodeBasic(p: BasicPacket): bytes {
    Widths();
    PutUint(2, p.code) + PutUint(2, p.length) + (if p.length > 0 then p.body else [])
  }

  /** An encoding error is dropped, so a header that cannot be written leaves the magic alone. */
  function Marshal(p: Packet): bytes {
    match p
    case Logic(lp) => MAGIC_LOGIC + EncodeLogic(lp)
    case Basic(bp) => MAGIC_BASIC + EncodeBasic(bp)
  }

  function DecodeLogic(b: bytes): Parsed<LogicPacket> {
    match TakeBytes(4, b)
    case Err(e) => Err(e)
    case Ok(h, rest) =>
      match DecodeHeader(h)
      case None => Err(BadHeader)
      case Some(header) =>
        match TakeBytes(4, rest)
        case Err(e) => Err(e)
        case Ok(body, rest2) => Ok(LogicPacket(header, body), rest2)
  }

  function DecodeBasic(b: bytes): Parsed<BasicPacket> {
    Widths();
    match TakeUint(2, b)
    case Err(e) => Err(e)
    case Ok(code, rest) =>
      match TakeUint(2, rest)
      case Err(e) => Err(e)
      case Ok(length, rest2) =>
        UintBound(b[..2]);
        UintBound(rest[..2]);
        if length > 0 then
          match TakeFull(length, rest2)
          case Err(e) => Err(e)
          case Ok(body, rest3) => Ok(BasicPacket(code, length, body), rest3)
        else Ok(BasicPacket(code, length, []), rest2)
  }

  function Read(b: bytes): Parsed<Packet> {
    match TakeFull(4, b)
    case Err(e) => Err(e)
    case Ok(magic, rest) =>
      if magic == MAGIC_BASIC then
        match DecodeBasic(rest) case Err(e) => Err(e) case Ok(p, after) => Ok(Basic(p), after)
      else if magic == MAGIC_LOGIC then
        match DecodeLogic(rest) case Err(e) => Err(e) case Ok(p, after) => Ok(Logic(p), after)
      else Err(BadMagic)
  }

  function MustReadLogic(b: bytes): Parsed<LogicPacket> {
    match Read(b)
    case Err(e) => Err(e)
    case Ok(Logic(p), rest) => Ok(p, rest)
    case Ok(Basic(_), _) => Err(NotLogicPkt)
  }

  function MustReadBasic(b: bytes): Parsed<BasicPacket> {
    match Read(b)
    case Err(e) => Err(e)
    case Ok(Basic(p), rest) => Ok(p, rest)
    case Ok(Logic(_), _) => Err(NotBasicPkt)
  }

  /** AddMeta appends; NewFrom copies five fields and nothing else. */
  function AddMetas(p: LogicPacket, ms: seq<Meta>): LogicPacket {
    p.(header := p.header.(meta := p.header.meta + ms))
  }

  function Answer(h: Header): LogicPacket {
    LogicPacket(Header(h.command, h.channelId, h.sequence, 0, h.status, h.dest, [], []), [])
  }

  // ---- Round trips ---------------------------------------------------------------------------

  /** Fields the schema does not know can only come from a decoder, as canonical records. */
  ghost predicate KnownOrRetained(h: Header) {
    Retained(h.unknown, UnknownToHeader)
    && forall i :: 0 <= i < |h.meta| ==> Retained(h.meta[i].unknown, UnknownToMeta)
  }

  lemma ReadMagic(p: Packet, tail: bytes)
    ensures Read(Marshal(p) + tail)
         == match p
            case Logic(lp) => (match DecodeLogic(EncodeLogic(lp) + tail)
                               case Err(e) => Err(e) case Ok(q, after) => Ok(Logic(q), after))
            case Basic(bp) => (match DecodeBasic(EncodeBasic(bp) + tail)
                               case Err(e) => Err(e) case Ok(q, after) => Ok(Basic(q), after))
  {
    hide DecodeLogic, DecodeBasic, EncodeLogic, EncodeBasic;
    var magic := if p.Logic? then MAGIC_LOGIC else MAGIC_BASIC;
    var rest := (if p.Logic? then EncodeLogic(p.logic) else EncodeBasic(p.basic)) + tail;
    assert Marshal(p) + tail == magic + rest;
    TakeDropConcat(magic, rest);
    assert MAGIC_LOGIC[1] != MAGIC_BASIC[1];
  }

  lemma DecodeEncodedLogic(p: LogicPacket, tail: bytes)
    requires KnownOrRetained(p.header) && TextHeader(p.header) && |EncodeHeader(p.header)| < TWO_64
    ensures DecodeLogic(EncodeLogic(p) + tail) == Ok(p, tail)
       <==> |EncodeHeader(p.header)| < TWO_32 && |p.body| < TWO_32
  {
    hide EncodeHeader, DecodeHeader, PutUint, Pow256, TextHeader, Retained;
    Widths();
    var h := EncodeHeader(p.header);
    var n := |h| % TWO_32;
    var rest := h + (PutBytes(4, p.body) + tail);
    KnownIsValid(p.header);
    assert EncodeLogic(p) + tail == PutUint(4, n) + rest;
    TakeBytesOfPut(4, n, rest);
    assert rest[..n] == h[..n];
    if |h| < TWO_32 {
      assert h[..n] == h;
      HeaderRoundTrip(p.header);
      TakeDropConcat(h, PutBytes(4, p.body) + tail);
      BytesRoundTrip(4, p.body, tail);
    } else {
      HeaderPrefixDiffers(p.header, n);
    }
  }

  lemma KnownIsValid(h: Header)
    requires KnownOrRetained(h) && TextHeader(h)
    ensures ValidHeader(h)
  {
    hide Retained;
  }

  /**
   * A logic packet comes back, with the bytes behind it untouched, exactly when its strings are UTF-8
   * and the lengths of header and body fit their fields. (Go lengths are below 2^64.)
   */
  lemma LogicRoundTrip(p: LogicPacket, tail: bytes)
    requires KnownOrRetained(p.header) && |EncodeHeader(p.header)| < TWO_64
    ensures Read(Marshal(Logic(p)) + tail) == Ok(Logic(p), tail)
       <==> TextHeader(p.header) && |EncodeHeader(p.header)| < TWO_32 && |p.body| < TWO_32
  {
    hide EncodeHeader, DecodeHeader, TextHeader, KnownOrRetained, ValidHeader, Read, PutBytes, DecodeLogic, Marshal;
    ReadMagic(Logic(p), tail);
    if TextHeader(p.header) {
      DecodeEncodedLogic(p, tail);
    } else {
      DecodedLogicValid(EncodeLogic(p) + tail);
      if ValidHeader(p.header) { ValidIsText(p.header); }
    }
  }

  lemma ValidIsText(h: Header)
    requires ValidHeader(h)
    ensures TextHeader(h) && KnownOrRetained(h)
  {
    hide Retained;
  }

  lemma DecodedLogicValid(b: bytes)
    ensures DecodeLogic(b).Ok? ==> ValidHeader(DecodeLogic(b).value.header) && |DecodeLogic(b).value.body| < TWO_32
  {
    hide DecodeHeader, ValidHeader, TakeBytes;
    if DecodeLogic(b).Ok? {
      var h := TakeBytes(4, b);
      DecodedHeaderValid(h.value);
      Widths();
      BytesReencode(4, h.rest);
    }
  }

  /** Whatever was read as a logic packet can be written and read again, whatever follows it. */
  lemma ReadLogicCanonical(b: bytes, tail: bytes)
    requires Read(b).Ok? && Read(b).value.Logic?
    ensures |EncodeHeader(Read(b).value.logic.header)| < TWO_32
        ==> Read(Marshal(Read(b).value) + tail) == Ok(Read(b).value, tail)
  {
    hide EncodeHeader, DecodeLogic, TextHeader, ValidHeader, KnownOrRetained, Marshal;
    var p := Read(b).value.logic;
    DecodedLogicValid(b[4..]);
    ValidIsText(p.header);
    if |EncodeHeader(p.header)| < TWO_32 {
      LogicRoundTrip(p, tail);
    }
  }

  /** A basic packet comes back exactly when its Length field tells the truth about its Body. */
  lemma BasicRoundTrip(p: BasicPacket, tail: bytes)
    ensures Read(Marshal(Basic(p)) + tail) == Ok(Basic(p), tail) <==> p.length == |p.body|
  {
    hide Read, Marshal;
    ReadMagic(Basic(p), tail);
    DecodeEncodedBasic(p, tail);
  }

  lemma DecodeEncodedBasic(p: BasicPacket, tail: bytes)
    ensures DecodeBasic(EncodeBasic(p) + tail) == Ok(p, tail) <==> p.length == |p.body|
  {
    hide PutUint, Uint;
    Widths();
    var data := (if p.length > 0 then p.body else []) + tail;
    var code, length := PutUint(2, p.code), PutUint(2, p.length);
    assert EncodeBasic(p) + tail == code + (length + data);
    TakeUintPut(2, p.code, length + data);
    TakeUintPut(2, p.length, data);
    if p.length == |p.body| {
      TakeDropConcat(p.body, tail);
    }
  }

  /** Each Must-reader turns the other kind's encodings away. */
  lemma OtherKindRejected(p: Packet, tail: bytes)
    ensures p.Basic? ==> MustReadLogic(Marshal(p) + tail).Err?
    ensures p.Logic? ==> MustReadBasic(Marshal(p) + tail).Err?
  {
    hide Read, Marshal, DecodeBasic, DecodeLogic;
    ReadMagic(p, tail);
  }

  /** What the readers answer: too few bytes, an unknown magic, a packet of the other kind. */
  lemma ReadErrors(b: bytes)
    ensures |b| < 4 ==> Read(b) == Err(if b == [] then EOF else UnexpectedEOF)
    ensures |b| >= 4 && b[..4] != [0xc3, 0x11, 0xa3, 0x65] && b[..4] != [0xc3, 0x15, 0xa7, 0x65] ==>
              Read(b) == Err(BadMagic)
    ensures Read(b).Err? ==> MustReadLogic(b) == Err(Read(b).error) && MustReadBasic(b) == Err(Read(b).error)
  {
    hide DecodeLogic, DecodeBasic;
  }

  /** A well-formed packet of the other kind is named as such. */
  lemma OtherKindNamed(p: Packet, tail: bytes)
    requires Writable(p)
    ensures p.Basic? ==> MustReadLogic(Marshal(p) + tail) == Err(NotLogicPkt)
    ensures p.Logic? ==> MustReadBasic(Marshal(p) + tail) == Err(NotBasicPkt)
  {
    hide Read, Marshal, Writable;
    PacketRoundTrip(p, tail);
  }

  // ---- Prefixes and unique decoding ----------------------------------------------------------

  lemma DecodeLogicExtend(b: bytes, t: bytes)
    requires DecodeLogic(b).Ok?
    ensures DecodeLogic(b + t) == Ok(DecodeLogic(b).value, DecodeLogic(b).rest + t)
  {
    hide TakeBytes, DecodeHeader;
    TakeBytesExtend(4, b, t);
    TakeBytesExtend(4, TakeBytes(4, b).rest, t);
  }

  lemma DecodeBasicExtend(b: bytes, t: bytes)
    requires DecodeBasic(b).Ok?
    ensures DecodeBasic(b + t) == Ok(DecodeBasic(b).value, DecodeBasic(b).rest + t)
  {
    hide Uint;
    TakeFullExtend(2, b, t);
    TakeFullExtend(2, b[2..], t);
    var length := DecodeBasic(b).value.length;
    if length > 0 {
      TakeFullExtend(length, b[2..][2..], t);
    }
  }

  lemma ReadExtend(b: bytes, t: bytes)
    requires Read(b).Ok?
    ensures Read(b + t) == Ok(Read(b).value, Read(b).rest + t)
  {
    hide DecodeLogic, DecodeBasic;
    TakeFullExtend(4, b, t);
    if b[..4] == MAGIC_BASIC {
      DecodeBasicExtend(b[4..], t);
    } else {
      DecodeLogicExtend(b[4..], t);
    }
  }

  ghost predicate Writable(p: Packet) {
    match p
    case Logic(lp) =>
      && KnownOrRetained(lp.header) && TextHeader(lp.header)
      && |EncodeHeader(lp.header)| < TWO_32 && |lp.body| < TWO_32
    case Basic(bp) => bp.length == |bp.body|
  }

  lemma PacketRoundTrip(p: Packet, tail: bytes)
    requires Writable(p)
    ensures Read(Marshal(p) + tail) == Ok(p, tail)
  {
    hide Read, Marshal, KnownOrRetained, TextHeader, EncodeHeader;
    match p
    case Logic(lp) => LogicRoundTrip(lp, tail);
    case Basic(bp) => BasicRoundTrip(bp, tail);
  }

  /** Every strict prefix of a packet is rejected. */
  lemma PacketPrefixRejected(p: Packet, k: nat)
    requires Writable(p) && k < |Marshal(p)|
    ensures Read(Marshal(p)[..k]).Err?
  {
    hide Read, Writable, Marshal;
    var b := Marshal(p);
    PacketRoundTrip(p, []);
    assert b + [] == b == b[..k] + b[k..];
    if Read(b[..k]).Ok? {
      ReadExtend(b[..k], b[k..]);
    }
  }

  /** Packets written back to back are told apart: nothing about the second can change the first. */
  lemma PacketsUnique(p: Packet, q: Packet, s: bytes, t: bytes)
    requires Writable(p) && Writable(q)
    requires Marshal(p) + s == Marshal(q) + t
    ensures p == q && s == t
  {
    hide Read, Writable, Marshal;
    PacketRoundTrip(p, s);
    PacketRoundTrip(q, t);
  }

  lemma DecodedBasicReencode(c: bytes)
    requires DecodeBasic(c).Ok?
    ensures EncodeBasic(DecodeBasic(c).value) + DecodeBasic(c).rest == c
  {
    hide PutUint, Uint, Pow256;
    Widths();
    var p, rest := DecodeBasic(c).value, DecodeBasic(c).rest;
    var c1, c2, c3 := c[..2], c[2..][..2], c[2..][2..];
    PutUintOfUint(c1);
    PutUintOfUint(c2);
    assert c3 == (if p.length > 0 then p.body else []) + rest;
    assert EncodeBasic(p) == c1 + c2 + (if p.length > 0 then p.body else []);
    assert c == c1 + c2 + c3;
  }

  /** Writing a basic packet that was read reproduces the bytes it was read from. */
  lemma BasicReencode(b: bytes)
    requires Read(b).Ok? && Read(b).value.Basic?
    ensures Marshal(Read(b).value) + Read(b).rest == b
  {
    hide DecodeBasic, EncodeBasic, DecodeLogic;
    DecodedBasicReencode(b[4..]);
    ConcatAssoc(MAGIC_BASIC, EncodeBasic(Read(b).value.basic), Read(b).rest);
    assert b == b[..4] + b[4..];
  }

  /** Reference bytes of the gateway's heartbeat: a ping is c3 15 a7 65, code 1, length 0. */
  lemma PingBytes()
    ensures Marshal(Basic(BasicPacket(1, 0, []))) == [0xc3, 0x15, 0xa7, 0x65, 0x00, 0x01, 0x00, 0x00]
  {
    assert PutUint(2, 1) == PutUint(1, 0) + [1];
    assert PutUint(2, 0) == PutUint(1, 0) + [0];
  }
}
