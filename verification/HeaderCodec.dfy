/**
 * proto.Marshal and proto.Unmarshal on the Header and Meta messages of wxf/wire/proto/common.proto:
 * default values are omitted, fields are written in field-number order, a later scalar overwrites an
 * earlier one, and fields the schema does not know are kept and written last.
 */
module HeaderCodec {
  import opened Bytes
  import opened ProtoWire
  import Utf8

  datatype Meta = Meta(key: GoString, value: GoString, kind: int32, unknown: bytes)

  datatype Header = Header(
    command: GoString,
    channelId: GoString,
    sequence: uint32,
    flag: int32,
    status: int32,
    dest: GoString,
    meta: seq<Meta>,
    unknown: bytes)

  const KIND_INT: int32 := 0
  const KIND_STRING: int32 := 1
  const KIND_FLOAT: int32 := 2

  const EMPTY_META := Meta([], [], 0, [])
  const EMPTY_HEADER := Header([], [], 0, 0, 0, [], [], [])

  // ---- Writing -------------------------------------------------------------------------------

  /** Negative enum values travel as the 64-bit two's complement. */
  function Extend(v: int32): uint64 {
    if v < 0 then v + TWO_64 else v
  }

  function LenRecord(num: nat, data: bytes): Record {
    Record(num, LEN, Varint(|data|) + data)
  }

  function StringField(num: nat, s: GoString): seq<Record> {
    if s == [] then [] else [LenRecord(num, s)]
  }

  function VarintField(num: nat, v: uint64): seq<Record> {
    if v == 0 then [] else [Record(num, VARINT, Varint(v))]
  }

  function MetaRecords(m: Meta): seq<Record> {
    StringField(1, m.key) + StringField(2, m.value) + VarintField(3, Extend(m.kind))
  }

  function EncodeMeta(m: Meta): bytes {
    PutRecords(MetaRecords(m)) + m.unknown
  }

  function MetaFields(ms: seq<Meta>): seq<Record> {
    if ms == [] then [] else [LenRecord(7, EncodeMeta(ms[0]))] + MetaFields(ms[1..])
  }

  function ScalarRecords(h: Header): seq<Record> {
    StringField(1, h.command) + StringField(2, h.channelId) + VarintField(3, h.sequence)
    + VarintField(4, Extend(h.flag)) + VarintField(5, Extend(h.status)) + StringField(6, h.dest)
  }

  function HeaderRecords(h: Header): seq<Record> {
    ScalarRecords(h) + MetaFields(h.meta)
  }

  function EncodeHeader(h: Header): bytes {
    PutRecords(HeaderRecords(h)) + h.unknown
  }

  predicate TextMeta(m: Meta) {
    Utf8.Valid(m.key) && Utf8.Valid(m.value)
  }

  predicate TextHeader(h: Header) {
    Utf8.Valid(h.command) && Utf8.Valid(h.channelId) && Utf8.Valid(h.dest)
    && forall i :: 0 <= i < |h.meta| ==> TextMeta(h.meta[i])
  }

  /** proto.Marshal: fails on a string that is not UTF-8. */
  function Marshal(h: Header): Option<bytes> {
    if TextHeader(h) then Some(EncodeHeader(h)) else None
  }

  // ---- Reading -------------------------------------------------------------------------------

  function VarintValue(r: Record): uint64
    requires WellFormed(r) && r.wt == VARINT
  {
    VarintIs64(r.raw);
    ConsumeVarint(r.raw).value.0
  }

  function LenValue(r: Record): bytes
    requires WellFormed(r) && r.wt == LEN
  {
    r.raw[ConsumeVarint(r.raw).value.1..]
  }

  /** Enum values are the low 32 bits, as a signed number. */
  function ToInt32(v: uint64): int32 {
    var low := v % TWO_32;
    if low < 0x8000_0000 then low else low - TWO_32
  }

  function SetMetaString(m: Meta, num: nat, s: GoString): Meta {
    if num == 1 then m.(key := s) else m.(value := s)
  }

  function ApplyMeta(m: Meta, r: Record): Option<Meta>
    requires WellFormed(r)
  {
    if r.wt == LEN && (r.num == 1 || r.num == 2) then
      if Utf8.Valid(LenValue(r)) then Some(SetMetaString(m, r.num, LenValue(r))) else None
    else if r.wt == VARINT && r.num == 3 then Some(m.(kind := ToInt32(VarintValue(r))))
    else Some(m.(unknown := m.unknown + PutRecord(r)))
  }

  function FoldMeta(m: Meta, rs: seq<Record>): Option<Meta>
    requires AllWellFormed(rs)
    decreases |rs|
  {
    if rs == [] then Some(m)
    else
      match ApplyMeta(m, rs[0])
      case None => None
      case Some(m1) => FoldMeta(m1, rs[1..])
  }

  function DecodeMeta(b: bytes): Option<Meta> {
    match ParseRecords(b)
    case None => None
    case Some(rs) => ParsedWellFormed(b); FoldMeta(EMPTY_META, rs)
  }

  function SetString(h: Header, num: nat, s: GoString): Header {
    if num == 1 then h.(command := s)
    else if num == 2 then h.(channelId := s)
    else h.(dest := s)
  }

  function SetVarint(h: Header, num: nat, v: uint64): Header {
    if num == 3 then h.(sequence := v % TWO_32)
    else if num == 4 then h.(flag := ToInt32(v))
    else h.(status := ToInt32(v))
  }

  predicate IsString(num: nat) {
    num == 1 || num == 2 || num == 6
  }

  predicate IsVarint(num: nat) {
    3 <= num <= 5
  }

  function ApplyHeader(h: Header, r: Record): Option<Header>
    requires WellFormed(r)
  {
    if r.wt == LEN && IsString(r.num) then
      if Utf8.Valid(LenValue(r)) then Some(SetString(h, r.num, LenValue(r))) else None
    else if r.wt == VARINT && IsVarint(r.num) then Some(SetVarint(h, r.num, VarintValue(r)))
    else if r.wt == LEN && r.num == 7 then
      match DecodeMeta(LenValue(r))
      case None => None
      case Some(m) => Some(h.(meta := h.meta + [m]))
    else Some(h.(unknown := h.unknown + PutRecord(r)))
  }

  function FoldHeader(h: Header, rs: seq<Record>): Option<Header>
    requires AllWellFormed(rs)
    decreases |rs|
  {
    if rs == [] then Some(h)
    else
      match ApplyHeader(h, rs[0])
      case None => None
      case Some(h1) => FoldHeader(h1, rs[1..])
  }

  /** proto.Unmarshal into an empty Header. */
  function DecodeHeader(b: bytes): Option<Header> {
    match ParseRecords(b)
    case None => None
    case Some(rs) => ParsedWellFormed(b); FoldHeader(EMPTY_HEADER, rs)
  }

  // ---- Headers that can exist ----------------------------------------------------------------

  predicate UnknownToMeta(r: Record) {
    !(r.wt == LEN && (r.num == 1 || r.num == 2)) && !(r.wt == VARINT && r.num == 3)
  }

  predicate UnknownToHeader(r: Record) {
    !(r.wt == LEN && (IsString(r.num) || r.num == 7)) && !(r.wt == VARINT && IsVarint(r.num))
  }

  /** Retained bytes are canonical records, none of which the message knows. */
  ghost predicate Retained(u: bytes, unknown: Record -> bool) {
    && ParseRecords(u).Some?
    && var rs := ParseRecords(u).value;
    && PutRecords(rs) == u
    && forall i :: 0 <= i < |rs| ==> unknown(rs[i])
  }

  ghost predicate ValidMeta(m: Meta) {
    TextMeta(m) && Retained(m.unknown, UnknownToMeta)
  }

  ghost predicate ValidHeader(h: Header) {
    TextHeader(h) && Retained(h.unknown, UnknownToHeader)
    && forall i :: 0 <= i < |h.meta| ==> ValidMeta(h.meta[i])
  }

  lemma RetainedEmpty(unknown: Record -> bool)
    ensures Retained([], unknown)
  {
  }

  lemma RetainedGrows(u: bytes, r: Record, unknown: Record -> bool)
    requires Retained(u, unknown) && WellFormed(r) && unknown(r)
    ensures Retained(u + PutRecord(r), unknown)
  {
    hide ConsumeValue, PutRecord;
    var rs := ParseRecords(u).value;
    ParsedWellFormed(u);
    PutRecordsConcat(rs, [r]);
    assert PutRecords([r]) == PutRecord(r) + [] == PutRecord(r);
    RecordsRoundTrip(rs + [r]);
  }

  // ---- The records of a header ---------------------------------------------------------------

  lemma LenRecordReads(num: nat, data: bytes)
    requires 1 <= num <= MAX_FIELD && |data| < TWO_64
    ensures WellFormed(LenRecord(num, data)) && LenValue(LenRecord(num, data)) == data
  {
    VarintRoundTrip(|data|, data);
    TakeDropConcat(Varint(|data|), data);
  }

  lemma VarintRecordReads(num: nat, v: uint64)
    requires 1 <= num <= MAX_FIELD
    ensures var r := Record(num, VARINT, Varint(v));
            WellFormed(r) && VarintValue(r) == v
  {
    VarintRoundTrip(v, []);
    assert Varint(v) + [] == Varint(v);
  }

  lemma ExtendToInt32(v: int32)
    ensures ToInt32(Extend(v)) == v
    ensures Extend(v) == 0 <==> v == 0
  {
  }

  lemma {:induction false} FoldMetaConcat(m: Meta, a: seq<Record>, b: seq<Record>)
    requires AllWellFormed(a) && AllWellFormed(b)
    ensures FoldMeta(m, a + b) == match FoldMeta(m, a) case None => None case Some(m1) => FoldMeta(m1, b)
    decreases |a|
  {
    hide WellFormed, ApplyMeta;
    if a == [] {
      assert a + b == b;
    } else {
      assert (a + b)[0] == a[0] && (a + b)[1..] == a[1..] + b;
      match ApplyMeta(m, a[0])
      case None =>
      case Some(m1) => FoldMetaConcat(m1, a[1..], b);
    }
  }

  lemma {:induction false} FoldHeaderConcat(h: Header, a: seq<Record>, b: seq<Record>)
    requires AllWellFormed(a) && AllWellFormed(b)
    ensures FoldHeader(h, a + b)
         == match FoldHeader(h, a) case None => None case Some(h1) => FoldHeader(h1, b)
    decreases |a|
  {
    hide WellFormed, ApplyHeader;
    if a == [] {
      assert a + b == b;
    } else {
      assert (a + b)[0] == a[0] && (a + b)[1..] == a[1..] + b;
      match ApplyHeader(h, a[0])
      case None =>
      case Some(h1) => FoldHeaderConcat(h1, a[1..], b);
    }
  }

  lemma {:induction false} FoldMetaUnknown(m: Meta, rs: seq<Record>)
    requires AllWellFormed(rs) && forall i :: 0 <= i < |rs| ==> UnknownToMeta(rs[i])
    ensures FoldMeta(m, rs) == Some(m.(unknown := m.unknown + PutRecords(rs)))
    decreases |rs|
  {
    hide WellFormed, PutRecord;
    if rs == [] {
      assert m.unknown + [] == m.unknown;
    } else {
      FoldMetaUnknown(m.(unknown := m.unknown + PutRecord(rs[0])), rs[1..]);
      ConcatAssoc(m.unknown, PutRecord(rs[0]), PutRecords(rs[1..]));
    }
  }

  lemma {:induction false} FoldHeaderUnknown(h: Header, rs: seq<Record>)
    requires AllWellFormed(rs) && forall i :: 0 <= i < |rs| ==> UnknownToHeader(rs[i])
    ensures FoldHeader(h, rs) == Some(h.(unknown := h.unknown + PutRecords(rs)))
    decreases |rs|
  {
    hide WellFormed, PutRecord;
    if rs == [] {
      assert h.unknown + [] == h.unknown;
    } else {
      FoldHeaderUnknown(h.(unknown := h.unknown + PutRecord(rs[0])), rs[1..]);
      ConcatAssoc(h.unknown, PutRecord(rs[0]), PutRecords(rs[1..]));
    }
  }

  /** The bytes of a string are part of the record list they are written in. */
  lemma StringSize(num: nat, s: GoString)
    ensures |s| <= |PutRecords(StringField(num, s))|
  {
    if s != [] {
      var r := LenRecord(num, s);
      assert PutRecords([r]) == PutRecord(r) + PutRecords([]);
    }
  }

  // ---- Meta round trip -----------------------------------------------------------------------

  lemma FoldMetaString(m: Meta, num: nat, s: GoString)
    requires (num == 1 && m.key == []) || (num == 2 && m.value == [])
    requires Utf8.Valid(s) && |s| < TWO_64
    ensures AllWellFormed(StringField(num, s))
    ensures FoldMeta(m, StringField(num, s)) == Some(SetMetaString(m, num, s))
  {
    hide Varint, Utf8.Valid, WellFormed;
    if s != [] {
      LenRecordReads(num, s);
    }
  }

  lemma FoldMetaKind(m: Meta, kind: int32)
    requires m.kind == 0
    ensures AllWellFormed(VarintField(3, Extend(kind)))
    ensures FoldMeta(m, VarintField(3, Extend(kind))) == Some(m.(kind := kind))
  {
    hide Varint, WellFormed;
    ExtendToInt32(kind);
    if kind != 0 {
      VarintRecordReads(3, Extend(kind));
    }
  }

  lemma FoldMetaKnown(m: Meta)
    requires TextMeta(m) && |PutRecords(MetaRecords(m))| < TWO_64
    ensures AllWellFormed(MetaRecords(m))
    ensures FoldMeta(EMPTY_META, MetaRecords(m)) == Some(m.(unknown := []))
  {
    hide StringField, VarintField, WellFormed, FoldMeta, PutRecords, Utf8.Valid;
    var k, v, t := StringField(1, m.key), StringField(2, m.value), VarintField(3, Extend(m.kind));
    PutRecordsConcat(k, v);
    PutRecordsConcat(k + v, t);
    StringSize(1, m.key);
    StringSize(2, m.value);
    FoldMetaString(EMPTY_META, 1, m.key);
    var m1 := EMPTY_META.(key := m.key);
    FoldMetaString(m1, 2, m.value);
    var m2 := m1.(value := m.value);
    FoldMetaKind(m2, m.kind);
    FoldMetaConcat(EMPTY_META, k, v);
    FoldMetaConcat(EMPTY_META, k + v, t);
  }

  lemma MetaRoundTrip(m: Meta)
    requires ValidMeta(m) && |EncodeMeta(m)| < TWO_64
    ensures DecodeMeta(EncodeMeta(m)) == Some(m)
  {
    hide MetaRecords, WellFormed, FoldMeta, PutRecords, Utf8.Valid, ConsumeValue;
    var us := ParseRecords(m.unknown).value;
    ParsedWellFormed(m.unknown);
    FoldMetaKnown(m);
    PutRecordsConcat(MetaRecords(m), us);
    RecordsRoundTrip(MetaRecords(m) + us);
    FoldMetaConcat(EMPTY_META, MetaRecords(m), us);
    FoldMetaUnknown(m.(unknown := []), us);
    assert [] + m.unknown == m.unknown;
  }

  // ---- Header round trip ---------------------------------------------------------------------

  lemma FoldString(h: Header, num: nat, s: GoString)
    requires (num == 1 && h.command == []) || (num == 2 && h.channelId == []) || (num == 6 && h.dest == [])
    requires Utf8.Valid(s) && |s| < TWO_64
    ensures AllWellFormed(StringField(num, s))
    ensures FoldHeader(h, StringField(num, s)) == Some(SetString(h, num, s))
  {
    hide Varint, Utf8.Valid, WellFormed;
    if s != [] {
      LenRecordReads(num, s);
    }
  }

  lemma FoldVarint(h: Header, num: nat, v: uint64)
    requires IsVarint(num) && (v == 0 ==> SetVarint(h, num, 0) == h)
    ensures AllWellFormed(VarintField(num, v))
    ensures FoldHeader(h, VarintField(num, v)) == Some(SetVarint(h, num, v))
  {
    hide Varint, WellFormed;
    if v != 0 {
      VarintRecordReads(num, v);
    }
  }

  /** The first three fields, then the last three. */
  lemma FoldScalars(h: Header)
    requires TextHeader(h) && |PutRecords(ScalarRecords(h))| < TWO_64
    ensures AllWellFormed(ScalarRecords(h))
    ensures FoldHeader(EMPTY_HEADER, ScalarRecords(h)) == Some(h.(meta := [], unknown := []))
  {
    hide StringField, VarintField, WellFormed, FoldHeader, PutRecords, Utf8.Valid;
    var f1, f2, f3 := StringField(1, h.command), StringField(2, h.channelId), VarintField(3, h.sequence);
    var f4, f5, f6 := VarintField(4, Extend(h.flag)), VarintField(5, Extend(h.status)), StringField(6, h.dest);
    PutRecordsConcat(f1, f2);
    PutRecordsConcat(f1 + f2, f3);
    PutRecordsConcat(f1 + f2 + f3, f4);
    PutRecordsConcat(f1 + f2 + f3 + f4, f5);
    PutRecordsConcat(f1 + f2 + f3 + f4 + f5, f6);
    StringSize(1, h.command);
    StringSize(2, h.channelId);
    StringSize(6, h.dest);
    FoldString(EMPTY_HEADER, 1, h.command);
    var h1 := EMPTY_HEADER.(command := h.command);
    FoldString(h1, 2, h.channelId);
    var h2 := h1.(channelId := h.channelId);
    FoldVarint(h2, 3, h.sequence);
    var h3 := h2.(sequence := h.sequence);
    ExtendToInt32(h.flag);
    FoldVarint(h3, 4, Extend(h.flag));
    var h4 := h3.(flag := h.flag);
    ExtendToInt32(h.status);
    FoldVarint(h4, 5, Extend(h.status));
    var h5 := h4.(status := h.status);
    FoldString(h5, 6, h.dest);
    FoldHeaderConcat(EMPTY_HEADER, f1, f2);
    FoldHeaderConcat(EMPTY_HEADER, f1 + f2, f3);
    FoldHeaderConcat(EMPTY_HEADER, f1 + f2 + f3, f4);
    FoldHeaderConcat(EMPTY_HEADER, f1 + f2 + f3 + f4, f5);
    FoldHeaderConcat(EMPTY_HEADER, f1 + f2 + f3 + f4 + f5, f6);
  }

  lemma ApplyOneMeta(h: Header, m: Meta)
    requires ValidMeta(m) && |EncodeMeta(m)| < TWO_64
    ensures var r := LenRecord(7, EncodeMeta(m));
            WellFormed(r) && ApplyHeader(h, r) == Some(h.(meta := h.meta + [m]))
  {
    hide EncodeMeta, ValidMeta, WellFormed, Varint, DecodeMeta;
    LenRecordReads(7, EncodeMeta(m));
    MetaRoundTrip(m);
  }

  /** The repeated field appends, in order. */
  lemma {:induction false} FoldMetas(h: Header, ms: seq<Meta>)
    requires forall i :: 0 <= i < |ms| ==> ValidMeta(ms[i])
    requires |PutRecords(MetaFields(ms))| < TWO_64
    ensures AllWellFormed(MetaFields(ms))
    ensures FoldHeader(h, MetaFields(ms)) == Some(h.(meta := h.meta + ms))
    decreases |ms|
  {
    hide EncodeMeta, ValidMeta, WellFormed, Varint, DecodeMeta, ApplyHeader;
    if ms == [] {
      assert h.meta + [] == h.meta;
    } else {
      var r := LenRecord(7, EncodeMeta(ms[0]));
      assert MetaFields(ms)[0] == r && MetaFields(ms)[1..] == MetaFields(ms[1..]);
      ApplyOneMeta(h, ms[0]);
      FoldMetas(h.(meta := h.meta + [ms[0]]), ms[1..]);
      assert h.meta + [ms[0]] + ms[1..] == h.meta + ms;
    }
  }

  /**
   * Decoding the encoding of a header gives the header back: defaults omitted on the way out come
   * back as defaults, meta order and unknown fields survive.
   */
  lemma HeaderRoundTrip(h: Header)
    requires ValidHeader(h) && |EncodeHeader(h)| < TWO_64
    ensures DecodeHeader(EncodeHeader(h)) == Some(h)
  {
    hide ScalarRecords, MetaFields, WellFormed, FoldHeader, PutRecords, Utf8.Valid, ConsumeValue, ValidMeta;
    var us := ParseRecords(h.unknown).value;
    var a, b := ScalarRecords(h), MetaFields(h.meta);
    ParsedWellFormed(h.unknown);
    PutRecordsConcat(a, b);
    PutRecordsConcat(a + b, us);
    FoldScalars(h);
    FoldMetas(h.(meta := [], unknown := []), h.meta);
    RecordsRoundTrip(a + b + us);
    FoldHeaderConcat(EMPTY_HEADER, a, b);
    FoldHeaderConcat(EMPTY_HEADER, a + b, us);
    assert [] + h.meta == h.meta;
    FoldHeaderUnknown(h.(unknown := []), us);
    assert [] + h.unknown == h.unknown;
  }

  // ---- What a decoder can return -------------------------------------------------------------

  lemma {:induction false} FoldMetaValid(m: Meta, rs: seq<Record>)
    requires AllWellFormed(rs) && ValidMeta(m) && FoldMeta(m, rs).Some?
    ensures ValidMeta(FoldMeta(m, rs).value)
    decreases |rs|
  {
    hide WellFormed, Retained, Utf8.Valid;
    if rs != [] {
      if UnknownToMeta(rs[0]) {
        RetainedGrows(m.unknown, rs[0], UnknownToMeta);
      }
      FoldMetaValid(ApplyMeta(m, rs[0]).value, rs[1..]);
    }
  }

  lemma DecodedMetaValid(b: bytes)
    requires DecodeMeta(b).Some?
    ensures ValidMeta(DecodeMeta(b).value)
  {
    ParsedWellFormed(b);
    RetainedEmpty(UnknownToMeta);
    FoldMetaValid(EMPTY_META, ParseRecords(b).value);
  }

  lemma {:induction false} FoldHeaderValid(h: Header, rs: seq<Record>)
    requires AllWellFormed(rs) && ValidHeader(h) && FoldHeader(h, rs).Some?
    ensures ValidHeader(FoldHeader(h, rs).value)
    decreases |rs|
  {
    hide WellFormed, Retained, Utf8.Valid, DecodeMeta;
    if rs != [] {
      var r := rs[0];
      if UnknownToHeader(r) {
        RetainedGrows(h.unknown, r, UnknownToHeader);
      } else if r.wt == LEN && r.num == 7 {
        DecodedMetaValid(LenValue(r));
      }
      FoldHeaderValid(ApplyHeader(h, r).value, rs[1..]);
    }
  }

  /** Every decoded header, from canonical bytes or not, can be written again. */
  lemma DecodedHeaderValid(b: bytes)
    requires DecodeHeader(b).Some?
    ensures ValidHeader(DecodeHeader(b).value)
  {
    ParsedWellFormed(b);
    RetainedEmpty(UnknownToHeader);
    FoldHeaderValid(EMPTY_HEADER, ParseRecords(b).value);
  }

  /**
   * Re-encoding whatever was decoded and decoding again is stable: overlong varints, repeated
   * scalars, explicit defaults and unordered fields change bytes, never the header.
   */
  lemma DecodeEncodeDecode(b: bytes)
    requires DecodeHeader(b).Some?
    ensures var h := DecodeHeader(b).value;
            |EncodeHeader(h)| < TWO_64 ==> DecodeHeader(EncodeHeader(h)) == Some(h)
  {
    hide EncodeHeader, ValidHeader;
    DecodedHeaderValid(b);
    if |EncodeHeader(DecodeHeader(b).value)| < TWO_64 {
      HeaderRoundTrip(DecodeHeader(b).value);
    }
  }

  // ---- What decoding means -------------------------------------------------------------------

  /** The last string written to field `num`, or the default. */
  ghost function LastString(rs: seq<Record>, num: nat): GoString
    requires AllWellFormed(rs)
  {
    if rs == [] then []
    else
      var r := rs[|rs| - 1];
      if r.wt == 2 && r.num == num then LenValue(r) else LastString(rs[..|rs| - 1], num)
  }

  /** The last number written to field `num`, or the default. */
  ghost function LastVarint(rs: seq<Record>, num: nat): uint64
    requires AllWellFormed(rs)
  {
    if rs == [] then 0
    else
      var r := rs[|rs| - 1];
      if r.wt == 0 && r.num == num then VarintValue(r) else LastVarint(rs[..|rs| - 1], num)
  }

  /** A string field holds text, and an entry of the meta list decodes. */
  ghost predicate Acceptable(r: Record)
    requires WellFormed(r)
  {
    && (r.wt == 2 && r.num in {1, 2, 6} ==> Utf8.Valid(LenValue(r)))
    && (r.wt == 2 && r.num == 7 ==> DecodeMeta(LenValue(r)).Some?)
  }

  ghost predicate AllAcceptable(rs: seq<Record>)
    requires AllWellFormed(rs)
  {
    forall i :: 0 <= i < |rs| ==> Acceptable(rs[i])
  }

  /** All entries of the meta list, in the order they were written. */
  ghost function Entries(rs: seq<Record>): seq<Meta>
    requires AllWellFormed(rs) && AllAcceptable(rs)
  {
    if rs == [] then []
    else
      var r := rs[|rs| - 1];
      assert Acceptable(r);
      var front := Entries(rs[..|rs| - 1]);
      if r.wt == 2 && r.num == 7 then front + [DecodeMeta(LenValue(r)).value] else front
  }

  /** Whether the schema gives field `num` with this wire type a meaning. */
  predicate NotInSchema(r: Record) {
    !(r.wt == 2 && r.num in {1, 2, 6, 7}) && !(r.wt == 0 && r.num in {3, 4, 5})
  }

  lemma {:induction false} FoldSnoc(h: Header, rs: seq<Record>, r: Record)
    requires AllWellFormed(rs) && WellFormed(r)
    ensures AllWellFormed(rs + [r])
    ensures FoldHeader(h, rs + [r])
         == match FoldHeader(h, rs) case None => None case Some(h1) => ApplyHeader(h1, r)
    decreases |rs|
  {
    hide ApplyHeader, WellFormed;
    var all := rs + [r];
    if rs == [] {
      assert all[1..] == [];
    } else {
      assert all[0] == rs[0] && all[1..] == rs[1..] + [r];
      match ApplyHeader(h, rs[0])
      case None =>
      case Some(h1) => FoldSnoc(h1, rs[1..], r);
    }
  }

  /** What one record more does to a header. */
  lemma ApplyMeaning(h: Header, r: Record)
    requires WellFormed(r)
    ensures ApplyHeader(h, r).Some? <==> Acceptable(r)
    ensures Acceptable(r) ==>
              var h1 := ApplyHeader(h, r).value;
              && h1.command == (if r.wt == 2 && r.num == 1 then LenValue(r) else h.command)
              && h1.channelId == (if r.wt == 2 && r.num == 2 then LenValue(r) else h.channelId)
              && h1.dest == (if r.wt == 2 && r.num == 6 then LenValue(r) else h.dest)
              && h1.sequence == (if r.wt == 0 && r.num == 3 then VarintValue(r) % TWO_32 else h.sequence)
              && h1.flag == (if r.wt == 0 && r.num == 4 then ToInt32(VarintValue(r)) else h.flag)
              && h1.status == (if r.wt == 0 && r.num == 5 then ToInt32(VarintValue(r)) else h.status)
              && h1.meta == (if r.wt == 2 && r.num == 7 then h.meta + [DecodeMeta(LenValue(r)).value] else h.meta)
              && h1.unknown == (if NotInSchema(r) then h.unknown + PutRecord(r) else h.unknown)
  {
    hide WellFormed, LenValue, VarintValue, DecodeMeta, ToInt32, Utf8.Valid, PutRecord;
  }

  /** What one record more does to what a header should hold. */
  lemma MeantMore(front: seq<Record>, r: Record)
    requires AllWellFormed(front) && WellFormed(r)
    ensures var rs := front + [r];
            && AllWellFormed(rs)
            && (forall n :: LastString(rs, n) == if r.wt == 2 && r.num == n then LenValue(r) else LastString(front, n))
            && (forall n :: LastVarint(rs, n)
                         == if r.wt == 0 && r.num == n then VarintValue(r) else LastVarint(front, n))
            && (AllAcceptable(rs) <==> AllAcceptable(front) && Acceptable(r))
            && (AllAcceptable(rs) ==>
                  Entries(rs) == Entries(front)
                                 + if r.wt == 2 && r.num == 7 then [DecodeMeta(LenValue(r)).value] else [])
            && PutRecords(Filter(rs, NotInSchema))
               == PutRecords(Filter(front, NotInSchema)) + if NotInSchema(r) then PutRecord(r) else []
  {
    hide WellFormed, LenValue, VarintValue, PutRecords, PutRecord, Acceptable, NotInSchema, DecodeMeta, Filter;
    var rs := front + [r];
    assert rs[..|rs| - 1] == front && rs[|rs| - 1] == r;
    assert forall i :: 0 <= i < |front| ==> front[i] == rs[i];
    FilterConcat(front, [r], NotInSchema);
    FilterOne(r, NotInSchema);
    PutRecordsConcat(Filter(front, NotInSchema), Filter([r], NotInSchema));
    PutOne(r);
    NothingPut();
  }

  /**
   * Which headers can be read and what they hold, canonical or not: the last scalar of a field wins,
   * entries are collected in order, and what the schema does not name is kept as it was.
   */
  lemma {:induction false} FoldMeaning(rs: seq<Record>)
    requires AllWellFormed(rs)
    ensures FoldHeader(EMPTY_HEADER, rs).Some? <==> AllAcceptable(rs)
    ensures AllAcceptable(rs) ==>
              FoldHeader(EMPTY_HEADER, rs)
              == Some(Header(LastString(rs, 1), LastString(rs, 2), LastVarint(rs, 3) % TWO_32,
                             ToInt32(LastVarint(rs, 4)), ToInt32(LastVarint(rs, 5)), LastString(rs, 6),
                             Entries(rs), PutRecords(Filter(rs, NotInSchema))))
    decreases |rs|
  {
    if rs == [] {
      NothingPut();
    } else {
      hide WellFormed, LenValue, VarintValue, ToInt32, ApplyHeader, FoldHeader, PutRecords, PutRecord, Acceptable,
        NotInSchema, LastString, LastVarint, Entries, AllAcceptable, Filter, DecodeMeta;
      var front, r := rs[..|rs| - 1], rs[|rs| - 1];
      assert rs == front + [r];
      FoldMeaning(front);
      FoldSnoc(EMPTY_HEADER, front, r);
      MeantMore(front, r);
      if AllAcceptable(front) {
        ApplyMeaning(FoldHeader(EMPTY_HEADER, front).value, r);
        var entries, kept := Entries(front), PutRecords(Filter(front, NotInSchema));
        assert entries + [] == entries && kept + [] == kept;
      }
    }
  }

  lemma NothingPut()
    ensures PutRecords([]) == [] && ToInt32(0) == 0
  {
  }

  /** Enum values are read as the signed number of their low 32 bits, and written back as 64 bits. */
  lemma EnumMeaning(v: uint64)
    ensures ToInt32(v) % TWO_32 == v % TWO_32
    ensures ToInt32(v) == -1 <==> v % TWO_32 == 0xFFFF_FFFF
  {
  }

  // ---- No part of an encoding stands for the whole -------------------------------------------

  /** How much a header holds: fields that are not default, metas, retained bytes. */
  function Holds(h: Header): nat {
    (if h.command == [] then 0 else 1) + (if h.channelId == [] then 0 else 1)
    + (if h.sequence == 0 then 0 else 1) + (if h.flag == 0 then 0 else 1)
    + (if h.status == 0 then 0 else 1) + (if h.dest == [] then 0 else 1)
    + |h.meta| + |h.unknown|
  }

  /** How much a record can add to a header. */
  function Adds(r: Record): (n: nat)
    ensures n > 0
  {
    if UnknownToHeader(r) then |PutRecord(r)| else 1
  }

  function AddsAll(rs: seq<Record>): nat {
    if rs == [] then 0 else Adds(rs[0]) + AddsAll(rs[1..])
  }

  lemma {:induction false} AddsConcat(a: seq<Record>, b: seq<Record>)
    ensures AddsAll(a + b) == AddsAll(a) + AddsAll(b)
  {
    if a == [] {
      assert a + b == b;
    } else {
      assert (a + b)[0] == a[0] && (a + b)[1..] == a[1..] + b;
      AddsConcat(a[1..], b);
    }
  }

  lemma SetHolds(h: Header, num: nat, s: GoString, v: uint64)
    ensures IsString(num) ==> Holds(SetString(h, num, s)) <= Holds(h) + 1
    ensures IsVarint(num) ==> Holds(SetVarint(h, num, v)) <= Holds(h) + 1
  {
  }

  lemma ApplyHolds(h: Header, r: Record)
    requires WellFormed(r) && ApplyHeader(h, r).Some?
    ensures Holds(ApplyHeader(h, r).value) <= Holds(h) + Adds(r)
  {
    hide WellFormed, PutRecord, DecodeMeta, Utf8.Valid, SetString, SetVarint, LenValue, VarintValue;
    if r.wt == LEN && IsString(r.num) {
      SetHolds(h, r.num, LenValue(r), 0);
    } else if r.wt == VARINT && IsVarint(r.num) {
      SetHolds(h, r.num, [], VarintValue(r));
    }
  }

  lemma {:induction false} FoldHolds(h: Header, rs: seq<Record>)
    requires AllWellFormed(rs) && FoldHeader(h, rs).Some?
    ensures Holds(FoldHeader(h, rs).value) <= Holds(h) + AddsAll(rs)
    decreases |rs|
  {
    hide ApplyHeader, Adds, Holds, WellFormed;
    if rs != [] {
      var h1 := ApplyHeader(h, rs[0]).value;
      ApplyHolds(h, rs[0]);
      FoldHolds(h1, rs[1..]);
    }
  }

  lemma {:induction false} UnknownAdds(rs: seq<Record>)
    requires forall i :: 0 <= i < |rs| ==> UnknownToHeader(rs[i])
    ensures AddsAll(rs) == |PutRecords(rs)|
  {
    hide PutRecord;
    if rs != [] {
      UnknownAdds(rs[1..]);
    }
  }

  lemma {:induction false} MetasAdd(ms: seq<Meta>)
    ensures AddsAll(MetaFields(ms)) == |ms|
  {
    hide EncodeMeta, PutRecord;
    if ms != [] {
      MetasAdd(ms[1..]);
      var all := MetaFields(ms);
      assert all[0] == LenRecord(7, EncodeMeta(ms[0])) && all[1..] == MetaFields(ms[1..]);
    }
  }

  lemma FieldAdds(num: nat, s: GoString, v: uint64)
    ensures IsString(num) ==> AddsAll(StringField(num, s)) == if s == [] then 0 else 1
    ensures IsVarint(num) ==> AddsAll(VarintField(num, v)) == if v == 0 then 0 else 1
  {
    hide PutRecord, Varint;
    if s != [] {
      assert StringField(num, s)[1..] == [];
    }
    if v != 0 {
      assert VarintField(num, v)[1..] == [];
    }
  }

  /** The records of a header add exactly what it holds. */
  lemma ScalarsAdd(h: Header)
    ensures AddsAll(ScalarRecords(h)) == Holds(h) - |h.meta| - |h.unknown|
  {
    hide StringField, VarintField, AddsAll;
    var f1, f2, f3 := StringField(1, h.command), StringField(2, h.channelId), VarintField(3, h.sequence);
    var f4, f5, f6 := VarintField(4, Extend(h.flag)), VarintField(5, Extend(h.status)), StringField(6, h.dest);
    AddsConcat(f1, f2);
    AddsConcat(f1 + f2, f3);
    AddsConcat(f1 + f2 + f3, f4);
    AddsConcat(f1 + f2 + f3 + f4, f5);
    AddsConcat(f1 + f2 + f3 + f4 + f5, f6);
    FieldAdds(1, h.command, 0);
    FieldAdds(2, h.channelId, 0);
    FieldAdds(3, [], h.sequence);
    FieldAdds(4, [], Extend(h.flag));
    FieldAdds(5, [], Extend(h.status));
    FieldAdds(6, h.dest, 0);
    ExtendToInt32(h.flag);
    ExtendToInt32(h.status);
  }

  lemma EncodingParses(h: Header)
    requires ValidHeader(h) && |EncodeHeader(h)| < TWO_64
    ensures ParseRecords(EncodeHeader(h)).Some?
    ensures AddsAll(ParseRecords(EncodeHeader(h)).value) == Holds(h)
  {
    hide ScalarRecords, MetaFields, WellFormed, PutRecords, Utf8.Valid, ConsumeValue, ValidMeta, Holds, AddsAll;
    var us := ParseRecords(h.unknown).value;
    var a, b := ScalarRecords(h), MetaFields(h.meta);
    ParsedWellFormed(h.unknown);
    PutRecordsConcat(a, b);
    PutRecordsConcat(a + b, us);
    FoldScalars(h);
    FoldMetas(h.(meta := [], unknown := []), h.meta);
    RecordsRoundTrip(a + b + us);
    AddsConcat(a, b);
    AddsConcat(a + b, us);
    ScalarsAdd(h);
    MetasAdd(h.meta);
    UnknownAdds(us);
  }

  /** A strict prefix of the encoding of a header never decodes to that header. */
  lemma HeaderPrefixDiffers(h: Header, k: nat)
    requires ValidHeader(h) && |EncodeHeader(h)| < TWO_64 && k < |EncodeHeader(h)|
    ensures DecodeHeader(EncodeHeader(h)[..k]) != Some(h)
  {
    hide EncodeHeader, ValidHeader, Holds, FoldHeader, AddsAll;
    var e := EncodeHeader(h);
    var x, y := e[..k], e[k..];
    assert e == x + y;
    if DecodeHeader(x).Some? {
      ParsedWellFormed(x);
      EncodingParses(h);
      ParseAppend(x, y);
      ParseNonempty(y);
      var rs, more := ParseRecords(x).value, ParseRecords(y).value;
      AddsConcat(rs, more);
      FoldHolds(EMPTY_HEADER, rs);
      AddsSome(more);
    }
  }

  lemma AddsSome(rs: seq<Record>)
    requires rs != []
    ensures AddsAll(rs) > 0 && Holds(EMPTY_HEADER) == 0
  {
  }

  lemma ReferenceMeta()
    ensures EncodeMeta(Meta([0x6B], [0x76], KIND_STRING, [])) == [0x0A, 0x01, 0x6B, 0x12, 0x01, 0x76, 0x18, 0x01]
  {
    var m := Meta([0x6B], [0x76], KIND_STRING, []);
    var k, w, t := LenRecord(1, [0x6B]), LenRecord(2, [0x76]), Record(3, VARINT, Varint(1));
    assert MetaRecords(m) == [k] + [w] + [t];
    PutRecordsConcat([k], [w]);
    PutRecordsConcat([k] + [w], [t]);
    PutOne(k);
    PutOne(w);
    PutOne(t);
  }

  lemma ReferenceSequence()
    ensures EncodeHeader(EMPTY_HEADER.(sequence := 150)) == [0x18, 0x96, 0x01]
  {
    var r := Record(3, VARINT, Varint(150));
    assert Varint(150) == [0x96] + Varint(1);
    assert HeaderRecords(EMPTY_HEADER.(sequence := 150)) == [r];
    PutOne(r);
  }

  lemma ReferenceDest()
    ensures EncodeHeader(EMPTY_HEADER.(dest := [0x61, 0x62])) == [0x32, 0x02, 0x61, 0x62]
  {
    var r := LenRecord(6, [0x61, 0x62]);
    assert Varint(50) == [0x32];
    assert HeaderRecords(EMPTY_HEADER.(dest := [0x61, 0x62])) == [r];
    PutOne(r);
  }

  lemma ReferenceMetaField()
    ensures EncodeHeader(EMPTY_HEADER.(meta := [Meta([0x6B], [0x76], KIND_STRING, [])]))
         == [0x3A, 0x08, 0x0A, 0x01, 0x6B, 0x12, 0x01, 0x76, 0x18, 0x01]
  {
    hide EncodeMeta;
    ReferenceMeta();
    var m := Meta([0x6B], [0x76], KIND_STRING, []);
    var r := LenRecord(7, EncodeMeta(m));
    assert [m][1..] == [];
    assert MetaFields([m]) == [r];
    assert HeaderRecords(EMPTY_HEADER.(meta := [m])) == [r];
    assert Varint(58) == [0x3A] && Varint(8) == [0x08];
    PutOne(r);
  }

  /** Reference bytes: field 3 holding 150 is 18 96 01. */
  lemma ReferenceBytes()
    ensures EncodeHeader(EMPTY_HEADER.(sequence := 150)) == [0x18, 0x96, 0x01]
    ensures EncodeHeader(EMPTY_HEADER.(dest := [0x61, 0x62])) == [0x32, 0x02, 0x61, 0x62]
    ensures EncodeHeader(EMPTY_HEADER.(meta := [Meta([0x6B], [0x76], KIND_STRING, [])]))
         == [0x3A, 0x08, 0x0A, 0x01, 0x6B, 0x12, 0x01, 0x76, 0x18, 0x01]
  {
    hide EncodeHeader;
    ReferenceSequence();
    ReferenceDest();
    ReferenceMetaField();
  }

  lemma PutOne(r: Record)
    ensures PutRecords([r]) == PutRecord(r)
  {
    assert [r][1..] == [];
    assert PutRecord(r) + [] == PutRecord(r);
  }

  // ---- The bytes, field by field -------------------------------------------------------------

  lemma SmallVarint(v: nat)
    requires v < 128
    ensures Varint(v) == [v]
  {
  }

  /** A string field: its tag, the length, the text; nothing for the empty string. */
  function StringBytes(tag: byte, s: GoString): bytes
    requires |s| < 128
  {
    if s == [] then [] else [tag, |s|] + s
  }

  function NumberBytes(tag: byte, v: nat): bytes {
    if v == 0 then [] else [tag] + Varint(v)
  }

  lemma StringFieldBytes(num: nat, s: GoString)
    requires num < 16 && |s| < 128
    ensures PutRecords(StringField(num, s)) == StringBytes(8 * num + 2, s)
  {
    hide Varint;
    SmallVarint(8 * num + 2);
    SmallVarint(|s|);
    PutOne(LenRecord(num, s));
  }

  lemma VarintFieldBytes(num: nat, v: uint64)
    requires num < 16
    ensures PutRecords(VarintField(num, v)) == NumberBytes(8 * num, v)
  {
    hide Varint;
    SmallVarint(8 * num);
    PutOne(Record(num, VARINT, Varint(v)));
  }

  /** A meta entry of type string: tags 0A, 12 and 18, each text behind its length, the type 1. */
  lemma StringMetaBytes(key: GoString, value: GoString)
    requires 0 < |key| < 128 && 0 < |value| < 128
    ensures EncodeMeta(Meta(key, value, 1, []))
         == [0x0A, |key|] + key + ([0x12, |value|] + value) + [0x18, 0x01]
  {
    hide Varint, StringField, VarintField, PutRecords;
    var m := Meta(key, value, 1, []);
    StringFieldBytes(1, key);
    StringFieldBytes(2, value);
    VarintFieldBytes(3, 1);
    SmallVarint(1);
    PutRecordsConcat(StringField(1, key), StringField(2, value));
    PutRecordsConcat(StringField(1, key) + StringField(2, value), VarintField(3, 1));
  }

  lemma MetaFieldBytes(m: Meta, ms: seq<Meta>)
    requires |EncodeMeta(m)| < 128
    ensures PutRecords(MetaFields([m] + ms)) == [0x3A, |EncodeMeta(m)|] + EncodeMeta(m) + PutRecords(MetaFields(ms))
  {
    hide Varint, EncodeMeta, MetaFields;
    SmallVarint(0x3A);
    SmallVarint(|EncodeMeta(m)|);
    MetaFieldsConcat([m], ms);
    OneMetaField(m);
    PutOne(LenRecord(7, EncodeMeta(m)));
    PutRecordsConcat(MetaFields([m]), MetaFields(ms));
  }

  lemma HeaderParts(h: Header)
    ensures EncodeHeader(h)
         == PutRecords(StringField(1, h.command)) + PutRecords(StringField(2, h.channelId))
            + PutRecords(VarintField(3, h.sequence)) + PutRecords(VarintField(4, Extend(h.flag)))
            + PutRecords(VarintField(5, Extend(h.status))) + PutRecords(StringField(6, h.dest))
            + PutRecords(MetaFields(h.meta)) + h.unknown
  {
    hide StringField, VarintField, PutRecords, MetaFields, Extend;
    var f1, f2, f3 := StringField(1, h.command), StringField(2, h.channelId), VarintField(3, h.sequence);
    var f4, f5, f6 := VarintField(4, Extend(h.flag)), VarintField(5, Extend(h.status)), StringField(6, h.dest);
    PutRecordsConcat(f1, f2);
    PutRecordsConcat(f1 + f2, f3);
    PutRecordsConcat(f1 + f2 + f3, f4);
    PutRecordsConcat(f1 + f2 + f3 + f4, f5);
    PutRecordsConcat(f1 + f2 + f3 + f4 + f5, f6);
    PutRecordsConcat(f1 + f2 + f3 + f4 + f5 + f6, MetaFields(h.meta));
  }

  /** The fields of a header in the order of their numbers, negative enums as 64-bit numbers. */
  lemma HeaderBytes(h: Header)
    requires |h.command| < 128 && |h.channelId| < 128 && |h.dest| < 128
    ensures EncodeHeader(h)
         == StringBytes(0x0A, h.command) + StringBytes(0x12, h.channelId) + NumberBytes(0x18, h.sequence)
            + NumberBytes(0x20, if h.flag < 0 then h.flag + TWO_64 else h.flag)
            + NumberBytes(0x28, if h.status < 0 then h.status + TWO_64 else h.status)
            + StringBytes(0x32, h.dest) + PutRecords(MetaFields(h.meta)) + h.unknown
  {
    hide Varint, StringField, VarintField, PutRecords, MetaFields, EncodeHeader, StringBytes, NumberBytes;
    HeaderParts(h);
    StringFieldBytes(1, h.command);
    StringFieldBytes(2, h.channelId);
    VarintFieldBytes(3, h.sequence);
    VarintFieldBytes(4, Extend(h.flag));
    VarintFieldBytes(5, Extend(h.status));
    StringFieldBytes(6, h.dest);
  }

  lemma VarintStep(v: nat)
    requires v >= 128
    ensures Varint(v) == [v % 128 + 128] + Varint(v / 128)
  {
  }

  lemma MinusOneBytes()
    ensures Varint(0xFFFF_FFFF_FFFF_FFFF) == [0xFF, 0xFF, 0xFF, 0xFF, 0xFF, 0xFF, 0xFF, 0xFF, 0xFF, 0x01]
  {
    hide Varint;
    VarintStep(0xFFFF_FFFF_FFFF_FFFF);
    VarintStep(0x1FF_FFFF_FFFF_FFFF);
    VarintStep(0x3_FFFF_FFFF_FFFF);
    VarintStep(0x7FF_FFFF_FFFF);
    VarintStep(0xF_FFFF_FFFF);
    VarintStep(0x1FFF_FFFF);
    VarintStep(0x3F_FFFF);
    VarintStep(0x7FFF);
    VarintStep(0xFF);
    SmallVarint(1);
  }

  lemma SmallNumbers()
    ensures Varint(150) == [0x96, 0x01] && Varint(2) == [0x02] && PutRecords(MetaFields([])) == []
  {
    hide Varint;
    VarintStep(150);
    SmallVarint(1);
    SmallVarint(2);
  }

  lemma ReferenceFields()
    ensures StringBytes(0x0A, [0x63]) == [0x0A, 0x01, 0x63] && StringBytes(0x12, [0x69]) == [0x12, 0x01, 0x69]
    ensures StringBytes(0x32, [0x64]) == [0x32, 0x01, 0x64]
    ensures NumberBytes(0x18, 150) == [0x18, 0x96, 0x01] && NumberBytes(0x20, 2) == [0x20, 0x02]
    ensures NumberBytes(0x28, -1 + TWO_64)
         == [0x28, 0xFF, 0xFF, 0xFF, 0xFF, 0xFF, 0xFF, 0xFF, 0xFF, 0xFF, 0x01]
  {
    hide Varint;
    SmallNumbers();
    MinusOneBytes();
  }

  lemma ReferenceMetas()
    ensures PutRecords(MetaFields([Meta([0x6B], [0x76], 1, [])]))
         == [0x3A, 0x08, 0x0A, 0x01, 0x6B, 0x12, 0x01, 0x76, 0x18, 0x01]
  {
    hide Varint, EncodeMeta, PutRecords, MetaFields;
    var m := Meta([0x6B], [0x76], 1, []);
    StringMetaBytes([0x6B], [0x76]);
    assert [m] + [] == [m];
    MetaFieldBytes(m, []);
    SmallNumbers();
  }

  /** Reference bytes of a header with every field set: flag Push (2), status -1, one string entry. */
  lemma ReferenceHeader()
    ensures EncodeHeader(Header([0x63], [0x69], 150, 2, -1, [0x64], [Meta([0x6B], [0x76], 1, [])], []))
         == [0x0A, 0x01, 0x63, 0x12, 0x01, 0x69, 0x18, 0x96, 0x01, 0x20, 0x02,
             0x28, 0xFF, 0xFF, 0xFF, 0xFF, 0xFF, 0xFF, 0xFF, 0xFF, 0xFF, 0x01, 0x32, 0x01, 0x64,
             0x3A, 0x08, 0x0A, 0x01, 0x6B, 0x12, 0x01, 0x76, 0x18, 0x01]
  {
    hide Varint, EncodeHeader, EncodeMeta, PutRecords, MetaFields, StringBytes, NumberBytes;
    HeaderBytes(Header([0x63], [0x69], 150, 2, -1, [0x64], [Meta([0x6B], [0x76], 1, [])], []));
    ReferenceFields();
    ReferenceMetas();
  }

  // ---- Sizes ---------------------------------------------------------------------------------

  lemma LenRecordSize(num: nat, data: bytes)
    requires num < 16 && |data| < TWO_64
    ensures |PutRecord(LenRecord(num, data))| <= |data| + 20
  {
    hide Varint;
    VarintLength(8 * num + LEN);
    VarintLength(|data|);
  }

  lemma StringFieldSize(num: nat, s: GoString)
    requires num < 16 && |s| < TWO_64
    ensures |PutRecords(StringField(num, s))| <= |s| + 20
  {
    hide PutRecord, Varint;
    if s != [] {
      LenRecordSize(num, s);
      PutOne(LenRecord(num, s));
    }
  }

  lemma MetaSize(m: Meta)
    requires m.unknown == [] && |m.key| + |m.value| < TWO_32
    ensures |EncodeMeta(m)| <= |m.key| + |m.value| + 60
  {
    hide StringField, Varint, Extend;
    var k, v, t := StringField(1, m.key), StringField(2, m.value), VarintField(3, Extend(m.kind));
    StringFieldSize(1, m.key);
    StringFieldSize(2, m.value);
    PutOne(Record(3, VARINT, Varint(Extend(m.kind))));
    VarintLength(Extend(m.kind));
    VarintLength(8 * 3 + VARINT);
    PutRecordsConcat(k, v);
    PutRecordsConcat(k + v, t);
  }

  lemma {:induction false} MetaFieldsConcat(a: seq<Meta>, b: seq<Meta>)
    ensures MetaFields(a + b) == MetaFields(a) + MetaFields(b)
  {
    hide EncodeMeta, LenRecord;
    if a == [] {
      assert a + b == b;
    } else {
      assert (a + b)[0] == a[0] && (a + b)[1..] == a[1..] + b;
      MetaFieldsConcat(a[1..], b);
    }
  }

  /** One entry more costs its texts and a constant. */
  lemma AddedMetaSize(h: Header, m: Meta)
    requires m.unknown == [] && |m.key| + |m.value| + 100 < TWO_32
    ensures |EncodeHeader(h.(meta := h.meta + [m]))| <= |EncodeHeader(h)| + |m.key| + |m.value| + 80
  {
    hide EncodeMeta, Varint, PutRecords, MetaFields, ScalarRecords, PutRecord;
    MetaSize(m);
    LenRecordSize(7, EncodeMeta(m));
    OneMetaField(m);
    MetaFieldsConcat(h.meta, [m]);
    var a, b, c := ScalarRecords(h), MetaFields(h.meta), MetaFields([m]);
    assert ScalarRecords(h.(meta := h.meta + [m])) == a by { ScalarsSame(h, h.meta + [m]); }
    PutRecordsConcat(a, b);
    PutRecordsConcat(a, b + c);
    PutRecordsConcat(b, c);
    PutOne(LenRecord(7, EncodeMeta(m)));
  }

  /** Appending an entry never makes the encoding shorter. */
  lemma AddedMetaGrows(h: Header, m: Meta)
    ensures |EncodeHeader(h)| <= |EncodeHeader(h.(meta := h.meta + [m]))|
  {
    hide PutRecords, MetaFields, ScalarRecords, PutRecord;
    MetaFieldsConcat(h.meta, [m]);
    var a, b, c := ScalarRecords(h), MetaFields(h.meta), MetaFields([m]);
    assert ScalarRecords(h.(meta := h.meta + [m])) == a by { ScalarsSame(h, h.meta + [m]); }
    PutRecordsConcat(a, b);
    PutRecordsConcat(a, b + c);
    PutRecordsConcat(b, c);
  }

  lemma ScalarsSame(h: Header, ms: seq<Meta>)
    ensures ScalarRecords(h.(meta := ms)) == ScalarRecords(h)
  {
  }

  lemma OneMetaField(m: Meta)
    ensures MetaFields([m]) == [LenRecord(7, EncodeMeta(m))]
  {
    hide EncodeMeta, LenRecord;
    assert [m][1..] == [];
  }
}
