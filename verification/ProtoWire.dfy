/**
 * The record layer of the Protocol Buffers encoding: "Base 128 Varints", "Message Structure",
 * "Length-Delimited Records" and groups, as the Encoding specification describes them.
 *
 * A message is a list of records; a record keeps the bytes of its value as they were received,
 * because unknown fields are kept and written back.
 */
module ProtoWire {
  import opened Bytes

  const VARINT := 0
  const I64 := 1
  const LEN := 2
  const SGROUP := 3
  const EGROUP := 4
  const I32 := 5
  const MAX_FIELD := 0x1FFF_FFFF

  datatype Record = Record(num: nat, wt: nat, raw: bytes)

  /** A field number and wire type read off the front of some bytes, `len` bytes long. */
  datatype FieldTag = FieldTag(num: nat, wt: nat, len: nat)

  // ---- Varints -------------------------------------------------------------------------------

  function Varint(v: nat): (b: bytes)
    ensures b != []
  {
    if v < 128 then [v] else [v % 128 + 128] + Varint(v / 128)
  }

  /** How large a value may still be at byte `i` of a 64-bit varint: the tenth byte holds one bit. */
  function Cap(i: nat): nat
    requires i <= 9
    decreases 9 - i
  {
    if i == 9 then 2 else 128 * Cap(i + 1)
  }

  /** The varint at the front of `b` and its length; `i` bytes of it were read before. */
  function ConsumeVarint(b: bytes, i: nat := 0): (r: Option<(nat, nat)>)
    requires i <= 9
    ensures r.Some? ==> 0 < r.value.1 <= |b| && r.value.0 < Cap(i)
    decreases 9 - i
  {
    if b == [] then None
    else if i == 9 then
      if b[0] < 2 then Some((b[0], 1)) else None
    else if b[0] < 128 then
      assert Cap(i + 1) >= 1 by { CapPositive(i + 1); }
      Some((b[0], 1))
    else
      match ConsumeVarint(b[1..], i + 1)
      case None => None
      case Some((v, n)) => Some((b[0] - 128 + 128 * v, n + 1))
  }

  lemma {:induction false} CapPositive(i: nat)
    requires i <= 9
    ensures Cap(i) >= 2
    decreases 9 - i
  {
    if i < 9 { CapPositive(i + 1); }
  }

  lemma CapIsTwo64()
    ensures Cap(0) == TWO_64
  {
    assert Cap(8) == 128 * 2;
    assert Cap(7) == 128 * 128 * 2;
    assert Cap(6) == 128 * 128 * 128 * 2;
    assert Cap(5) == 128 * 128 * 128 * 128 * 2;
    assert Cap(4) == 128 * 128 * 128 * 128 * 128 * 2;
    assert Cap(3) == 128 * 128 * 128 * 128 * 128 * 128 * 2;
    assert Cap(2) == 128 * 128 * 128 * 128 * 128 * 128 * 128 * 2;
    assert Cap(1) == 128 * 128 * 128 * 128 * 128 * 128 * 128 * 128 * 2;
  }

  lemma {:induction false} VarintRoundTripAt(v: nat, tail: bytes, i: nat)
    requires i <= 9 && v < Cap(i)
    ensures ConsumeVarint(Varint(v) + tail, i) == Some((v, |Varint(v)|))
    decreases v
  {
    var b := Varint(v) + tail;
    if i == 9 {
      assert b[0] == v;
    } else if v < 128 {
      assert b[0] == v;
    } else {
      VarintRoundTripAt(v / 128, tail, i + 1);
      assert b[1..] == Varint(v / 128) + tail;
    }
  }

  /** Every 64-bit value is read back from its varint, whatever follows. */
  lemma VarintRoundTrip(v: uint64, tail: bytes)
    ensures ConsumeVarint(Varint(v) + tail) == Some((v, |Varint(v)|))
  {
    CapIsTwo64();
    VarintRoundTripAt(v, tail, 0);
  }

  lemma {:induction false} VarintLengthAt(v: nat, i: nat)
    requires i <= 9 && v < Cap(i)
    ensures |Varint(v)| <= 10 - i
    decreases v
  {
    if v >= 128 {
      VarintLengthAt(v / 128, i + 1);
    }
  }

  /** A 64-bit varint takes at most ten bytes. */
  lemma VarintLength(v: uint64)
    ensures |Varint(v)| <= 10
  {
    CapIsTwo64();
    VarintLengthAt(v, 0);
  }

  lemma VarintIs64(b: bytes)
    ensures var r := ConsumeVarint(b); r.Some? ==> r.value.0 < TWO_64
  {
    CapIsTwo64();
  }

  /** What a varint reads does not depend on the bytes behind it. */
  lemma {:induction false} VarintStable(x: bytes, y: bytes, z: bytes, i: nat := 0)
    requires i <= 9
    requires ConsumeVarint(x + y, i).Some? && ConsumeVarint(x + y, i).value.1 <= |x|
    ensures ConsumeVarint(x + z, i) == ConsumeVarint(x + y, i)
    decreases |x|
  {
    assert x != [];
    assert (x + y)[0] == x[0] == (x + z)[0];
    if i < 9 && x[0] >= 128 {
      assert (x + y)[1..] == x[1..] + y;
      assert (x + z)[1..] == x[1..] + z;
      VarintStable(x[1..], y, z, i + 1);
    }
  }

  /** The value of the seven-bit groups of some bytes, least significant first. */
  function Groups(b: bytes): nat {
    if b == [] then 0 else b[0] % 128 + 128 * Groups(b[1..])
  }

  /** The first `n` bytes are a varint: the last one alone has no continuation bit. */
  ghost predicate Terminated(b: bytes, n: int) {
    0 < n <= |b| && b[n - 1] < 128 && forall i :: 0 <= i < n - 1 ==> b[i] >= 128
  }

  /** And it has room for 64 bits, `i` bytes having been read before: the tenth byte holds one bit. */
  ghost predicate FitsVarint(b: bytes, n: int, i: nat) {
    Terminated(b, n) && n <= 10 - i && (n == 10 - i ==> b[n - 1] < 2)
  }

  lemma TerminatedOne(b: bytes, n: int)
    requires b != [] && b[0] < 128
    ensures Terminated(b, n) <==> n == 1
    ensures Groups(b[..1]) == b[0]
  {
    assert b[..1][1..] == [];
  }

  lemma TerminatedNext(b: bytes, n: int)
    requires b != [] && b[0] >= 128
    ensures Terminated(b, n) <==> Terminated(b[1..], n - 1)
    ensures Terminated(b, n) ==>
              && 1 < n <= |b| && b[n - 1] == b[1..][n - 2]
              && Groups(b[..n]) == b[0] - 128 + 128 * Groups(b[1..][..n - 1])
  {
    if Terminated(b[1..], n - 1) {
      assert forall j :: 0 < j < n ==> b[j] == b[1..][j - 1];
    }
    if Terminated(b, n) {
      assert n > 1;
      assert forall j :: 0 <= j < n - 1 ==> b[1..][j] == b[j + 1];
      assert b[..n][1..] == b[1..][..n - 1];
    }
  }

  lemma {:induction false} ConsumeMeaningAt(b: bytes, i: nat, n: int)
    requires i <= 9
    ensures FitsVarint(b, n, i) ==> ConsumeVarint(b, i) == Some((Groups(b[..n]), n))
    ensures ConsumeVarint(b, i).Some? ==> FitsVarint(b, ConsumeVarint(b, i).value.1, i)
    decreases 9 - i
  {
    hide Groups, Cap;
    if b == [] {
      assert !Terminated(b, n);
    } else if b[0] < 128 {
      hide Terminated;
      TerminatedOne(b, n);
      TerminatedOne(b, 1);
    } else if i < 9 {
      hide Terminated;
      ConsumeMeaningAt(b[1..], i + 1, n - 1);
      TerminatedNext(b, n);
      if ConsumeVarint(b, i).Some? {
        TerminatedNext(b, ConsumeVarint(b, i).value.1);
      }
    } else {
      TerminatedNext(b, n);
    }
  }

  /**
   * What a varint is: bytes with continuation bits up to the last one, at most ten and within 64 bits.
   * They are read as the number their seven-bit groups make, overlong forms included.
   */
  lemma VarintMeaning(b: bytes)
    ensures ConsumeVarint(b).Some? <==> exists n :: FitsVarint(b, n, 0)
    ensures forall n :: FitsVarint(b, n, 0) ==> ConsumeVarint(b) == Some((Groups(b[..n]), n))
  {
    ConsumeMeaningAt(b, 0, 0);
    forall n | FitsVarint(b, n, 0)
      ensures ConsumeVarint(b) == Some((Groups(b[..n]), n))
    {
      ConsumeMeaningAt(b, 0, n);
    }
  }

  // ---- Field values --------------------------------------------------------------------------

  /** Length of the value of a field of wire type `wt` at the front of `b`. */
  function ConsumeValue(num: nat, wt: nat, b: bytes): (r: Option<nat>)
    ensures r.Some? ==> r.value <= |b|
    decreases |b|, 1
  {
    if wt == VARINT then
      match ConsumeVarint(b)
      case None => None
      case Some((_, n)) => Some(n)
    else if wt == I64 then
      if |b| >= 8 then Some(8) else None
    else if wt == LEN then
      match ConsumeVarint(b)
      case None => None
      case Some((m, n)) => if n + m <= |b| then Some(n + m) else None
    else if wt == SGROUP then ConsumeGroup(num, b)
    else if wt == I32 then
      if |b| >= 4 then Some(4) else None
    else None
  }

  /** Fields up to and with the end-group tag of group `num`. */
  function ConsumeGroup(num: nat, b: bytes): (r: Option<nat>)
    ensures r.Some? ==> r.value <= |b|
    decreases |b|, 0
  {
    var tag := ConsumeTag(b);
    if tag.None? then None
    else if tag.value.wt == EGROUP then
      if tag.value.num == num then Some(tag.value.len) else None
    else
      var n := tag.value.len;
      var m := ConsumeValue(tag.value.num, tag.value.wt, b[n..]);
      if m.None? then None
      else
        var k := ConsumeGroup(num, b[n + m.value..]);
        if k.None? then None else Some(n + m.value + k.value)
  }

  function ConsumeTag(b: bytes): (r: Option<FieldTag>)
    ensures r.Some? ==> 1 <= r.value.num <= MAX_FIELD && r.value.wt < 8 && 0 < r.value.len <= |b|
  {
    match ConsumeVarint(b)
    case None => None
    case Some((tag, n)) =>
      if 1 <= tag / 8 <= MAX_FIELD then Some(FieldTag(tag / 8, tag % 8, n)) else None
  }

  lemma TagStable(x: bytes, y: bytes, z: bytes)
    requires ConsumeTag(x + y).Some? && ConsumeTag(x + y).value.len <= |x|
    ensures ConsumeTag(x + z) == ConsumeTag(x + y)
  {
    VarintStable(x, y, z);
  }

  lemma Drop(x: bytes, y: bytes, n: nat)
    requires n <= |x|
    ensures (x + y)[n..] == x[n..] + y
  {
  }

  lemma {:induction false} ValueStable(num: nat, wt: nat, x: bytes, y: bytes, z: bytes)
    requires ConsumeValue(num, wt, x + y).Some? && ConsumeValue(num, wt, x + y).value <= |x|
    ensures ConsumeValue(num, wt, x + z) == ConsumeValue(num, wt, x + y)
    decreases |x|, 1
  {
    hide ConsumeVarint, ConsumeGroup, ConsumeTag;
    if wt == VARINT || wt == LEN {
      VarintStable(x, y, z);
    } else if wt == SGROUP {
      GroupStable(num, x, y, z);
    }
  }

  /** A group that goes on with a field: its tag, its value and the rest of the group. */
  lemma GroupGoesOn(num: nat, b: bytes)
    requires ConsumeTag(b).Some? && ConsumeTag(b).value.wt != EGROUP
    ensures var tag := ConsumeTag(b).value;
            var m := ConsumeValue(tag.num, tag.wt, b[tag.len..]);
            (ConsumeGroup(num, b)
             == if m.None? then None
                else
                  var k := ConsumeGroup(num, b[tag.len + m.value..]);
                  if k.None? then None else Some(tag.len + m.value + k.value))
  {
    hide ConsumeTag, ConsumeVarint, ConsumeValue;
  }

  lemma GroupEnds(num: nat, b: bytes)
    requires ConsumeTag(b).None? || ConsumeTag(b).value.wt == EGROUP
    ensures ConsumeGroup(num, b)
         == (if ConsumeTag(b).Some? && ConsumeTag(b).value.num == num then Some(ConsumeTag(b).value.len) else None)
  {
    hide ConsumeTag, ConsumeVarint, ConsumeValue;
  }

  lemma {:induction false} GroupStable(num: nat, x: bytes, y: bytes, z: bytes)
    requires ConsumeGroup(num, x + y).Some? && ConsumeGroup(num, x + y).value <= |x|
    ensures ConsumeGroup(num, x + z) == ConsumeGroup(num, x + y)
    decreases |x|, 0
  {
    hide ConsumeTag, ConsumeVarint, ConsumeValue, ConsumeGroup;
    if ConsumeTag(x + y).None? || ConsumeTag(x + y).value.wt == EGROUP {
      GroupEnds(num, x + y);
      TagStable(x, y, z);
      GroupEnds(num, x + z);
    } else {
      var tag := ConsumeTag(x + y).value;
      var n := tag.len;
      GroupGoesOn(num, x + y);
      TagStable(x, y, z);
      GroupGoesOn(num, x + z);
      Drop(x, y, n);
      Drop(x, z, n);
      var m := ConsumeValue(tag.num, tag.wt, x[n..] + y).value;
      ValueStable(tag.num, tag.wt, x[n..], y, z);
      Drop(x, y, n + m);
      Drop(x, z, n + m);
      GroupStable(num, x[n + m..], y, z);
    }
  }

  // ---- Records -------------------------------------------------------------------------------

  /** A record with a proper tag whose bytes are exactly one value of its wire type. */
  predicate WellFormed(r: Record) {
    1 <= r.num <= MAX_FIELD && r.wt < 8 && ConsumeValue(r.num, r.wt, r.raw) == Some(|r.raw|)
  }

  function Tag(num: nat, wt: nat): bytes {
    Varint(8 * num + wt)
  }

  function PutRecord(r: Record): bytes {
    Tag(r.num, r.wt) + r.raw
  }

  function PutRecords(rs: seq<Record>): bytes {
    if rs == [] then [] else PutRecord(rs[0]) + PutRecords(rs[1..])
  }

  /** The first record of a message and the bytes behind it. */
  function First(b: bytes): (r: Option<(Record, bytes)>)
    ensures r.Some? ==> |r.value.1| < |b|
  {
    var tag := ConsumeTag(b);
    if tag.None? then None
    else
      var n := tag.value.len;
      var m := ConsumeValue(tag.value.num, tag.value.wt, b[n..]);
      if m.None? then None
      else Some((Record(tag.value.num, tag.value.wt, b[n..n + m.value]), b[n + m.value..]))
  }

  function ParseRecords(b: bytes): Option<seq<Record>>
    decreases |b|
  {
    if b == [] then Some([])
    else
      var first := First(b);
      if first.None? then None
      else
        var rest := ParseRecords(first.value.1);
        if rest.None? then None else Some([first.value.0] + rest.value)
  }

  ghost predicate AllWellFormed(rs: seq<Record>) {
    forall i :: 0 <= i < |rs| ==> WellFormed(rs[i])
  }

  /** Wire types by number: 0 varint, 1 eight bytes, 2 length-delimited, 3 and 4 group, 5 four bytes. */
  lemma WireTypes(num: nat, b: bytes)
    ensures ConsumeValue(num, 1, b) == if |b| >= 8 then Some(8) else None
    ensures ConsumeValue(num, 5, b) == if |b| >= 4 then Some(4) else None
    ensures ConsumeValue(num, 0, b).Some? <==> ConsumeVarint(b).Some?
    ensures ConsumeValue(num, 2, [3, 7, 8, 9] + b) == Some(4)
    ensures forall wt :: wt == 4 || wt > 5 ==> ConsumeValue(num, wt, b) == None
  {
    assert ([3, 7, 8, 9] + b)[0] == 3;
  }

  lemma SmallTag(x: byte, rest: bytes)
    requires 8 <= x < 128
    ensures ConsumeTag([x] + rest) == Some(FieldTag(x / 8, x % 8, 1))
  {
  }

  lemma SmallValue(x: byte, rest: bytes)
    requires x < 128
    ensures ConsumeValue(1, 0, [x] + rest) == Some(1)
  {
  }

  /** Group 1 holding field 1 with the value 1 ends at its own end tag 0C, not at that of group 2. */
  lemma GroupExample(last: byte)
    requires last == 0x0C || last == 0x14
    ensures ConsumeValue(1, 3, [0x08, 0x01, last]) == if last == 0x0C then Some(3) else None
  {
    hide ConsumeTag, ConsumeGroup;
    var b := [0x08, 0x01, last];
    assert b == [0x08] + [0x01, last] && b[1..] == [0x01] + [last] && b[2..] == [last] == [last] + [];
    SmallTag(0x08, [0x01, last]);
    SmallValue(0x01, [last]);
    SmallTag(last, []);
    GroupEnds(1, [last]);
    hide ConsumeValue;
    GroupGoesOn(1, b);
    GroupValue(b);
  }

  lemma GroupValue(b: bytes)
    ensures ConsumeValue(1, 3, b) == ConsumeGroup(1, b)
  {
    hide ConsumeGroup;
  }

  /** Field numbers are those from 1 to 2^29 - 1. */
  lemma FieldNumbers(num: nat, wt: nat, tail: bytes)
    requires num < 0x4000_0000 && wt < 8
    ensures ConsumeTag(Varint(8 * num + wt) + tail).Some? <==> 1 <= num < 0x2000_0000
  {
    hide Varint, ConsumeVarint;
    VarintRoundTrip(8 * num + wt, tail);
  }

  lemma TagRoundTrip(num: nat, wt: nat, tail: bytes)
    requires 1 <= num <= MAX_FIELD && wt < 8
    ensures ConsumeTag(Tag(num, wt) + tail) == Some(FieldTag(num, wt, |Tag(num, wt)|))
  {
    hide Varint, ConsumeVarint;
    VarintRoundTrip(8 * num + wt, tail);
  }

  lemma {:induction false} PutRecordsConcat(a: seq<Record>, b: seq<Record>)
    ensures PutRecords(a + b) == PutRecords(a) + PutRecords(b)
  {
    hide PutRecord;
    if a == [] {
      assert a + b == b;
    } else {
      assert (a + b)[0] == a[0] && (a + b)[1..] == a[1..] + b;
      PutRecordsConcat(a[1..], b);
      ConcatAssoc(PutRecord(a[0]), PutRecords(a[1..]), PutRecords(b));
    }
  }

  /** One record at the front of a message. */
  lemma ParseOne(r: Record, rest: bytes)
    requires WellFormed(r)
    ensures First(PutRecord(r) + rest) == Some((r, rest))
  {
    hide ConsumeVarint, ConsumeValue, ConsumeTag, Varint;
    var tag := Tag(r.num, r.wt);
    ConcatAssoc(tag, r.raw, rest);
    TagRoundTrip(r.num, r.wt, r.raw + rest);
    TakeDropConcat(tag, r.raw + rest);
    assert r.raw + [] == r.raw;
    ValueStable(r.num, r.wt, r.raw, [], rest);
    var b := PutRecord(r) + rest;
    assert b[|tag|..|tag| + |r.raw|] == r.raw && b[|tag| + |r.raw|..] == rest;
  }

  /** Parsing undoes writing: a message of well-formed records splits in exactly one way. */
  lemma {:induction false} RecordsRoundTrip(rs: seq<Record>)
    requires AllWellFormed(rs)
    ensures ParseRecords(PutRecords(rs)) == Some(rs)
    decreases |rs|
  {
    hide First, PutRecord, WellFormed;
    if rs == [] {
    } else {
      assert WellFormed(rs[0]);
      ParseOne(rs[0], PutRecords(rs[1..]));
      RecordsRoundTrip(rs[1..]);
      assert rs == [rs[0]] + rs[1..];
    }
  }

  lemma FirstWellFormed(b: bytes)
    requires First(b).Some?
    ensures WellFormed(First(b).value.0)
  {
    hide ConsumeVarint, ConsumeValue, ConsumeTag;
    var FieldTag(num, wt, n) := ConsumeTag(b).value;
    var m := ConsumeValue(num, wt, b[n..]).value;
    var raw := b[n..n + m];
    assert b[n..] == raw + b[n + m..];
    assert raw + [] == raw;
    ValueStable(num, wt, raw, b[n + m..], []);
  }

  /** Whatever parses, canonical or not, is a list of well-formed records. */
  lemma {:induction false} ParsedWellFormed(b: bytes)
    requires ParseRecords(b).Some?
    ensures AllWellFormed(ParseRecords(b).value)
    decreases |b|
  {
    hide First, WellFormed;
    if b != [] {
      FirstWellFormed(b);
      ParsedWellFormed(First(b).value.1);
    }
  }

  lemma ParseFirst(b: bytes)
    requires b != [] && ParseRecords(b).Some?
    ensures First(b).Some? && ParseRecords(First(b).value.1).Some?
    ensures ParseRecords(b).value == [First(b).value.0] + ParseRecords(First(b).value.1).value
  {
    hide First;
  }

  lemma FirstStable(x: bytes, y: bytes)
    requires First(x).Some?
    ensures First(x + y) == Some((First(x).value.0, First(x).value.1 + y))
  {
    hide ConsumeVarint, ConsumeValue, ConsumeTag;
    assert x + [] == x;
    TagStable(x, [], y);
    var tag := ConsumeTag(x).value;
    var n := tag.len;
    Drop(x, y, n);
    var m := ConsumeValue(tag.num, tag.wt, x[n..]).value;
    assert x[n..] + [] == x[n..];
    ValueStable(tag.num, tag.wt, x[n..], [], y);
    Drop(x, y, n + m);
    assert (x + y)[n..n + m] == x[n..n + m];
  }

  /** Bytes that parse on their own keep their records when more bytes follow. */
  lemma {:induction false} ParseAppend(x: bytes, y: bytes)
    requires ParseRecords(x).Some? && ParseRecords(x + y).Some?
    ensures ParseRecords(y).Some? && ParseRecords(x + y).value == ParseRecords(x).value + ParseRecords(y).value
    decreases |x|
  {
    hide First, ParseRecords;
    if x == [] {
      ParseEmpty();
      assert x + y == y;
    } else {
      ParseFirst(x);
      ParseFirst(x + y);
      FirstStable(x, y);
      ParseAppend(First(x).value.1, y);
    }
  }

  lemma ParseEmpty()
    ensures ParseRecords([]) == Some([])
  {
  }

  lemma ParseNonempty(b: bytes)
    requires b != [] && ParseRecords(b).Some?
    ensures ParseRecords(b).value != []
  {
  }
}
