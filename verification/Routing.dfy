/**
 * The routing envelope: ServerDispatcher.Push and container.Push append two meta entries to a packet,
 * and the gateway's pushMessage reads them, removes them and forwards what is left.
 */
module Routing {
  import opened Bytes
  import opened Endian
  import opened HeaderCodec
  import opened MetaList
  import opened Packets
  import Utf8

  const COMMA: byte := 0x2C

  /** "dest.server" and "dest.channels" in ASCII. */
  const DEST_SERVER: GoString := [0x64, 0x65, 0x73, 0x74, 0x2E, 0x73, 0x65, 0x72, 0x76, 0x65, 0x72]
  const DEST_CHANNELS: GoString := [0x64, 0x65, 0x73, 0x74, 0x2E, 0x63, 0x68, 0x61, 0x6E, 0x6E, 0x65, 0x6C, 0x73]

  // ---- strings.Join and strings.Split --------------------------------------------------------

  function Join(ids: seq<GoString>): GoString {
    if ids == [] then []
    else if |ids| == 1 then ids[0]
    else ids[0] + [COMMA] + Join(ids[1..])
  }

  function Split(s: GoString): (r: seq<GoString>)
    ensures r != []
  {
    if s == [] then [[]]
    else
      var rest := Split(s[1..]);
      if s[0] == COMMA then [[]] + rest else [[s[0]] + rest[0]] + rest[1..]
  }

  predicate CommaFree(s: GoString) {
    COMMA !in s
  }

  ghost predicate AllCommaFree(ids: seq<GoString>) {
    forall i :: 0 <= i < |ids| ==> CommaFree(ids[i])
  }

  lemma {:induction false} SplitPieces(s: GoString)
    ensures AllCommaFree(Split(s))
  {
    if s != [] {
      SplitPieces(s[1..]);
    }
  }

  lemma {:induction false} SplitCommaFree(s: GoString)
    requires CommaFree(s)
    ensures Split(s) == [s]
  {
    if s != [] {
      SplitCommaFree(s[1..]);
      assert s == [s[0]] + s[1..];
    }
  }

  lemma {:induction false} SplitAtComma(a: GoString, b: GoString)
    requires CommaFree(a)
    ensures Split(a + [COMMA] + b) == [a] + Split(b)
  {
    var s := a + [COMMA] + b;
    if a == [] {
      assert s[1..] == b;
    } else {
      assert s[1..] == a[1..] + [COMMA] + b;
      SplitAtComma(a[1..], b);
      assert a == [a[0]] + a[1..];
    }
  }

  lemma {:induction false} SplitJoinPieces(ids: seq<GoString>)
    requires ids != [] && AllCommaFree(ids)
    ensures Split(Join(ids)) == ids
    decreases |ids|
  {
    assert CommaFree(ids[0]);
    if |ids| == 1 {
      SplitCommaFree(ids[0]);
    } else {
      SplitJoinPieces(ids[1..]);
      SplitAtComma(ids[0], Join(ids[1..]));
      assert ids == [ids[0]] + ids[1..];
    }
  }

  /** A list of ids survives the comma-separated form exactly when it is not empty and no id has a comma. */
  lemma SplitJoin(ids: seq<GoString>)
    ensures Split(Join(ids)) == ids <==> ids != [] && AllCommaFree(ids)
  {
    SplitPieces(Join(ids));
    if ids != [] && AllCommaFree(ids) {
      SplitJoinPieces(ids);
    }
  }

  lemma {:induction false} JoinSplit(s: GoString)
    ensures Join(Split(s)) == s
  {
    if s != [] {
      JoinSplit(s[1..]);
      var rest := Split(s[1..]);
      assert Split(s)[1..] == if s[0] == COMMA then rest else rest[1..];
    }
  }

  lemma {:induction false} JoinText(ids: seq<GoString>)
    ensures Utf8.Valid(Join(ids)) <==> forall i :: 0 <= i < |ids| ==> Utf8.Valid(ids[i])
    decreases |ids|
  {
    hide Utf8.Valid;
    if ids == [] {
      EmptyText();
    } else if |ids| > 1 {
      JoinText(ids[1..]);
      Utf8.ValidAround(ids[0], COMMA, Join(ids[1..]));
      assert forall i :: 0 < i < |ids| ==> ids[i] == ids[1..][i - 1];
    }
  }

  lemma EmptyText()
    ensures Utf8.Valid([])
  {
  }

  // ---- Adding the envelope -------------------------------------------------------------------

  /** What ServerDispatcher.Push hands to the gateway's connection. */
  function Envelope(p: LogicPacket, ids: seq<GoString>, gateway: GoString): LogicPacket {
    AddMetas(p, [StringMeta(DEST_CHANNELS, Join(ids)), StringMeta(DEST_SERVER, gateway)])
  }

  // ---- Taking it off again -------------------------------------------------------------------

  datatype Outcome = Delivered | Rejected(error: Error) | Panic

  datatype Push = Push(channel: GoString, data: bytes)

  function Strip(p: LogicPacket): LogicPacket {
    p.(header := p.header.(meta := DelMeta(DelMeta(p.header.meta, DEST_SERVER), DEST_CHANNELS)))
  }

  function PushEach(ids: seq<GoString>, data: bytes): (r: seq<Push>)
    ensures |r| == |ids| && forall i :: 0 <= i < |ids| ==> r[i] == Push(ids[i], data)
  {
    if ids == [] then [] else [Push(ids[0], data)] + PushEach(ids[1..], data)
  }

  function Verdict(self: GoString, p: LogicPacket): Outcome {
    if FindMeta(p.header.meta, DEST_SERVER) != Some(StringValue(self)) then Rejected(WrongServer)
    else
      match FindMeta(p.header.meta, DEST_CHANNELS)
      case None => Rejected(NoChannels)
      case Some(StringValue(_)) => Delivered
      case Some(_) => Panic
  }

  /** The calls of Srv.Push that pushMessage makes at the gateway `self`. */
  function Pushes(self: GoString, p: LogicPacket): seq<Push> {
    if Verdict(self, p) != Delivered then []
    else PushEach(Split(FindMeta(p.header.meta, DEST_CHANNELS).value.text), Packets.Marshal(Logic(Strip(p))))
  }

  /** The first entry with the key is an int or float, or not one. */
  ghost predicate FirstNumeric(ms: seq<Meta>, key: GoString) {
    exists i :: FirstAt(ms, key, i) && Numeric(ms[i])
  }

  ghost predicate FirstText(ms: seq<Meta>, key: GoString, value: GoString) {
    exists i :: FirstAt(ms, key, i) && !Numeric(ms[i]) && ms[i].value == value
  }

  /** The packet is addressed to this gateway and names its channels in an int or float entry. */
  ghost predicate NumericChannels(self: GoString, p: LogicPacket) {
    FirstText(p.header.meta, DEST_SERVER, self) && FirstNumeric(p.header.meta, DEST_CHANNELS)
  }

  lemma FirstKinds(ms: seq<Meta>, key: GoString)
    ensures FirstNumeric(ms, key) <==> FindMeta(ms, key).Some? && !FindMeta(ms, key).value.StringValue?
    ensures forall v :: FirstText(ms, key, v) <==> FindMeta(ms, key) == Some(StringValue(v))
  {
    FindAbsent(ms, key);
    if HasKey(ms, key) {
      var i := FirstExists(ms, key);
      FindFirst(ms, key, i);
      assert forall j :: FirstAt(ms, key, j) ==> i == j;
    }
  }

  /** pushMessage fails its type assertion exactly on these packets. */
  lemma PanicExactly(self: GoString, p: LogicPacket)
    ensures Verdict(self, p) == Panic <==> NumericChannels(self, p)
  {
    hide FindMeta, FirstNumeric, FirstText;
    FirstKinds(p.header.meta, DEST_SERVER);
    FirstKinds(p.header.meta, DEST_CHANNELS);
  }

  /**
   * How pushMessage ends, said of the entries: delivered when the first server entry is this gateway's
   * name as text and the first channels entry is text, else rejected for the first thing that is wrong.
   */
  lemma VerdictMeaning(self: GoString, p: LogicPacket)
    ensures var ms := p.header.meta;
            && (Verdict(self, p) == Rejected(WrongServer) <==> !FirstText(ms, DEST_SERVER, self))
            && (Verdict(self, p) == Rejected(NoChannels)
                <==> FirstText(ms, DEST_SERVER, self) && !HasKey(ms, DEST_CHANNELS))
            && (Verdict(self, p) == Delivered
                <==> FirstText(ms, DEST_SERVER, self) && exists v :: FirstText(ms, DEST_CHANNELS, v))
            && forall v :: Verdict(self, p) == Delivered && FirstText(ms, DEST_CHANNELS, v) ==>
                 Pushes(self, p) == PushEach(Split(v), Packets.Marshal(Logic(Strip(p))))
  {
    hide FindMeta, FirstNumeric, FirstText, HasKey, Split, PushEach, Strip;
    var ms := p.header.meta;
    FirstKinds(ms, DEST_SERVER);
    FirstKinds(ms, DEST_CHANNELS);
    FindAbsent(ms, DEST_CHANNELS);
    match FindMeta(ms, DEST_CHANNELS)
    case Some(StringValue(v)) => assert FirstText(ms, DEST_CHANNELS, v);
    case _ =>
  }

  /** The server entries go first: with keys server, channels, server, another this leaves that one alone. */
  lemma StripOrder(s: Meta, c: Meta, x: Meta, h: Header, body: bytes)
    requires s.key == DEST_SERVER && c.key == DEST_CHANNELS && x.key != DEST_SERVER && x.key != DEST_CHANNELS
    ensures Strip(LogicPacket(h.(meta := [s, c, s, x]), body)).header.meta == [x]
    ensures DelMeta(DelMeta([s, c, s, x], DEST_CHANNELS), DEST_SERVER) == [s, x]
  {
    hide DelMeta;
    KeysDiffer();
    DelFour(s, c, x);
    DelThree(s, x);
    DelTwo(c, x);
  }

  lemma DelInside(ms: seq<Meta>, key: GoString)
    requires ms != [] && ms[|ms| - 1].key != key
    ensures DelMeta(ms, key) == Pass(ms, key)
  {
    hide DelMeta, Pass;
    DelMetaClosedForm(ms, key);
    assert ms[..|ms|] == ms;
  }

  lemma DelFour(s: Meta, c: Meta, x: Meta)
    requires s.key != c.key && x.key != s.key && x.key != c.key
    ensures DelMeta([s, c, s, x], s.key) == [c, x]
    ensures DelMeta([s, c, s, x], c.key) == [s, s, x]
  {
    hide DelMeta;
    var b := [s, c, s, x];
    DelInside(b, s.key);
    DelInside(b, c.key);
    assert b[1..] == [c, s, x] && b[2..] == [s, x] && [s, x][2..] == [];
    assert [c, s, x][2..] == [x] && [x][1..] == [];
    assert Pass([x], c.key) == [x] && Pass([s, x], s.key) == [x];
    assert Pass([c, s, x], c.key) == [s] + [x];
  }

  lemma DelThree(s: Meta, x: Meta)
    requires s.key != x.key
    ensures DelMeta([s, s, x], s.key) == [s, x]
  {
    hide DelMeta;
    DelInside([s, s, x], s.key);
    assert [s, s, x][2..] == [x] && [x][1..] == [];
    assert Pass([x], s.key) == [x];
  }

  lemma DelTwo(c: Meta, x: Meta)
    requires c.key != x.key
    ensures DelMeta([c, x], c.key) == [x]
  {
    hide DelMeta;
    DelInside([c, x], c.key);
    assert [c, x][2..] == [];
  }

  predicate NoRoutingKeys(p: LogicPacket) {
    !HasKey(p.header.meta, DEST_SERVER) && !HasKey(p.header.meta, DEST_CHANNELS)
  }

  lemma KeysDiffer()
    ensures DEST_SERVER != DEST_CHANNELS
  {
    assert |DEST_SERVER| == 11 && |DEST_CHANNELS| == 13;
  }

  /** With the routing keys absent at first, the gateway finds what was sent and restores the packet. */
  lemma EnvelopeOpens(p: LogicPacket, ids: seq<GoString>, gateway: GoString)
    requires NoRoutingKeys(p)
    ensures Verdict(gateway, Envelope(p, ids, gateway)) == Delivered
    ensures Strip(Envelope(p, ids, gateway)) == p
    ensures Pushes(gateway, Envelope(p, ids, gateway)) == PushEach(Split(Join(ids)), Packets.Marshal(Logic(p)))
  {
    hide DelMeta, Packets.Marshal, FindMeta, Join, Split;
    KeysDiffer();
    var ms := p.header.meta;
    var c, s := StringMeta(DEST_CHANNELS, Join(ids)), StringMeta(DEST_SERVER, gateway);
    assert ms + [c, s] == ms + [c] + [s];
    FindAfterAdd(ms, DEST_CHANNELS, Join(ids), DEST_SERVER);
    FindAfterAdd(ms, DEST_CHANNELS, Join(ids), DEST_CHANNELS);
    FindAbsent(ms, DEST_SERVER);
    FindAbsent(ms + [c], DEST_SERVER);
    FindAfterAdd(ms + [c], DEST_SERVER, gateway, DEST_SERVER);
    FindAfterAdd(ms + [c], DEST_SERVER, gateway, DEST_CHANNELS);
    AddThenDelete(ms + [c], s);
    AddThenDelete(ms, c);
  }

  /** A key already on the packet makes the deletions take away more than was added. */
  lemma EnvelopeLeavesTrace(p: LogicPacket, ids: seq<GoString>, gateway: GoString)
    requires !NoRoutingKeys(p)
    ensures Strip(Envelope(p, ids, gateway)) != p
  {
    hide DelMeta, Join;
    KeysDiffer();
    var ms := p.header.meta;
    var c, s := StringMeta(DEST_CHANNELS, Join(ids)), StringMeta(DEST_SERVER, gateway);
    var all := ms + [c, s];
    assert all == ms + [c] + [s];
    var once := DelMeta(all, DEST_SERVER);
    if HasKey(ms, DEST_SERVER) {
      DelMetaShrinks(ms, c, s);
      DelMetaLength(once, DEST_CHANNELS);
    } else {
      AddThenDelete(ms + [c], s);
      AddThenDelete(ms, c);
    }
  }

  lemma DelMetaLength(ms: seq<Meta>, key: GoString)
    ensures |DelMeta(ms, key)| <= |ms|
  {
    hide DelMeta, Pass;
    DelMetaClosedForm(ms, key);
  }

  lemma DelMetaShrinks(ms: seq<Meta>, c: Meta, s: Meta)
    requires HasKey(ms, s.key) && c.key != s.key
    ensures |DelMeta(ms + [c] + [s], s.key)| < |ms|
  {
    hide DelMeta, Pass;
    var all := ms + [c] + [s];
    assert all[|ms|] == c && all[|ms| + 1] == s;
    DelMetaClosedForm(all, s.key);
    assert all[..|all| - 1] == ms + [c];
    PassAll(ms + [c], s.key);
    var i :| 0 <= i < |ms| && ms[i].key == s.key;
    assert (ms + [c])[i] == ms[i];
  }

  /** A deletion keeps nothing that was not there. */
  lemma {:induction false} DelRunSubset(b: seq<Meta>, len: nat, i: nat, key: GoString)
    requires i <= |b| && |b| - i <= len <= |b|
    ensures forall m :: m in DelRun(b, len, i, key) ==> m in b
    decreases |b| - i
  {
    if i < |b| {
      var next := DelStep(b, len, i, key);
      DelRunSubset(next.0, next.1, i + 1, key);
    }
  }

  lemma StripSubset(p: LogicPacket)
    ensures forall m :: m in Strip(p).header.meta ==> m in p.header.meta
  {
    hide DelRun;
    DelRunSubset(p.header.meta, |p.header.meta|, 0, DEST_SERVER);
    var once := DelMeta(p.header.meta, DEST_SERVER);
    DelRunSubset(once, |once|, 0, DEST_CHANNELS);
  }

  /** Packets that differ do not have the same bytes, even when only one is known to be writable. */
  lemma MarshalInjective(p: LogicPacket, q: LogicPacket)
    requires Writable(Logic(p)) && KnownOrRetained(q.header)
    ensures Packets.Marshal(Logic(p)) == Packets.Marshal(Logic(q)) <==> p == q
  {
    hide Packets.Marshal, Writable, KnownOrRetained;
    if Packets.Marshal(Logic(p)) == Packets.Marshal(Logic(q)) {
      SameBytes(p, q);
    }
  }

  lemma SameBytes(p: LogicPacket, q: LogicPacket)
    requires Writable(Logic(p)) && KnownOrRetained(q.header)
    requires Packets.Marshal(Logic(p)) == Packets.Marshal(Logic(q))
    ensures p == q
  {
    hide EncodeHeader, TextHeader, KnownOrRetained, Read, PutUint, Pow256;
    Widths();
    var hp, hq := EncodeHeader(p.header), EncodeHeader(q.header);
    var mp, mq := Packets.Marshal(Logic(p)), Packets.Marshal(Logic(q));
    assert mp[4..] == EncodeLogic(p) && mq[4..] == EncodeLogic(q);
    assert |mp| > 4;
    assert TextHeader(q.header);
    assert mp[4..8] == PutUint(4, |hp| % TWO_32) && mq[4..8] == PutUint(4, |hq| % TWO_32);
    UintRoundTrip(4, |hp| % TWO_32);
    UintRoundTrip(4, |hq| % TWO_32);
    assert |hq| % TWO_32 == |hp|;
    assert |hp| + |p.body| == |hq| + |q.body|;
    SameLengths(|hp|, |p.body|, |hq|, |q.body|);
    PacketRoundTrip(Logic(p), []);
    LogicRoundTrip(q, []);
  }

  lemma SameLengths(a: nat, b: nat, c: nat, d: nat)
    requires b < TWO_32 && c % TWO_32 == a && a + b == c + d
    ensures a == c && b == d
  {
  }

  ghost predicate AllText(ids: seq<GoString>) {
    forall i :: 0 <= i < |ids| ==> Utf8.Valid(ids[i])
  }

  /**
   * Sending and opening an envelope pushes the unchanged packet once to each id, in order, if and
   * only if the packet carried neither routing key before and no id contains a comma.
   */
  lemma EnvelopeDelivers(p: LogicPacket, ids: seq<GoString>, gateway: GoString)
    requires ids != [] && Writable(Logic(p))
    ensures Pushes(gateway, Envelope(p, ids, gateway)) == PushEach(ids, Packets.Marshal(Logic(p)))
       <==> NoRoutingKeys(p) && AllCommaFree(ids)
  {
    hide Packets.Marshal, Writable, Verdict, Strip, Envelope, Join, Split, AllCommaFree;
    var sent := Envelope(p, ids, gateway);
    var data := Packets.Marshal(Logic(p));
    SplitJoin(ids);
    if NoRoutingKeys(p) {
      EnvelopeOpens(p, ids, gateway);
      SameChannels(Split(Join(ids)), ids, data);
    } else {
      EnvelopeLeavesTrace(p, ids, gateway);
      var got := Pushes(gateway, sent);
      if got != [] && got[0].data == data {
        StripKnown(p, ids, gateway);
        MarshalInjective(p, Strip(sent));
      }
    }
  }

  /** An empty list is not an envelope for nobody: the gateway pushes once, to the empty id. */
  lemma EmptyListPushesOnce(p: LogicPacket, gateway: GoString)
    requires NoRoutingKeys(p)
    ensures Pushes(gateway, Envelope(p, [], gateway)) == [Push([], Packets.Marshal(Logic(p)))]
  {
    hide Packets.Marshal, Verdict, Strip, Envelope, NoRoutingKeys;
    EnvelopeOpens(p, [], gateway);
    assert Split(Join([])) == [[]];
    var none: seq<GoString> := [[]];
    assert none[1..] == [];
  }

  lemma SameChannels(a: seq<GoString>, b: seq<GoString>, data: bytes)
    ensures PushEach(a, data) == PushEach(b, data) <==> a == b
  {
    var x, y := PushEach(a, data), PushEach(b, data);
    if x == y {
      assert |a| == |b|;
      forall i | 0 <= i < |a|
        ensures a[i] == b[i]
      {
        assert x[i] == Push(a[i], data) && y[i] == Push(b[i], data);
      }
    }
  }

  lemma StripKnown(p: LogicPacket, ids: seq<GoString>, gateway: GoString)
    requires Writable(Logic(p))
    ensures KnownOrRetained(Strip(Envelope(p, ids, gateway)).header)
  {
    hide Retained, EncodeHeader, TextHeader, DelMeta, Join;
    RetainedEmpty(UnknownToMeta);
    var sent := Envelope(p, ids, gateway);
    StripSubset(sent);
    var ms := Strip(sent).header.meta;
    forall i | 0 <= i < |ms|
      ensures Retained(ms[i].unknown, UnknownToMeta)
    {
      assert ms[i] in sent.header.meta;
      assert ms[i] in p.header.meta || ms[i].unknown == [];
    }
  }
}
