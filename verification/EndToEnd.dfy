/**
 * The components together: from ServerDispatcher.Push (or Dispatch) at a logic server, over the
 * frames of its connection to a gateway, to the Srv.Push calls the gateway makes.
 */
module EndToEnd {
  import opened Bytes
  import opened Endian
  import opened HeaderCodec
  import opened MetaList
  import opened Packets
  import opened PacketObjects
  import opened Frames
  import opened Routing
  import opened Container
  import ChannelIds
  import ChannelWriter
  import Delivery
  import Dispatch
  import Utf8

  function EnvelopeFrame(p: LogicPacket, ids: seq<GoString>, gateway: GoString): Frame {
    Frame(OP_BINARY, Packets.Marshal(Logic(Envelope(p, ids, gateway))))
  }

  // ---- The envelope on the wire --------------------------------------------------------------

  lemma RoutingMetaText(ids: seq<GoString>, gateway: GoString)
    ensures TextMeta(StringMeta(DEST_CHANNELS, Join(ids))) <==> AllText(ids)
    ensures TextMeta(StringMeta(DEST_SERVER, gateway)) <==> Utf8.Valid(gateway)
  {
    hide Utf8.Valid, Join;
    ChannelIds.DigitsText(DEST_CHANNELS);
    ChannelIds.DigitsText(DEST_SERVER);
    JoinText(ids);
  }

  /** Whether packet, ids and gateway can be written at all: protobuf refuses strings that are not UTF-8. */
  ghost predicate AllUtf8(p: LogicPacket, ids: seq<GoString>, gateway: GoString) {
    TextHeader(p.header) && AllText(ids) && Utf8.Valid(gateway)
  }

  lemma EnvelopeText(p: LogicPacket, ids: seq<GoString>, gateway: GoString)
    ensures TextHeader(Envelope(p, ids, gateway).header) <==> AllUtf8(p, ids, gateway)
  {
    hide TextMeta, AllText, Utf8.Valid, Join;
    RoutingMetaText(ids, gateway);
    var ms := p.header.meta;
    var added := [StringMeta(DEST_CHANNELS, Join(ids)), StringMeta(DEST_SERVER, gateway)];
    var all := Envelope(p, ids, gateway).header.meta;
    assert all == ms + added;
    assert all[|ms|] == added[0] && all[|ms| + 1] == added[1];
    assert forall i :: 0 <= i < |ms| ==> all[i] == ms[i];
  }

  lemma EnvelopeKnown(p: LogicPacket, ids: seq<GoString>, gateway: GoString)
    requires KnownOrRetained(p.header)
    ensures KnownOrRetained(Envelope(p, ids, gateway).header)
  {
    hide Retained, Join;
    RetainedEmpty(UnknownToMeta);
  }

  /** The gateway reads the envelope as it was written, or nothing when it could not be written. */
  lemma EnvelopeArrives(p: LogicPacket, ids: seq<GoString>, gateway: GoString)
    requires KnownOrRetained(p.header)
    ensures var f := EnvelopeFrame(p, ids, gateway);
            var r := MustReadLogic(f.payload);
            Sized(f) ==> if AllUtf8(p, ids, gateway) then r == Ok(Envelope(p, ids, gateway), []) else r.Err?
  {
    hide Envelope, EncodeHeader, TextHeader, KnownOrRetained, AllUtf8, Packets.Read, DecodeLogic;
    var sent := Envelope(p, ids, gateway);
    var data := Packets.Marshal(Logic(sent));
    assert data + [] == data;
    EnvelopeText(p, ids, gateway);
    EnvelopeKnown(p, ids, gateway);
    if !Sized(EnvelopeFrame(p, ids, gateway)) {
    } else if TextHeader(sent.header) {
      MarshalSize(sent);
      LogicRoundTrip(sent, []);
    } else {
      ReadMagic(Logic(sent), []);
      NothingDecodes();
    }
  }

  lemma SameBody(p: LogicPacket, ids: seq<GoString>, gateway: GoString)
    ensures Envelope(p, ids, gateway).body == p.body
  {
  }

  lemma NothingDecodes()
    ensures DecodeLogic([] + []).Err?
  {
  }

  lemma MarshalSize(p: LogicPacket)
    requires TextHeader(p.header)
    ensures |EncodeHeader(p.header)| + |p.body| < |Packets.Marshal(Logic(p))|
  {
    hide EncodeHeader, TextHeader, PutUint;
  }

  lemma EnvelopeGrows(p: LogicPacket, ids: seq<GoString>, gateway: GoString)
    ensures |EncodeHeader(p.header)| <= |EncodeHeader(Envelope(p, ids, gateway).header)|
  {
    hide EncodeHeader, Join;
    var c, s := StringMeta(DEST_CHANNELS, Join(ids)), StringMeta(DEST_SERVER, gateway);
    var h := p.header;
    AddedMetaGrows(h, c);
    AddedMetaGrows(h.(meta := h.meta + [c]), s);
    assert h.meta + [c] + [s] == h.meta + [c, s];
  }

  /** A packet whose envelope fits a frame fits as well. */
  lemma SizedWritable(p: LogicPacket, ids: seq<GoString>, gateway: GoString)
    requires KnownOrRetained(p.header) && AllUtf8(p, ids, gateway) && Sized(EnvelopeFrame(p, ids, gateway))
    ensures Writable(Logic(p))
  {
    hide Envelope, EncodeHeader, TextHeader, KnownOrRetained, AllText, Utf8.Valid, Packets.Marshal;
    EnvelopeText(p, ids, gateway);
    MarshalSize(Envelope(p, ids, gateway));
    EnvelopeGrows(p, ids, gateway);
    SameBody(p, ids, gateway);
  }

  /**
   * End to end. A packet pushed for a non-empty list of channels, sent as one frame and read by the
   * gateway, reaches exactly those channels, once each and in order, with the bytes the packet had
   * before the envelope, if and only if the packet carried neither routing key, no id holds a comma,
   * and the packet's strings, the ids and the gateway's name are UTF-8.
   */
  lemma PushEndToEnd(p: LogicPacket, ids: seq<GoString>, gateway: GoString, cut: bytes)
    requires ids != [] && KnownOrRetained(p.header) && DecodeFrame(cut).Err?
    ensures Sized(EnvelopeFrame(p, ids, gateway)) ==>
              (Consume(gateway, EncodeFrame(EnvelopeFrame(p, ids, gateway)) + cut)
               == (PushEach(ids, Packets.Marshal(Logic(p))), Stopped)
               <==> NoRoutingKeys(p) && AllCommaFree(ids) && AllUtf8(p, ids, gateway))
  {
    hide EncodeFrame, DecodeFrame, MustReadLogic, Packets.Marshal, Envelope, Pushes, Verdict,
      Writable, AllUtf8, AllCommaFree, NoRoutingKeys, KnownOrRetained;
    var f := EnvelopeFrame(p, ids, gateway);
    FrameRoundTrip(f, cut);
    EnvelopeArrives(p, ids, gateway);
    assert Consume(gateway, cut) == ([], Stopped);
    var h := Handle(gateway, f);
    assert h.0 + [] == h.0;
    if Sized(f) && AllUtf8(p, ids, gateway) {
      SizedWritable(p, ids, gateway);
      EnvelopeDelivers(p, ids, gateway);
      NoRoutingKeysMeans(p, ids, gateway);
    }
  }

  /** With commas the ids fall apart: the packet goes to the pieces of the joined text instead. */
  lemma PushedPieces(p: LogicPacket, ids: seq<GoString>, gateway: GoString, cut: bytes)
    requires KnownOrRetained(p.header) && DecodeFrame(cut).Err? && NoRoutingKeys(p) && AllUtf8(p, ids, gateway)
    requires Sized(EnvelopeFrame(p, ids, gateway))
    ensures Consume(gateway, EncodeFrame(EnvelopeFrame(p, ids, gateway)) + cut)
         == (PushEach(Split(Join(ids)), Packets.Marshal(Logic(p))), Stopped)
  {
    hide EncodeFrame, DecodeFrame, MustReadLogic, Packets.Marshal, Envelope, Pushes, Verdict,
      AllUtf8, NoRoutingKeys, KnownOrRetained, Split, Join, PushEach;
    var f := EnvelopeFrame(p, ids, gateway);
    FrameRoundTrip(f, cut);
    EnvelopeArrives(p, ids, gateway);
    EnvelopeOpens(p, ids, gateway);
    assert Consume(gateway, cut) == ([], Stopped);
    var h := Handle(gateway, f);
    assert h.0 + [] == h.0;
  }

  /** The strings do matter: a packet whose command is the byte FF never arrives. */
  lemma NotUtf8Example()
    ensures var p := LogicPacket(EMPTY_HEADER.(command := [0xFF]), []);
            && NoRoutingKeys(p)
            && Consume([0x67], EncodeFrame(EnvelopeFrame(p, [[0x61]], [0x67]))) == ([], Stopped)
  {
    hide EncodeFrame, Envelope, Consume, TextHeader, KnownOrRetained, EncodeHeader;
    var p := LogicPacket(EMPTY_HEADER.(command := [0xFF]), []);
    var ids: seq<GoString> := [[0x61]];
    var gateway: GoString := [0x67];
    NotText(p);
    EnvelopeText(p, ids, gateway);
    assert |Packets.Marshal(Logic(Envelope(p, ids, gateway)))| == 4;
    EmptyRejected();
    NotWritten(p, ids, gateway, []);
    var b := EncodeFrame(EnvelopeFrame(p, ids, gateway));
    assert b + [] == b;
  }

  lemma NotText(p: LogicPacket)
    requires p.header == EMPTY_HEADER.(command := [0xFF])
    ensures !TextHeader(p.header) && KnownOrRetained(p.header) && NoRoutingKeys(p)
  {
    RetainedEmpty(UnknownToHeader);
  }

  lemma NotWritten(p: LogicPacket, ids: seq<GoString>, gateway: GoString, cut: bytes)
    requires KnownOrRetained(p.header) && !AllUtf8(p, ids, gateway) && DecodeFrame(cut).Err?
    requires Sized(EnvelopeFrame(p, ids, gateway))
    ensures Consume(gateway, EncodeFrame(EnvelopeFrame(p, ids, gateway)) + cut) == ([], Stopped)
  {
    hide EncodeFrame, DecodeFrame, MustReadLogic, Packets.Marshal, Envelope, AllUtf8, KnownOrRetained;
    var f := EnvelopeFrame(p, ids, gateway);
    FrameRoundTrip(f, cut);
    EnvelopeArrives(p, ids, gateway);
    assert Consume(gateway, cut) == ([], Stopped);
    assert Handle(gateway, f) == ([], false);
    var none: seq<Push> := [];
    assert none + none == none;
  }

  lemma NoRoutingKeysMeans(p: LogicPacket, ids: seq<GoString>, gateway: GoString)
    ensures NoRoutingKeys(p) ==> Verdict(gateway, Envelope(p, ids, gateway)) == Delivered
  {
    hide Verdict, Envelope;
    if NoRoutingKeys(p) {
      EnvelopeOpens(p, ids, gateway);
    }
  }

  // ---- Among other frames --------------------------------------------------------------------

  lemma {:induction false} UntilCloseAll(a: seq<Frame>)
    requires forall i :: 0 <= i < |a| ==> a[i].opcode != OP_CLOSE
    ensures UntilClose(a) == a
  {
    if a != [] {
      UntilCloseAll(a[1..]);
    }
  }

  lemma {:induction false} UntilCloseConcat(a: seq<Frame>, b: seq<Frame>)
    requires forall i :: 0 <= i < |a| ==> a[i].opcode != OP_CLOSE
    ensures UntilClose(a + b) == a + UntilClose(b)
  {
    if a == [] {
      assert a + b == b;
    } else {
      assert (a + b)[0] == a[0] && (a + b)[1..] == a[1..] + b;
      UntilCloseConcat(a[1..], b);
      ConcatAssoc([a[0]], a[1..], UntilClose(b));
    }
  }

  lemma {:induction false} LogicPacketsConcat(a: seq<Frame>, b: seq<Frame>)
    ensures LogicPackets(a + b) == LogicPackets(a) + LogicPackets(b)
  {
    hide MustReadLogic;
    if a == [] {
      assert a + b == b;
    } else {
      assert (a + b)[1..] == a[1..] + b;
      LogicPacketsConcat(a[1..], b);
    }
  }

  lemma HandledNone(self: GoString)
    ensures NoPanic(self, []) && AllPushes(self, UntilPanic(self, [])) == []
  {
  }

  lemma {:induction false} AllPushesConcat(self: GoString, a: seq<LogicPacket>, b: seq<LogicPacket>)
    requires NoPanic(self, a)
    ensures AllPushes(self, UntilPanic(self, a + b))
         == AllPushes(self, UntilPanic(self, a)) + AllPushes(self, UntilPanic(self, b))
    ensures NoPanic(self, a + b) <==> NoPanic(self, b)
  {
    hide NumericChannels, Pushes, AllPushes, UntilPanic, NoPanic;
    if a == [] {
      HandledNone(self);
      assert a + b == b;
    } else {
      assert a == [a[0]] + a[1..] && a + b == [a[0]] + (a[1..] + b);
      HandledOne(self, a[0], a[1..]);
      HandledOne(self, a[0], a[1..] + b);
      AllPushesConcat(self, a[1..], b);
    }
  }

  lemma PushesAmong(before: seq<Frame>, f: Frame, after: seq<Frame>, self: GoString)
    requires forall i :: 0 <= i < |before| ==> before[i].opcode != OP_CLOSE
    requires f.opcode == OP_BINARY && MustReadLogic(f.payload).Ok?
    requires NoPanic(self, LogicPackets(before)) && !NumericChannels(self, MustReadLogic(f.payload).value)
    ensures AllPushes(self, UntilPanic(self, Handled(before + ([f] + after))))
         == AllPushes(self, UntilPanic(self, Handled(before)))
            + (Pushes(self, MustReadLogic(f.payload).value) + AllPushes(self, UntilPanic(self, Handled(after))))
  {
    hide MustReadLogic, Pushes, NumericChannels, AllPushes, UntilPanic, NoPanic;
    var p := MustReadLogic(f.payload).value;
    var rest := [f] + after;
    assert rest[1..] == after && UntilClose(rest) == [f] + UntilClose(after);
    UntilCloseConcat(before, rest);
    UntilCloseAll(before);
    LogicPacketsConcat(before, UntilClose(rest));
    var handled := UntilClose(rest);
    assert handled[1..] == UntilClose(after);
    assert LogicPackets(handled) == [p] + Handled(after);
    AllPushesConcat(self, LogicPackets(before), [p] + Handled(after));
    HandledOne(self, p, Handled(after));
  }

  lemma EnvelopePushed(p: LogicPacket, ids: seq<GoString>, gateway: GoString)
    requires ids != [] && KnownOrRetained(p.header) && Sized(EnvelopeFrame(p, ids, gateway))
    requires NoRoutingKeys(p) && AllCommaFree(ids) && AllUtf8(p, ids, gateway)
    ensures var f := EnvelopeFrame(p, ids, gateway);
            && f.opcode == OP_BINARY && MustReadLogic(f.payload).Ok?
            && !NumericChannels(gateway, MustReadLogic(f.payload).value)
            && Pushes(gateway, MustReadLogic(f.payload).value) == PushEach(ids, Packets.Marshal(Logic(p)))
  {
    hide MustReadLogic, Packets.Marshal, Envelope, Pushes, PushEach, Verdict, Writable, NoRoutingKeys,
      AllUtf8, AllCommaFree, NumericChannels, KnownOrRetained;
    SizedWritable(p, ids, gateway);
    PanicExactly(gateway, Envelope(p, ids, gateway));
    EnvelopeArrives(p, ids, gateway);
    EnvelopeDelivers(p, ids, gateway);
    NoRoutingKeysMeans(p, ids, gateway);
  }

  /**
   * The same inside a busy connection: whatever frames come before, short of a close or a panic, and
   * whatever comes after, the deliveries stand at their place in between.
   */
  lemma PushAmongFrames(before: seq<Frame>, p: LogicPacket, ids: seq<GoString>, gateway: GoString,
                        after: seq<Frame>, cut: bytes)
    requires forall i :: 0 <= i < |before| ==> Sized(before[i]) && before[i].opcode != OP_CLOSE
    requires forall i :: 0 <= i < |after| ==> Sized(after[i])
    requires NoPanic(gateway, LogicPackets(before)) && DecodeFrame(cut).Err?
    requires ids != [] && KnownOrRetained(p.header) && NoRoutingKeys(p)
    requires AllCommaFree(ids) && AllUtf8(p, ids, gateway)
    ensures var f := EnvelopeFrame(p, ids, gateway);
            Sized(f) ==>
              Consume(gateway, EncodeAll(before + [f] + after) + cut).0
              == AllPushes(gateway, UntilPanic(gateway, Handled(before)))
                 + PushEach(ids, Packets.Marshal(Logic(p)))
                 + AllPushes(gateway, UntilPanic(gateway, Handled(after)))
  {
    hide EncodeFrame, DecodeFrame, MustReadLogic, Packets.Marshal, Envelope, EnvelopeFrame, Pushes, PushEach,
      NumericChannels, KnownOrRetained, AllUtf8, AllCommaFree, NoRoutingKeys, EncodeAll, Consume,
      AllPushes, UntilPanic, NoPanic, UntilClose, LogicPackets, Handled;
    var f := EnvelopeFrame(p, ids, gateway);
    if Sized(f) {
      var fs := before + [f] + after;
      assert fs == before + ([f] + after);
      Resync(gateway, fs, cut);
      EnvelopePushed(p, ids, gateway);
      PushesAmong(before, f, after, gateway);
      ConcatAssoc(AllPushes(gateway, UntilPanic(gateway, Handled(before))),
                  PushEach(ids, Packets.Marshal(Logic(p))),
                  AllPushes(gateway, UntilPanic(gateway, Handled(after))));
    }
  }

  // ---- Through the channel writer ------------------------------------------------------------

  /** The logic packets among payloads. */
  function PacketsOf(payloads: seq<bytes>): seq<LogicPacket> {
    if payloads == [] then []
    else
      var last := |payloads| - 1;
      var front := PacketsOf(payloads[..last]);
      if MustReadLogic(payloads[last]).Ok? then front + [MustReadLogic(payloads[last]).value] else front
  }

  ghost predicate DataAndPongs(wire: seq<Frame>) {
    forall i :: 0 <= i < |wire| ==> wire[i].opcode == OP_BINARY || wire[i] == Frame(OP_PONG, [])
  }

  lemma {:induction false} WriterKeepsKinds(s: ChannelWriter.State, steps: seq<ChannelWriter.Step>)
    requires ChannelWriter.Legal(s, steps) && DataAndPongs(s.wire)
    ensures DataAndPongs(ChannelWriter.Run(s, steps).wire)
    decreases |steps|
  {
    if steps != [] {
      WriterKeepsKinds(ChannelWriter.Take(s, steps[0]), steps[1..]);
    }
  }

  lemma OneMore(front: seq<Frame>, f: Frame)
    requires f.opcode == OP_BINARY || f.opcode == OP_PONG
    ensures PacketsOf(ChannelWriter.Written(front + [f]))
         == PacketsOf(ChannelWriter.Written(front)) + LogicPackets([f])
  {
    hide MustReadLogic, ChannelWriter.Written;
    ChannelWriter.WrittenGrows(front, f);
    var w := ChannelWriter.Written(front);
    assert [f][1..] == [] && w + [] == w;
    assert (w + [f.payload])[..|w|] == w;
  }

  /** Pongs between the data frames do not matter to the gateway. */
  lemma {:induction false} HandledIsWritten(wire: seq<Frame>)
    requires DataAndPongs(wire)
    ensures Handled(wire) == PacketsOf(ChannelWriter.Written(wire))
    decreases |wire|
  {
    hide MustReadLogic, PacketsOf, ChannelWriter.Written, LogicPackets, UntilClose;
    UntilCloseAll(wire);
    if wire == [] {
      NothingWritten();
    } else {
      var front, f := wire[..|wire| - 1], wire[|wire| - 1];
      assert wire == front + [f];
      HandledIsWritten(front);
      UntilCloseAll(front);
      LogicPacketsConcat(front, [f]);
      OneMore(front, f);
    }
  }

  lemma NothingWritten()
    ensures LogicPackets([]) == PacketsOf(ChannelWriter.Written([]))
  {
  }

  /**
   * From the queue of a channel to the far end: in every run of pushers, writer and reader at the
   * logic server, the gateway handles the logic packets among a prefix of the accepted payloads, in
   * the order they were accepted, and at most six accepted payloads are still missing.
   */
  lemma WriterToGateway(steps: seq<ChannelWriter.Step>, gateway: GoString, cut: bytes)
    requires ChannelWriter.Legal(ChannelWriter.START, steps)
    requires ChannelWriter.FramesSized(ChannelWriter.Run(ChannelWriter.START, steps))
    requires DecodeFrame(cut).Err?
    ensures var s := ChannelWriter.Run(ChannelWriter.START, steps);
            var sent := ChannelWriter.Written(s.wire);
            && sent <= s.accepted && |s.accepted| <= |sent| + 6
            && Consume(gateway, EncodeAll(s.wire) + cut).0
               == AllPushes(gateway, UntilPanic(gateway, PacketsOf(sent)))
  {
    hide EncodeAll, DecodeFrame, PacketsOf, ChannelWriter.Written, Consume, AllPushes, UntilPanic;
    var s := ChannelWriter.Run(ChannelWriter.START, steps);
    ChannelWriter.Conservation(steps);
    WriterKeepsKinds(ChannelWriter.START, steps);
    HandledIsWritten(s.wire);
    Resync(gateway, s.wire, cut);
  }

  /** A push waiting at a logic server. */
  datatype Job = Job(packet: LogicPacket, ids: seq<GoString>)

  ghost predicate Travels(job: Job, gateway: GoString) {
    && job.ids != [] && KnownOrRetained(job.packet.header) && NoRoutingKeys(job.packet)
    && AllCommaFree(job.ids) && AllUtf8(job.packet, job.ids, gateway)
    && Sized(EnvelopeFrame(job.packet, job.ids, gateway))
  }

  function Payloads(jobs: seq<Job>, gateway: GoString): seq<bytes> {
    seq(|jobs|, i requires 0 <= i < |jobs| => EnvelopeFrame(jobs[i].packet, jobs[i].ids, gateway).payload)
  }

  /** All the pushes meant by some jobs, one list after the other. */
  function Meant(jobs: seq<Job>): seq<Push> {
    if jobs == [] then []
    else
      var last := jobs[|jobs| - 1];
      Meant(jobs[..|jobs| - 1]) + PushEach(last.ids, Packets.Marshal(Logic(last.packet)))
  }

  lemma OnePacketMore(payloads: seq<bytes>, payload: bytes)
    requires MustReadLogic(payload).Ok?
    ensures PacketsOf(payloads + [payload]) == PacketsOf(payloads) + [MustReadLogic(payload).value]
  {
    hide MustReadLogic;
    assert (payloads + [payload])[..|payloads|] == payloads;
  }

  lemma NoPackets()
    ensures PacketsOf([]) == []
  {
  }

  lemma {:induction false} JobsDelivered(jobs: seq<Job>, gateway: GoString)
    requires forall i :: 0 <= i < |jobs| ==> Travels(jobs[i], gateway)
    ensures var packets := PacketsOf(Payloads(jobs, gateway));
            NoPanic(gateway, packets) && AllPushes(gateway, UntilPanic(gateway, packets)) == Meant(jobs)
  {
    hide MustReadLogic, Packets.Marshal, EnvelopeFrame, Pushes, PushEach, KnownOrRetained, AllUtf8, AllCommaFree,
      NoRoutingKeys, PacketsOf, NumericChannels, AllPushes, UntilPanic, NoPanic;
    if jobs == [] {
      NoPackets();
      HandledNone(gateway);
    } else {
      var front, job := jobs[..|jobs| - 1], jobs[|jobs| - 1];
      var payload := EnvelopeFrame(job.packet, job.ids, gateway).payload;
      assert Payloads(jobs, gateway) == Payloads(front, gateway) + [payload];
      JobsDelivered(front, gateway);
      EnvelopePushed(job.packet, job.ids, gateway);
      OnePacketMore(Payloads(front, gateway), payload);
      var packet := MustReadLogic(payload).value;
      var none: seq<LogicPacket> := [];
      assert [packet] + none == [packet];
      HandledNone(gateway);
      HandledOne(gateway, packet, none);
      AllPushesConcat(gateway, PacketsOf(Payloads(front, gateway)), [packet]);
      var now := Pushes(gateway, packet);
      assert now + [] == now;
    }
  }

  lemma {:induction false} WrittenSizes(wire: seq<Frame>)
    requires DataAndPongs(wire)
    requires forall x :: x in ChannelWriter.Written(wire) ==> |x| < TWO_32
    ensures forall i :: 0 <= i < |wire| ==> Sized(wire[i])
    decreases |wire|
  {
    if wire != [] {
      WrittenSizes(wire[..|wire| - 1]);
      assert wire == wire[..|wire| - 1] + [wire[|wire| - 1]];
      ChannelWriter.WrittenGrows(wire[..|wire| - 1], wire[|wire| - 1]);
    }
  }

  lemma PrefixOfFour(a: seq<bytes>, b: seq<bytes>, c: seq<bytes>, d: seq<bytes>)
    ensures a <= a + b + c + d && (a + b + c + d)[..|a|] == a
  {
  }

  /**
   * From the dispatcher's packets through the writer to the gateway's pushes: when the payloads
   * accepted by the gateway's channel are envelopes that can travel, then in every run of pushers,
   * writer and reader the gateway has made exactly the pushes meant by the first of them, in accept
   * order, once each and with the original bytes, and at most six packets are still missing.
   */
  lemma EnvelopesThroughWriter(steps: seq<ChannelWriter.Step>, jobs: seq<Job>, gateway: GoString, cut: bytes)
    requires ChannelWriter.Legal(ChannelWriter.START, steps) && DecodeFrame(cut).Err?
    requires ChannelWriter.Run(ChannelWriter.START, steps).accepted == Payloads(jobs, gateway)
    requires forall i :: 0 <= i < |jobs| ==> Travels(jobs[i], gateway)
    ensures var s := ChannelWriter.Run(ChannelWriter.START, steps);
            var k := |ChannelWriter.Written(s.wire)|;
            && k <= |jobs| <= k + 6
            && Consume(gateway, EncodeAll(s.wire) + cut).0 == Meant(jobs[..k])
  {
    hide EncodeAll, DecodeFrame, PacketsOf, ChannelWriter.Written, Consume, AllPushes, UntilPanic, EnvelopeFrame,
      KnownOrRetained, AllUtf8, AllCommaFree, NoRoutingKeys, NoPanic, Meant;
    var s := ChannelWriter.Run(ChannelWriter.START, steps);
    var sent := ChannelWriter.Written(s.wire);
    ChannelWriter.Conservation(steps);
    WriterKeepsKinds(ChannelWriter.START, steps);
    var done := jobs[..|sent|];
    PrefixOfFour(sent, ChannelWriter.InHand(s), s.lost, s.queue);
    assert sent == Payloads(jobs, gateway)[..|sent|] == Payloads(done, gateway);
    assert forall x :: x in sent ==> |x| < TWO_32;
    WrittenSizes(s.wire);
    WriterToGateway(steps, gateway, cut);
    JobsDelivered(done, gateway);
  }

  // ---- Down to the clients -------------------------------------------------------------------

  /**
   * From the dispatcher at a logic server to the channels of the clients: a packet pushed for different
   * ids, each of a connection that is between Add and Remove at the gateway and open, is accepted by
   * exactly these connections' channels, once each and with its original bytes.
   */
  lemma PacketReachesClients(p: LogicPacket, ids: seq<GoString>, gateway: GoString, cut: bytes,
                             s: Delivery.State, pusher: nat) returns (steps: seq<Delivery.Step>)
    requires ids != [] && KnownOrRetained(p.header) && DecodeFrame(cut).Err?
    requires Sized(EnvelopeFrame(p, ids, gateway))
    requires NoRoutingKeys(p) && AllCommaFree(ids) && AllUtf8(p, ids, gateway)
    requires Delivery.Inv(s) && pusher !in s.registry.found
    requires forall i, j :: 0 <= i < j < |ids| ==> ids[i] != ids[j]
    requires forall i :: 0 <= i < |ids| ==> Delivery.Open(s, ids[i], pusher)
    ensures var pushes := Consume(gateway, EncodeFrame(EnvelopeFrame(p, ids, gateway)) + cut).0;
            && |pushes| == |ids|
            && (forall i :: 0 <= i < |ids| ==> pushes[i] == Push(ids[i], Packets.Marshal(Logic(p))))
            && Delivery.Legal(s, steps) && Delivery.AllAccepted(s, Delivery.Run(s, steps), pushes)
  {
    hide KnownOrRetained, DecodeFrame, EncodeFrame, EnvelopeFrame, NoRoutingKeys, AllCommaFree, AllUtf8, Consume,
      Delivery.Legal, Delivery.Run, Delivery.AllAccepted, Packets.Marshal, Delivery.Open;
    PushEndToEnd(p, ids, gateway, cut);
    var pushes := PushEach(ids, Packets.Marshal(Logic(p)));
    steps := Delivery.AllArrive(s, pusher, pushes);
  }

  // ---- From Dispatch -------------------------------------------------------------------------

  /** What a client reads: a packet with the request's fields, the push flag, the body, and no meta. */
  ghost predicate Carries(data: bytes, request: Header, body: bytes) {
    match MustReadLogic(data)
    case Err(_) => false
    case Ok(p, rest) =>
      && p.header.command == request.command && p.header.channelId == request.channelId
      && p.header.sequence == request.sequence && p.header.status == request.status
      && p.header.dest == request.dest && p.header.flag == 2
      && p.header.meta == [] && p.header.unknown == [] && p.body == body && rest == []
  }

  /** The request's strings, which the notice takes over. */
  predicate TextRequest(request: Header) {
    Utf8.Valid(request.command) && Utf8.Valid(request.channelId) && Utf8.Valid(request.dest)
  }

  lemma NoticeFacts(request: Header, body: bytes)
    ensures var p := Dispatch.Notice(request, body);
            && NoRoutingKeys(p) && KnownOrRetained(p.header)
            && (TextHeader(p.header) <==> TextRequest(request))
            && p == LogicPacket(Header(request.command, request.channelId, request.sequence, 2, request.status,
                                       request.dest, [], []), body)
  {
    RetainedEmpty(UnknownToHeader);
  }

  lemma NoticeRead(request: Header, body: bytes)
    requires Writable(Logic(Dispatch.Notice(request, body)))
    ensures Carries(Packets.Marshal(Logic(Dispatch.Notice(request, body))), request, body)
  {
    hide Packets.Marshal, Packets.Read, Writable, TextHeader, KnownOrRetained;
    var p := Dispatch.Notice(request, body);
    NoticeFacts(request, body);
    var data := Packets.Marshal(Logic(p));
    assert data + [] == data;
    PacketRoundTrip(Logic(p), []);
  }

  /** What is pushed to the gateway is read there field by field as it was sent, if all strings are UTF-8. */
  lemma SentRead(request: Header, body: bytes, ids: seq<GoString>, gateway: GoString)
    ensures var sent := Dispatch.Sent(request, body, ids, gateway);
            var data := Packets.Marshal(Logic(sent));
            |data| < TWO_32 ==>
              if TextRequest(request) && AllText(ids) && Utf8.Valid(gateway)
              then MustReadLogic(data) == Ok(sent, []) else MustReadLogic(data).Err?
  {
    hide Packets.Marshal, MustReadLogic, AllText, Utf8.Valid, TextHeader, KnownOrRetained;
    NoticeFacts(request, body);
    Dispatch.SentIsEnvelope(request, body, ids, gateway);
    EnvelopeArrives(Dispatch.Notice(request, body), ids, gateway);
  }

  /** The notice for some ids on its way: who is pushed to, and what each gets. */
  lemma NoticeDelivered(request: Header, body: bytes, ids: seq<GoString>, gateway: GoString, cut: bytes)
    requires ids != [] && DecodeFrame(cut).Err?
    ensures var frame := Frame(2, Packets.Marshal(Logic(Dispatch.Sent(request, body, ids, gateway))));
            var r := Consume(gateway, EncodeFrame(frame) + cut);
            Sized(frame) ==>
              (Brings(r, ids, request, body)
               <==> AllCommaFree(ids) && TextRequest(request) && AllText(ids) && Utf8.Valid(gateway))
  {
    hide EncodeFrame, DecodeFrame, AllText, Utf8.Valid, AllCommaFree, Consume, KnownOrRetained, Split, Join,
      TextHeader, TextRequest, Packets.Marshal, Writable, Carries, Dispatch.Notice, Dispatch.Sent, NoRoutingKeys;
    var notice := Dispatch.Notice(request, body);
    NoticeFacts(request, body);
    Dispatch.SentIsEnvelope(request, body, ids, gateway);
    if Sized(EnvelopeFrame(notice, ids, gateway)) {
      if AllUtf8(notice, ids, gateway) {
        SizedWritable(notice, ids, gateway);
        NoticeRead(request, body);
        PushedPieces(notice, ids, gateway, cut);
        ChannelsAre(ids, Packets.Marshal(Logic(notice)));
      } else {
        NotWritten(notice, ids, gateway, cut);
      }
    }
  }

  /** One push for each id in order, each with a packet that carries the request's fields and the body. */
  ghost predicate Brings(r: (seq<Push>, Stop), ids: seq<GoString>, request: Header, body: bytes) {
    && r.1 == Stopped && |r.0| == |ids|
    && forall i :: 0 <= i < |ids| ==> r.0[i].channel == ids[i] && Carries(r.0[i].data, request, body)
  }

  /**
   * A Dispatch whose other receivers share one gateway reaches every one of them, once each and in
   * argument order, with the request's fields, the push flag and the given body, exactly when no id has
   * a comma and all strings are UTF-8; the sender gets nothing.
   */
  lemma DispatchEndToEnd(request: Header, body: bytes, recvs: seq<Dispatch.Location>, self: GoString,
                         gateway: GoString, cut: bytes)
    requires var os := Filter(recvs, Dispatch.NotFrom(self));
             os != [] && forall i :: 0 <= i < |os| ==> os[i].gateId == gateway
    requires DecodeFrame(cut).Err?
    ensures var ids := Dispatch.Ids(Filter(recvs, Dispatch.NotFrom(self)));
            var frame := Frame(2, Packets.Marshal(Logic(Dispatch.Sent(request, body, ids, gateway))));
            && Dispatch.Receivers(recvs, self, gateway) == ids && self !in ids
            && (Sized(frame) ==>
                  (Brings(Consume(gateway, EncodeFrame(frame) + cut), ids, request, body)
                   <==> AllCommaFree(ids) && TextRequest(request) && AllText(ids) && Utf8.Valid(gateway)))
  {
    hide EncodeFrame, DecodeFrame, AllText, Utf8.Valid, AllCommaFree, Consume, TextRequest, Packets.Marshal,
      Brings, Dispatch.Sent, Sized;
    var os := Filter(recvs, Dispatch.NotFrom(self));
    Dispatch.OthersFilter(recvs, self);
    Dispatch.ReceiversAre(recvs, self, gateway);
    Dispatch.ChannelsAtLength(os, gateway);
    Dispatch.OthersAreNotSelf(recvs, self);
    var ids := Dispatch.Ids(os);
    assert forall i :: 0 <= i < |ids| ==> os[i] in os && ids[i] == os[i].channelId;
    NoticeDelivered(request, body, ids, gateway, cut);
  }

  lemma ChannelsAre(ids: seq<GoString>, data: bytes)
    requires ids != []
    ensures var pushes := PushEach(Split(Join(ids)), data);
            (|pushes| == |ids| && forall i :: 0 <= i < |ids| ==> pushes[i].channel == ids[i]) <==> AllCommaFree(ids)
  {
    hide Split, Join, AllCommaFree;
    SplitJoin(ids);
    var pieces := Split(Join(ids));
    if |pieces| == |ids| && forall i :: 0 <= i < |ids| ==> PushEach(pieces, data)[i].channel == ids[i] {
      assert forall i :: 0 <= i < |ids| ==> pieces[i] == ids[i];
      assert pieces == ids;
    }
  }

  // ---- Consequences --------------------------------------------------------------------------

  /**
   * An id from the generator is reached over the wire exactly when the packet carries no routing key,
   * neither service nor account has a comma, and all strings are UTF-8.
   */
  lemma GeneratedIdDelivered(p: LogicPacket, service: GoString, account: GoString, n: nat, gateway: GoString,
                             cut: bytes)
    requires KnownOrRetained(p.header) && DecodeFrame(cut).Err?
    ensures var id := ChannelIds.ChannelId(service, account, n);
            Sized(EnvelopeFrame(p, [id], gateway)) ==>
              (Consume(gateway, EncodeFrame(EnvelopeFrame(p, [id], gateway)) + cut)
               == ([Push(id, Packets.Marshal(Logic(p)))], Stopped)
               <==> && NoRoutingKeys(p) && CommaFree(service) && CommaFree(account) && TextHeader(p.header)
                    && Utf8.Valid(service) && Utf8.Valid(account) && Utf8.Valid(gateway))
  {
    hide KnownOrRetained, Packets.Marshal, EncodeFrame, DecodeFrame, EnvelopeFrame, NoRoutingKeys, CommaFree, Consume,
      ChannelIds.ChannelId, Utf8.Valid, TextHeader;
    var id := ChannelIds.ChannelId(service, account, n);
    ChannelIds.IdCommaFree(service, account, n);
    ChannelIds.IdText(service, account, n);
    PushEndToEnd(p, [id], gateway, cut);
    var one: seq<GoString> := [id];
    assert one[0] == id && one[1..] == [];
    assert AllCommaFree(one) <==> CommaFree(id);
    assert AllText(one) <==> Utf8.Valid(id);
    assert PushEach(one, Packets.Marshal(Logic(p))) == [Push(id, Packets.Marshal(Logic(p)))];
  }

  // ---- The failed type assertion -------------------------------------------------------------

  /** Lookup in the envelope: an entry the packet carried before comes first. */
  lemma EnvelopeNumeric(p: LogicPacket, ids: seq<GoString>, gateway: GoString)
    ensures NumericChannels(gateway, Envelope(p, ids, gateway))
       <==> && (!HasKey(p.header.meta, DEST_SERVER) || FirstText(p.header.meta, DEST_SERVER, gateway))
            && FirstNumeric(p.header.meta, DEST_CHANNELS)
  {
    hide FindMeta, FirstNumeric, FirstText, Join, HasKey;
    KeysDiffer();
    var ms := p.header.meta;
    var c, s := StringMeta(DEST_CHANNELS, Join(ids)), StringMeta(DEST_SERVER, gateway);
    var all := Envelope(p, ids, gateway).header.meta;
    assert all == ms + [c, s];
    FindConcat(ms, [c, s], DEST_SERVER);
    FindConcat(ms, [c, s], DEST_CHANNELS);
    EnvelopeFinds(c, s);
    FindAbsent(ms, DEST_SERVER);
    FindAbsent(ms, DEST_CHANNELS);
    FirstKinds(all, DEST_SERVER);
    FirstKinds(all, DEST_CHANNELS);
    FirstKinds(ms, DEST_SERVER);
    FirstKinds(ms, DEST_CHANNELS);
  }

  lemma EnvelopeFinds(c: Meta, s: Meta)
    requires c.key == DEST_CHANNELS && s.key == DEST_SERVER
    ensures FindMeta([c, s], DEST_SERVER) == Some(Interpret(s))
    ensures FindMeta([c, s], DEST_CHANNELS) == Some(Interpret(c))
  {
    KeysDiffer();
    assert [c, s][1..] == [s];
  }

  /**
   * The gateway's loop panics on a pushed packet exactly when the packet came with an int or float
   * entry for its channels, with no other gateway's name, and all strings are UTF-8.
   */
  lemma PushPanics(p: LogicPacket, ids: seq<GoString>, gateway: GoString, cut: bytes)
    requires KnownOrRetained(p.header) && DecodeFrame(cut).Err?
    ensures Sized(EnvelopeFrame(p, ids, gateway)) ==>
              (Consume(gateway, EncodeFrame(EnvelopeFrame(p, ids, gateway)) + cut) == ([], Panicked)
               <==> && (!HasKey(p.header.meta, DEST_SERVER) || FirstText(p.header.meta, DEST_SERVER, gateway))
                    && FirstNumeric(p.header.meta, DEST_CHANNELS) && AllUtf8(p, ids, gateway))
  {
    hide EncodeFrame, DecodeFrame, MustReadLogic, Packets.Marshal, Envelope, Pushes, Verdict,
      KnownOrRetained, AllUtf8, NumericChannels, FirstNumeric, FirstText, HasKey;
    var f := EnvelopeFrame(p, ids, gateway);
    FrameRoundTrip(f, cut);
    EnvelopeArrives(p, ids, gateway);
    EnvelopeNumeric(p, ids, gateway);
    PanicExactly(gateway, Envelope(p, ids, gateway));
    assert Consume(gateway, cut) == ([], Stopped);
  }

  /** It does happen: a packet whose own "dest.channels" entry is the int 7, pushed to one channel. */
  lemma PanicExample()
    ensures var p := LogicPacket(EMPTY_HEADER.(meta := [Meta(DEST_CHANNELS, [0x37], KIND_INT, [])]), []);
            Consume([0x67], EncodeFrame(EnvelopeFrame(p, [[0x61]], [0x67]))) == ([], Panicked)
  {
    hide EncodeFrame, EnvelopeFrame, Consume, EncodeHeader, Utf8.Valid, FirstNumeric, Join, KnownOrRetained,
      TextHeader, HasKey;
    var m := Meta(DEST_CHANNELS, [0x37], KIND_INT, []);
    var p := LogicPacket(EMPTY_HEADER.(meta := [m]), []);
    var ids: seq<GoString> := [[0x61]];
    var gateway: GoString := [0x67];
    ExamplePacket(p, m);
    ChannelIds.DigitsText(ids[0]);
    ChannelIds.DigitsText(gateway);
    assert Join(ids) == [0x61] by { OneJoins(ids); }
    EnvelopeFits(p, ids, gateway);
    EmptyRejected();
    PushPanics(p, ids, gateway, []);
    var b := EncodeFrame(EnvelopeFrame(p, ids, gateway));
    assert b + [] == b;
  }

  lemma OneJoins(ids: seq<GoString>)
    requires |ids| == 1
    ensures Join(ids) == ids[0]
  {
  }

  lemma ExamplePacket(p: LogicPacket, m: Meta)
    requires p == LogicPacket(EMPTY_HEADER.(meta := [m]), []) && m == Meta(DEST_CHANNELS, [0x37], KIND_INT, [])
    ensures Writable(Logic(p)) && |EncodeHeader(p.header)| < 200
    ensures !HasKey(p.header.meta, DEST_SERVER) && FirstNumeric(p.header.meta, DEST_CHANNELS)
  {
    hide EncodeHeader, Utf8.Valid, Retained;
    KeysDiffer();
    assert |DEST_CHANNELS| == 13;
    ChannelIds.DigitsText(DEST_CHANNELS);
    ChannelIds.DigitsText([0x37]);
    ChannelIds.DigitsText([]);
    RetainedEmpty(UnknownToHeader);
    RetainedEmpty(UnknownToMeta);
    EmptyHeaderSize();
    AddedMetaSize(EMPTY_HEADER, m);
    assert [] + [m] == [m];
    assert FirstAt(p.header.meta, DEST_CHANNELS, 0);
  }

  lemma EmptyHeaderSize()
    ensures EncodeHeader(EMPTY_HEADER) == []
  {
  }

  /**
   * The packet object keeps its envelope, so pushing it a second time, to another gateway, is turned
   * away there: lookup finds the first gateway's name.
   */
  lemma SecondPushRejected(p: LogicPacket, ids1: seq<GoString>, g1: GoString, ids2: seq<GoString>, g2: GoString)
    requires g1 != g2 && !HasKey(p.header.meta, DEST_SERVER)
    ensures var twice := Envelope(Envelope(p, ids1, g1), ids2, g2);
            Verdict(g2, twice) == Rejected(WrongServer) && Pushes(g2, twice) == []
  {
    hide Join, FindMeta;
    KeysDiffer();
    var ms := p.header.meta;
    var once := Envelope(p, ids1, g1).header.meta;
    var c, s := StringMeta(DEST_CHANNELS, Join(ids1)), StringMeta(DEST_SERVER, g1);
    assert once == ms + [c] + [s];
    assert once[|once| - 1] == s;
    FindAfterAdd(ms + [c], DEST_SERVER, g1, DEST_SERVER);
    FindConcat(once, [StringMeta(DEST_CHANNELS, Join(ids2)), StringMeta(DEST_SERVER, g2)], DEST_SERVER);
  }

  // ---- Sizes, and the methods run one after the other ----------------------------------------

  lemma EnvelopeHeaderSize(p: LogicPacket, ids: seq<GoString>, gateway: GoString)
    requires |Join(ids)| + |gateway| + 200 < TWO_32
    ensures |EncodeHeader(Envelope(p, ids, gateway).header)|
         <= |EncodeHeader(p.header)| + |Join(ids)| + |gateway| + 184
  {
    hide EncodeHeader, Join;
    var c, s := StringMeta(DEST_CHANNELS, Join(ids)), StringMeta(DEST_SERVER, gateway);
    var h := p.header;
    AddedMetaSize(h, c);
    AddedMetaSize(h.(meta := h.meta + [c]), s);
    assert h.meta + [c] + [s] == h.meta + [c, s];
  }

  /** A bound on the parts of a push that makes its frame fit. */
  lemma EnvelopeFits(p: LogicPacket, ids: seq<GoString>, gateway: GoString)
    requires |EncodeHeader(p.header)| + |p.body| + |Join(ids)| + |gateway| + 200 < TWO_32
    ensures Sized(EnvelopeFrame(p, ids, gateway))
  {
    hide EncodeHeader, Join, PutUint, Envelope;
    EnvelopeHeaderSize(p, ids, gateway);
    SameBody(p, ids, gateway);
  }

  /** An instance: two channels, one packet, and what the gateway does with the bytes. */
  lemma PushExample()
    ensures var p := LogicPacket(EMPTY_HEADER.(sequence := 150), [0x68, 0x69]);
            var data := Packets.Marshal(Logic(p));
            Consume([0x67], EncodeFrame(EnvelopeFrame(p, [[0x61], [0x62]], [0x67])))
            == ([Push([0x61], data), Push([0x62], data)], Stopped)
  {
    hide Packets.Marshal, EncodeFrame, EnvelopeFrame, Consume, EncodeHeader, KnownOrRetained;
    var p := LogicPacket(EMPTY_HEADER.(sequence := 150), [0x68, 0x69]);
    var ids: seq<GoString> := [[0x61], [0x62]];
    var gateway: GoString := [0x67];
    var data := Packets.Marshal(Logic(p));
    ReferenceBytes();
    ExampleKnown(p);
    assert ids[1..] == [[0x62]];
    assert Join(ids) == [0x61] + [COMMA] + [0x62];
    EnvelopeFits(p, ids, gateway);
    EmptyRejected();
    AsciiText(ids, gateway);
    PushEndToEnd(p, ids, gateway, []);
    var b := EncodeFrame(EnvelopeFrame(p, ids, gateway));
    assert b + [] == b;
    TwoPushes(data);
  }

  lemma ExampleKnown(p: LogicPacket)
    requires p.header == EMPTY_HEADER.(sequence := 150)
    ensures KnownOrRetained(p.header) && TextHeader(p.header) && NoRoutingKeys(p)
  {
    RetainedEmpty(UnknownToHeader);
  }

  lemma AsciiText(ids: seq<GoString>, gateway: GoString)
    requires ids == [[0x61], [0x62]] && gateway == [0x67]
    ensures AllText(ids) && Utf8.Valid(gateway) && AllCommaFree(ids)
  {
    ChannelIds.DigitsText(ids[0]);
    ChannelIds.DigitsText(ids[1]);
    ChannelIds.DigitsText(gateway);
  }

  lemma TwoPushes(data: bytes)
    ensures var ids: seq<GoString> := [[0x61], [0x62]];
            PushEach(ids, data) == [Push([0x61], data), Push([0x62], data)]
  {
  }

  /**
   * The methods in a row: the dispatcher of a logic server, the frame on the connection, the gateway's
   * loop until the connection ends. The gateway's pushes are the intended ones exactly under the
   * conditions of PushEndToEnd.
   */
  method Transmit(logic: Srv, gateway: Srv, ids: seq<GoString>, p: LogicPkt) returns (stop: Stop)
    requires p.Valid() && logic != gateway && ids != [] && KnownOrRetained(p.Value().header)
    requires Sized(EnvelopeFrame(p.Value(), ids, gateway.id))
    modifies p, p.backing, logic, gateway
    ensures gateway.pushed == old(gateway.pushed) + PushEach(ids, Packets.Marshal(Logic(old(p.Value()))))
            && stop == Stopped
       <==> NoRoutingKeys(old(p.Value())) && AllCommaFree(ids) && AllUtf8(old(p.Value()), ids, gateway.id)
  {
    hide KnownOrRetained, EncodeFrame, Packets.Marshal, Consume, AllUtf8, AllCommaFree, Envelope,
      NoRoutingKeys, DecodeFrame;
    ghost var was, before := p.Value(), gateway.pushed;
    var _ := DispatcherPush(logic, gateway.id, ids, p);
    var sent := logic.pushed[|logic.pushed| - 1];
    var wire := new Buffer();
    WriteFrame(wire, Frame(OP_BINARY, sent.data));
    var conn := new Reader(wire.contents);
    var cli := new Client(conn);
    EmptyRejected();
    PushEndToEnd(was, ids, gateway.id, []);
    ghost var b := EncodeFrame(EnvelopeFrame(was, ids, gateway.id));
    assert b + [] == b && [] + b == b;
    stop := ReadLoop(gateway, cli);
    ghost var got, want := Consume(gateway.id, b).0, PushEach(ids, Packets.Marshal(Logic(was)));
    assert (before + got)[|before|..] == got && (before + want)[|before|..] == want;
  }
}
