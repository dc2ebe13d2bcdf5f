/** wxf/container/container.go: Push, pushMessage and readLoop, with ServerDispatcher.Push before them. */
module Container {
  import opened Bytes
  import opened Endian
  import opened MetaList
  import opened Packets
  import opened PacketObjects
  import opened Frames
  import opened Routing

  /** How a readLoop ends: on a read error or a close frame, or in a failed type assertion. */
  datatype Stop = Stopped | Panicked

  // ---- Specification: one pass over the bytes of the connection ------------------------------

  /** What one frame, not a close frame, makes the gateway do; true when it panics. */
  function Handle(self: GoString, f: Frame): (seq<Push>, bool) {
    if f.opcode != OP_BINARY then ([], false)
    else
      match MustReadLogic(f.payload)
      case Err(_) => ([], false)
      case Ok(p, _) => (Pushes(self, p), Verdict(self, p) == Panic)
  }

  function Consume(self: GoString, b: bytes): (seq<Push>, Stop)
    decreases |b|
  {
    match DecodeFrame(b)
    case Err(_) => ([], Stopped)
    case Ok(f, rest) =>
      FrameReencode(b);
      if f.opcode == OP_CLOSE then ([], Stopped)
      else if Handle(self, f).1 then ([], Panicked)
      else
        var more := Consume(self, rest);
        (Handle(self, f).0 + more.0, more.1)
  }

  // ---- Specification: by frames --------------------------------------------------------------

  function UntilClose(fs: seq<Frame>): seq<Frame> {
    if fs == [] || fs[0].opcode == OP_CLOSE then [] else [fs[0]] + UntilClose(fs[1..])
  }

  /** The logic packets among the binary frames; everything else is passed over. */
  function LogicPackets(fs: seq<Frame>): seq<LogicPacket> {
    if fs == [] then []
    else
      var rest := LogicPackets(fs[1..]);
      if fs[0].opcode == OP_BINARY && MustReadLogic(fs[0].payload).Ok?
      then [MustReadLogic(fs[0].payload).value] + rest
      else rest
  }

  ghost function UntilPanic(self: GoString, ps: seq<LogicPacket>): seq<LogicPacket> {
    if ps == [] || NumericChannels(self, ps[0]) then [] else [ps[0]] + UntilPanic(self, ps[1..])
  }

  function AllPushes(self: GoString, ps: seq<LogicPacket>): seq<Push> {
    if ps == [] then [] else Pushes(self, ps[0]) + AllPushes(self, ps[1..])
  }

  /** The packets a gateway handles out of a list of frames. */
  function Handled(fs: seq<Frame>): seq<LogicPacket> {
    LogicPackets(UntilClose(fs))
  }

  ghost predicate NoPanic(self: GoString, ps: seq<LogicPacket>) {
    forall i :: 0 <= i < |ps| ==> !NumericChannels(self, ps[i])
  }

  /**
   * Resynchronisation: pings, other packets and malformed payloads never disturb what comes after
   * them, and a cut at the end loses nothing before it. The loop ends with an error, not a panic,
   * exactly when no handled packet is addressed to this gateway with its channels in an int or float entry.
   */
  lemma {:induction false} Resync(self: GoString, fs: seq<Frame>, cut: bytes)
    requires forall i :: 0 <= i < |fs| ==> Sized(fs[i])
    requires DecodeFrame(cut).Err?
    ensures var r := Consume(self, EncodeAll(fs) + cut);
            && r.0 == AllPushes(self, UntilPanic(self, Handled(fs)))
            && (r.1 == Stopped <==> NoPanic(self, Handled(fs)))
    decreases |fs|
  {
    hide EncodeFrame, DecodeFrame, Verdict, Pushes, MustReadLogic, NumericChannels;
    if fs == [] {
      assert EncodeAll(fs) + cut == cut;
    } else {
      var f, rest := fs[0], EncodeAll(fs[1..]) + cut;
      ConcatAssoc(EncodeFrame(f), EncodeAll(fs[1..]), cut);
      FrameRoundTrip(f, rest);
      assert Consume(self, EncodeAll(fs) + cut) == Consume(self, EncodeFrame(f) + rest);
      Resync(self, fs[1..], cut);
      if f.opcode != OP_CLOSE {
        assert UntilClose(fs)[1..] == UntilClose(fs[1..]);
        if f.opcode == OP_BINARY && MustReadLogic(f.payload).Ok? {
          PanicExactly(self, MustReadLogic(f.payload).value);
          HandledOne(self, MustReadLogic(f.payload).value, Handled(fs[1..]));
        } else {
          assert [] + Consume(self, rest).0 == Consume(self, rest).0;
        }
      }
    }
  }

  lemma HandledOne(self: GoString, p: LogicPacket, rest: seq<LogicPacket>)
    ensures NoPanic(self, [p] + rest) <==> !NumericChannels(self, p) && NoPanic(self, rest)
    ensures AllPushes(self, UntilPanic(self, [p] + rest))
         == if NumericChannels(self, p) then [] else Pushes(self, p) + AllPushes(self, UntilPanic(self, rest))
  {
    hide NumericChannels, Pushes;
    var all := [p] + rest;
    assert all[1..] == rest;
    if NoPanic(self, all) {
      assert all[0] == p;
      assert forall i :: 0 <= i < |rest| ==> rest[i] == all[i + 1];
    }
    if !NumericChannels(self, p) {
      assert UntilPanic(self, all)[1..] == UntilPanic(self, rest);
    }
  }

  // ---- The methods of the source -------------------------------------------------------------

  /** The server of a container: its id, the calls of Push made on it, and whether they succeeded. */
  class Srv {
    const id: GoString
    var pushed: seq<Push>
    var answers: seq<bool>

    constructor (id: GoString)
      ensures this.id == id && pushed == [] && answers == []
    {
      this.id, pushed, answers := id, [], [];
    }

    /** Whether the channel accepts is up to the channel; pushMessage only logs a refusal. */
    method Push(channel: GoString, data: bytes) returns (ok: bool)
      modifies this
      ensures pushed == old(pushed) + [Routing.Push(channel, data)] && answers == old(answers) + [ok]
    {
      ok := *;
      pushed, answers := pushed + [Routing.Push(channel, data)], answers + [ok];
    }
  }

  /** container.Push at the logic server; the server's answer is passed on. */
  method Push(srv: Srv, server: GoString, p: LogicPkt) returns (ok: bool)
    requires p.Valid()
    modifies p, p.backing, srv
    ensures p.Valid() && p.Value() == AddMetas(old(p.Value()), [StringMeta(DEST_SERVER, server)])
    ensures srv.pushed == old(srv.pushed) + [Routing.Push(server, Packets.Marshal(Logic(p.Value())))]
    ensures srv.answers == old(srv.answers) + [ok]
  {
    p.AddStringMeta(DEST_SERVER, server);
    var data := MarshalLogic(p);
    ok := srv.Push(server, data);
  }

  /** ServerDispatcher.Push: the envelope goes on, and the bytes go to the gateway's channel. */
  method DispatcherPush(srv: Srv, gateway: GoString, channels: seq<GoString>, p: LogicPkt) returns (ok: bool)
    requires p.Valid()
    modifies p, p.backing, srv
    ensures p.Valid() && p.Value() == Envelope(old(p.Value()), channels, gateway)
    ensures var sent := Envelope(old(p.Value()), channels, gateway);
            srv.pushed == old(srv.pushed) + [Routing.Push(gateway, Packets.Marshal(Logic(sent)))]
    ensures srv.answers == old(srv.answers) + [ok]
  {
    ghost var ms := p.Value().header.meta;
    var c := StringMeta(DEST_CHANNELS, Join(channels));
    p.AddStringMeta(DEST_CHANNELS, Join(channels));
    ok := Push(srv, gateway, p);
    assert ms + [c] + [StringMeta(DEST_SERVER, gateway)] == ms + [c, StringMeta(DEST_SERVER, gateway)];
  }

  method PushToAll(srv: Srv, ids: seq<GoString>, payload: bytes)
    modifies srv
    ensures srv.pushed == old(srv.pushed) + PushEach(ids, payload)
  {
    ghost var start, all := srv.pushed, PushEach(ids, payload);
    var i := 0;
    while i < |ids|
      invariant 0 <= i <= |ids|
      invariant srv.pushed == start + all[..i]
    {
      var _ := srv.Push(ids[i], payload);
      i := i + 1;
    }
  }

  method PushMessage(srv: Srv, p: LogicPkt) returns (o: Outcome)
    requires p.Valid()
    modifies p, p.backing, srv
    ensures o == Verdict(srv.id, old(p.Value()))
    ensures srv.pushed == old(srv.pushed) + Pushes(srv.id, old(p.Value()))
  {
    hide FindMeta, Split, MetaList.DelMeta, Packets.Marshal, PushEach;
    ghost var was, start := p.Value(), srv.pushed;
    assert start + [] == start;
    var server := p.GetMeta(DEST_SERVER);
    if server != Some(StringValue(srv.id)) {
      return Rejected(WrongServer);
    }
    var channels := p.GetMeta(DEST_CHANNELS);
    if channels.None? {
      return Rejected(NoChannels);
    }
    if !channels.value.StringValue? {
      return Panic;
    }
    var ids := Split(channels.value.text);
    p.DelMeta(DEST_SERVER);
    p.DelMeta(DEST_CHANNELS);
    assert p.Value() == Strip(was);
    var payload := MarshalLogic(p);
    PushToAll(srv, ids, payload);
    o := Delivered;
  }

  /** tcp.Client: frames off the connection, once there is one; a close frame is an error. */
  class Client {
    const conn: Reader?

    constructor (conn: Reader?)
      ensures this.conn == conn
    {
      this.conn := conn;
    }

    method Read() returns (r: Result<Frame>)
      modifies conn
      ensures conn == null ==> r == Failure(NoConnection)
      ensures conn != null ==>
                match DecodeFrame(old(conn.data))
                case Err(e) => r == Failure(e)
                case Ok(f, rest) =>
                  && r == (if f.opcode == OP_CLOSE then Failure(RemoteClosed) else Success(f))
                  && conn.data == rest
    {
      if conn == null {
        return Failure(NoConnection);
      }
      r := ReadFrame(conn);
      if r.Success? && r.value.opcode == OP_CLOSE {
        r := Failure(RemoteClosed);
      }
    }
  }

  method ReadFrame(conn: Reader) returns (r: Result<Frame>)
    modifies conn
    ensures Follows(r, DecodeFrame(old(conn.data)), conn.data)
  {
    var op := conn.ReadFull(1);
    if op.Failure? {
      return Failure(op.error);
    }
    var payload := conn.ReadBytes(4);
    if payload.Failure? {
      return Failure(payload.error);
    }
    r := Success(Frame(op.value[0], payload.value));
  }

  method WriteFrame(w: Buffer, f: Frame)
    modifies w
    ensures w.contents == old(w.contents) + EncodeFrame(f)
  {
    w.Write([f.opcode]);
    w.WriteBytes(4, f.payload);
    ConcatAssoc(old(w.contents), [f.opcode], PutBytes(4, f.payload));
  }

  method HandleFrame(srv: Srv, f: Frame) returns (panicked: bool)
    modifies srv
    ensures srv.pushed == old(srv.pushed) + Handle(srv.id, f).0
    ensures panicked == Handle(srv.id, f).1
  {
    hide Pushes, MustReadLogic;
    assert srv.pushed + [] == srv.pushed;
    if f.opcode != OP_BINARY {
      return false;
    }
    var buf := new Reader(f.payload);
    var packet := MustReadLogicPkt(buf);
    if packet.Failure? {
      return false;
    }
    var o := PushMessage(srv, packet.value);
    panicked := o == Panic;
  }

  lemma PanicPushesNothing(self: GoString, f: Frame)
    requires Handle(self, f).1
    ensures Handle(self, f).0 == []
  {
    hide Verdict;
  }

  method ReadLoop(srv: Srv, cli: Client) returns (stop: Stop)
    modifies srv, cli.conn
    ensures cli.conn == null ==> srv.pushed == old(srv.pushed) && stop == Stopped
    ensures cli.conn != null ==>
              && srv.pushed == old(srv.pushed) + Consume(srv.id, old(cli.conn.data)).0
              && stop == Consume(srv.id, old(cli.conn.data)).1
  {
    hide Handle, DecodeFrame, EncodeFrame;
    if cli.conn == null {
      var _ := cli.Read();
      return Stopped;
    }
    ghost var before, all := srv.pushed, Consume(srv.id, cli.conn.data);
    while true
      invariant before + all.0 == srv.pushed + Consume(srv.id, cli.conn.data).0
      invariant all.1 == Consume(srv.id, cli.conn.data).1
      decreases |cli.conn.data|
    {
      ghost var data, pushed := cli.conn.data, srv.pushed;
      var frame := cli.Read();
      if frame.Failure? {
        assert pushed + [] == pushed;
        return Stopped;
      }
      FrameReencode(data);
      var panicked := HandleFrame(srv, frame.value);
      if panicked {
        PanicPushesNothing(srv.id, frame.value);
        return Panicked;
      }
      ghost var now, next := Handle(srv.id, frame.value).0, Consume(srv.id, cli.conn.data).0;
      assert pushed + (now + next) == pushed + now + next;
    }
  }
}
