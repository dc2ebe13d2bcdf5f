/** Readloop of wxf/channel.go: pings are answered, payloads are handed to the listener. */
module ChannelReader {
  import opened Bytes
  import opened Endian
  import opened Frames
  import opened Container

  /** What a connection makes the loop do: payloads for the listener, pings to answer, the error at its end. */
  datatype Heard = Heard(payloads: seq<bytes>, pings: nat, error: Error)

  function ReadAll(b: bytes): Heard
    decreases |b|
  {
    match DecodeFrame(b)
    case Err(e) => Heard([], 0, e)
    case Ok(f, rest) =>
      FrameReencode(b);
      if f.opcode == OP_CLOSE then Heard([], 0, RemoteClosed)
      else
        var more := ReadAll(rest);
        if f.opcode == OP_PING then more.(pings := more.pings + 1)
        else if f.payload == [] then more
        else more.(payloads := [f.payload] + more.payloads)
  }

  /** The payloads for the listener among some frames. */
  function Payloads(fs: seq<Frame>): seq<bytes> {
    if fs == [] then []
    else if fs[0].opcode == OP_PING || fs[0].payload == [] then Payloads(fs[1..])
    else [fs[0].payload] + Payloads(fs[1..])
  }

  function Pings(fs: seq<Frame>): nat {
    if fs == [] then 0 else (if fs[0].opcode == OP_PING then 1 else 0) + Pings(fs[1..])
  }

  function Pongs(n: nat): seq<Frame> {
    seq(n, _ => Frame(OP_PONG, []))
  }

  /**
   * On any frames and a cut, the listener gets every payload before the first close that is not a
   * ping's, in order, and each ping there is answered once. The error is that of the close, or else of
   * the cut.
   */
  lemma {:induction false} ReadsUntilClose(fs: seq<Frame>, cut: bytes)
    requires forall i :: 0 <= i < |fs| ==> Sized(fs[i])
    requires DecodeFrame(cut).Err?
    ensures ReadAll(EncodeAll(fs) + cut)
         == Heard(Payloads(UntilClose(fs)), Pings(UntilClose(fs)),
                  if exists i :: 0 <= i < |fs| && fs[i].opcode == OP_CLOSE then RemoteClosed
                  else DecodeFrame(cut).error)
    decreases |fs|
  {
    hide EncodeFrame, DecodeFrame;
    if fs == [] {
      assert EncodeAll(fs) + cut == cut;
    } else {
      var f, rest := fs[0], EncodeAll(fs[1..]) + cut;
      ConcatAssoc(EncodeFrame(f), EncodeAll(fs[1..]), cut);
      FrameRoundTrip(f, rest);
      assert ReadAll(EncodeAll(fs) + cut) == ReadAll(EncodeFrame(f) + rest);
      ReadsUntilClose(fs[1..], cut);
      assert forall i :: 0 < i < |fs| ==> fs[i] == fs[1..][i - 1];
      if f.opcode != OP_CLOSE {
        assert UntilClose(fs)[0] == f && UntilClose(fs)[1..] == UntilClose(fs[1..]);
      }
    }
  }

  /**
   * The bytes of a ping, "hi" in a binary frame, an empty binary frame, a close and another "hi": one
   * payload is handed on, one ping answered, and the loop ends at the close.
   */
  lemma ReadExample()
    ensures ReadAll([0x09, 0, 0, 0, 0] + ([0x02, 0, 0, 0, 2, 0x68, 0x69] + ([0x02, 0, 0, 0, 0]
                    + ([0x08, 0, 0, 0, 0] + [0x02, 0, 0, 0, 2, 0x68, 0x69]))))
         == Heard([[0x68, 0x69]], 1, RemoteClosed)
  {
    hide EncodeFrame, ReadAll;
    var hi := [0x02, 0, 0, 0, 2, 0x68, 0x69];
    FrameBytes();
    EmptyBinary();
    ReadNext(Frame(OP_CLOSE, []), hi);
    ReadNext(Frame(OP_BINARY, []), [0x08, 0, 0, 0, 0] + hi);
    ReadNext(Frame(OP_BINARY, [0x68, 0x69]), [0x02, 0, 0, 0, 0] + ([0x08, 0, 0, 0, 0] + hi));
    ReadNext(Frame(OP_PING, []), hi + ([0x02, 0, 0, 0, 0] + ([0x08, 0, 0, 0, 0] + hi)));
  }

  lemma EmptyBinary()
    ensures EncodeFrame(Frame(OP_BINARY, [])) == [0x02, 0, 0, 0, 0]
  {
    hide PutBytes;
    SmallBytes([]);
  }

  lemma ReadNext(f: Frame, rest: bytes)
    requires Sized(f)
    ensures var more := ReadAll(rest);
            (ReadAll(EncodeFrame(f) + rest)
             == if f.opcode == 0x8 then Heard([], 0, RemoteClosed)
                else if f.opcode == 0x9 then more.(pings := more.pings + 1)
                else if f.payload == [] then more
                else more.(payloads := [f.payload] + more.payloads))
  {
    hide EncodeFrame, DecodeFrame;
    FrameRoundTrip(f, rest);
  }

  class Listener {
    var received: seq<bytes>

    constructor ()
      ensures received == []
    {
      received := [];
    }

    method Receive(payload: bytes)
      modifies this
      ensures received == old(received) + [payload]
    {
      received := received + [payload];
    }
  }

  lemma {:induction false} OneMorePong(n: nat)
    ensures EncodeAll(Pongs(n + 1)) == EncodeAll(Pongs(n)) + EncodeFrame(Frame(OP_PONG, []))
  {
    hide EncodeFrame;
    var pong := EncodeFrame(Frame(OP_PONG, []));
    assert Pongs(n + 1)[0] == Frame(OP_PONG, []) && Pongs(n + 1)[1..] == Pongs(n);
    if n == 0 {
      assert pong + [] == [] + pong;
    } else {
      OneMorePong(n - 1);
      assert Pongs(n)[0] == Frame(OP_PONG, []) && Pongs(n)[1..] == Pongs(n - 1);
      ConcatAssoc(pong, EncodeAll(Pongs(n - 1)), pong);
    }
  }

  lemma NoPongs()
    ensures EncodeAll(Pongs(0)) == []
  {
  }

  /** Whether a pong can be written is up to the connection; the loop does not look. */
  method WritePong(out: Buffer) returns (ok: bool)
    modifies out
    ensures out.contents == old(out.contents) + if ok then EncodeFrame(Frame(OP_PONG, [])) else []
  {
    ok := *;
    if ok {
      WriteFrame(out, Frame(OP_PONG, []));
    } else {
      assert out.contents + [] == out.contents;
    }
  }

  /**
   * The loop. It ends with the error of the connection, whatever became of the pongs: each ping is
   * answered once or, if that write fails, not at all.
   */
  method Readloop(conn: Reader, out: Buffer, listener: Listener) returns (e: Error, ghost failed: nat)
    modifies conn, out, listener
    ensures var heard := ReadAll(old(conn.data));
            && e == heard.error && listener.received == old(listener.received) + heard.payloads
            && failed <= heard.pings && out.contents == old(out.contents) + EncodeAll(Pongs(heard.pings - failed))
  {
    hide EncodeFrame, DecodeFrame;
    ghost var got, sent := listener.received, out.contents;
    ghost var all := ReadAll(conn.data);
    ghost var answered := 0;
    failed := 0;
    NoPongs();
    assert sent + [] == sent;
    while true
      invariant all.error == ReadAll(conn.data).error
      invariant got + all.payloads == listener.received + ReadAll(conn.data).payloads
      invariant all.pings == ReadAll(conn.data).pings + answered + failed
      invariant out.contents == sent + EncodeAll(Pongs(answered))
      decreases |conn.data|
    {
      ghost var data, received, written := conn.data, listener.received, out.contents;
      assert received + [] == received;
      var frame := ReadFrame(conn);
      if frame.Failure? {
        return frame.error, failed;
      }
      FrameReencode(data);
      if frame.value.opcode == OP_CLOSE {
        return RemoteClosed, failed;
      }
      if frame.value.opcode == OP_PING {
        var ok := WritePong(out);
        OneMorePong(answered);
        ConcatAssoc(sent, EncodeAll(Pongs(answered)), EncodeFrame(Frame(OP_PONG, [])));
        answered, failed := if ok then answered + 1 else answered, if ok then failed else failed + 1;
        assert written + [] == written;
        continue;
      }
      if frame.value.payload == [] {
        continue;
      }
      listener.Receive(frame.value.payload);
      ghost var more := ReadAll(conn.data).payloads;
      assert received + ([frame.value.payload] + more) == received + [frame.value.payload] + more;
    }
  }
}
