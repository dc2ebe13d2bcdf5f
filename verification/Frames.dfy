/** wxf/tcp/connection.go: frames of an opcode byte and a length-prefixed payload. */
module Frames {
  import opened Bytes
  import opened Endian

  const OP_BINARY: byte := 0x2
  const OP_CLOSE: byte := 0x8
  const OP_PING: byte := 0x9
  const OP_PONG: byte := 0xa

  datatype Frame = Frame(opcode: byte, payload: bytes)

  function EncodeFrame(f: Frame): bytes {
    [f.opcode] + PutBytes(4, f.payload)
  }

  function DecodeFrame(b: bytes): Parsed<Frame> {
    match TakeFull(1, b)
    case Err(e) => Err(e)
    case Ok(op, rest) =>
      match TakeBytes(4, rest)
      case Err(e) => Err(e)
      case Ok(payload, after) => Ok(Frame(op[0], payload), after)
  }

  predicate Sized(f: Frame) {
    |f.payload| < TWO_32
  }

  /** A frame comes back with any tail behind it, exactly when its length fits the field. */
  lemma FrameRoundTrip(f: Frame, tail: bytes)
    ensures DecodeFrame(EncodeFrame(f) + tail) == Ok(f, tail) <==> Sized(f)
  {
    hide TakeBytes, PutBytes;
    Widths();
    BytesRoundTrip(4, f.payload, tail);
    assert EncodeFrame(f) + tail == [f.opcode] + (PutBytes(4, f.payload) + tail);
    TakeDropConcat([f.opcode], PutBytes(4, f.payload) + tail);
  }

  /** Reference bytes: "hi" in a binary frame, and the empty frames for close, ping and pong. */
  lemma FrameBytes()
    ensures EncodeFrame(Frame(OP_BINARY, [0x68, 0x69])) == [0x02, 0, 0, 0, 2, 0x68, 0x69]
    ensures EncodeFrame(Frame(OP_CLOSE, [])) == [0x08, 0, 0, 0, 0]
    ensures EncodeFrame(Frame(OP_PING, [])) == [0x09, 0, 0, 0, 0]
    ensures EncodeFrame(Frame(OP_PONG, [])) == [0x0a, 0, 0, 0, 0]
  {
    hide PutBytes;
    SmallBytes([0x68, 0x69]);
    SmallBytes([]);
  }

  lemma FrameExtend(b: bytes, t: bytes)
    requires DecodeFrame(b).Ok?
    ensures DecodeFrame(b + t) == Ok(DecodeFrame(b).value, DecodeFrame(b).rest + t)
  {
    hide TakeBytes;
    TakeFullExtend(1, b, t);
    TakeBytesExtend(4, b[1..], t);
  }

  /** Writing a frame that was read reproduces the bytes it was read from. */
  lemma FrameReencode(b: bytes)
    requires DecodeFrame(b).Ok?
    ensures var d := DecodeFrame(b);
            Sized(d.value) && EncodeFrame(d.value) + d.rest == b && |d.rest| < |b|
  {
    hide TakeBytes, PutBytes, Pow256;
    Widths();
    BytesReencode(4, b[1..]);
    var d := DecodeFrame(b);
    assert b == [b[0]] + b[1..];
    assert [b[0]] + PutBytes(4, d.value.payload) + d.rest == [b[0]] + (PutBytes(4, d.value.payload) + d.rest);
  }

  lemma FramePrefixRejected(f: Frame, k: nat)
    requires Sized(f) && k < |EncodeFrame(f)|
    ensures DecodeFrame(EncodeFrame(f)[..k]).Err?
  {
    hide EncodeFrame, DecodeFrame;
    var b := EncodeFrame(f);
    FrameRoundTrip(f, []);
    assert b + [] == b == b[..k] + b[k..];
    if DecodeFrame(b[..k]).Ok? {
      FrameExtend(b[..k], b[k..]);
    }
  }

  // ---- Streams of frames ---------------------------------------------------------------------

  function EncodeAll(fs: seq<Frame>): bytes {
    if fs == [] then [] else EncodeFrame(fs[0]) + EncodeAll(fs[1..])
  }

  /** The frames that can be read before the first error, and what is left then. */
  function DecodeAll(b: bytes): (seq<Frame>, bytes)
    decreases |b|
  {
    match DecodeFrame(b)
    case Err(_) => ([], b)
    case Ok(f, rest) =>
      FrameReencode(b);
      var more := DecodeAll(rest);
      ([f] + more.0, more.1)
  }

  /** The stream ends inside a frame, or between two. */
  ghost predicate Partial(b: bytes) {
    exists f, k: nat :: Sized(f) && k < |EncodeFrame(f)| && b == EncodeFrame(f)[..k]
  }

  /** A cut-off stream of frames is read back frame by frame up to the cut. */
  lemma {:induction false} StreamRoundTrip(fs: seq<Frame>, cut: bytes)
    requires forall i :: 0 <= i < |fs| ==> Sized(fs[i])
    requires DecodeFrame(cut).Err?
    ensures DecodeAll(EncodeAll(fs) + cut) == (fs, cut)
    decreases |fs|
  {
    hide EncodeFrame, DecodeFrame;
    if fs == [] {
      assert EncodeAll(fs) + cut == cut;
    } else {
      ConcatAssoc(EncodeFrame(fs[0]), EncodeAll(fs[1..]), cut);
      FrameRoundTrip(fs[0], EncodeAll(fs[1..]) + cut);
      StreamRoundTrip(fs[1..], cut);
      assert fs == [fs[0]] + fs[1..];
    }
  }

  lemma EmptyRejected()
    ensures DecodeFrame([]).Err?
  {
  }

  /** A stream of frames splits in exactly one way. */
  lemma StreamUnique(fs: seq<Frame>, gs: seq<Frame>, s: bytes, t: bytes)
    requires forall i :: 0 <= i < |fs| ==> Sized(fs[i])
    requires forall i :: 0 <= i < |gs| ==> Sized(gs[i])
    requires Partial(s) && Partial(t)
    requires EncodeAll(fs) + s == EncodeAll(gs) + t
    ensures fs == gs && s == t
  {
    PartialRejected(s);
    PartialRejected(t);
    StreamRoundTrip(fs, s);
    StreamRoundTrip(gs, t);
  }

  lemma PartialRejected(b: bytes)
    requires Partial(b)
    ensures DecodeFrame(b).Err?
  {
    hide EncodeFrame, DecodeFrame;
    var f, k: nat :| Sized(f) && k < |EncodeFrame(f)| && b == EncodeFrame(f)[..k];
    FramePrefixRejected(f, k);
  }

  /** Conversely, on any bytes the frames read account for everything before the rest. */
  lemma {:induction false} StreamReencode(b: bytes)
    ensures var d := DecodeAll(b);
            && EncodeAll(d.0) + d.1 == b
            && DecodeFrame(d.1).Err?
            && forall i :: 0 <= i < |d.0| ==> Sized(d.0[i])
    decreases |b|
  {
    hide EncodeFrame, DecodeFrame;
    match DecodeFrame(b)
    case Err(_) =>
      assert [] + b == b;
    case Ok(f, rest) =>
      FrameReencode(b);
      StreamReencode(rest);
      var more := DecodeAll(rest);
      var all := [f] + more.0;
      assert all[1..] == more.0;
      ConcatAssoc(EncodeFrame(f), EncodeAll(more.0), more.1);
  }
}
