/** wxf/wire/endian/helper.go: big-endian integers and length-prefixed byte strings. */
module Endian {
  import opened Bytes

  // ---- Specification -------------------------------------------------------------------------

  function Pow256(w: nat): (p: nat)
    ensures p > 0
  {
    if w == 0 then 1 else 256 * Pow256(w - 1)
  }

  lemma Widths()
    ensures Pow256(1) == 0x100 && Pow256(2) == 0x1_0000 && Pow256(4) == TWO_32
  {
    assert Pow256(1) == 256 * Pow256(0);
    assert Pow256(2) == 256 * Pow256(1);
    assert Pow256(3) == 256 * Pow256(2);
  }

  /** The `w` big-endian bytes of `v`. */
  function PutUint(w: nat, v: nat): (b: bytes)
    requires v < Pow256(w)
    ensures |b| == w
  {
    if w == 0 then [] else PutUint(w - 1, v / 256) + [v % 256]
  }

  function Uint(b: bytes): nat {
    if b == [] then 0 else 256 * Uint(b[..|b| - 1]) + b[|b| - 1]
  }

  /** io.ReadFull on the remaining bytes `b`: EOF only when nothing at all was read. */
  function TakeFull(n: nat, b: bytes): Parsed<bytes> {
    if n <= |b| then Ok(b[..n], b[n..])
    else Err(if b == [] then EOF else UnexpectedEOF)
  }

  function TakeUint(w: nat, b: bytes): Parsed<nat> {
    match TakeFull(w, b)
    case Ok(raw, rest) => Ok(Uint(raw), rest)
    case Err(e) => Err(e)
  }

  /** A byte string behind a length field of `w` bytes: 4 in ReadBytes, 2 in ReadShortBytes. */
  function TakeBytes(w: nat, b: bytes): Parsed<bytes> {
    match TakeUint(w, b)
    case Ok(n, rest) => TakeFull(n, rest)
    case Err(e) => Err(e)
  }

  /** WriteBytes and WriteShortBytes: the length field is truncated to its width, the data is not. */
  function PutBytes(w: nat, data: bytes): bytes {
    PutUint(w, |data| % Pow256(w)) + data
  }

  // ---- Integers ------------------------------------------------------------------------------

  lemma {:induction false} UintRoundTrip(w: nat, v: nat)
    requires v < Pow256(w)
    ensures Uint(PutUint(w, v)) == v
  {
    if w == 0 {
    } else {
      UintRoundTrip(w - 1, v / 256);
      var b := PutUint(w, v);
      assert b[..|b| - 1] == PutUint(w - 1, v / 256);
    }
  }

  lemma DivDiv(v: nat, p: nat)
    requires p > 0
    ensures v / 256 / p == v / (256 * p)
  {
    var q, r := v / 256 / p, v / 256 % p;
    assert v / 256 == q * p + r;
    assert v == q * (256 * p) + (256 * r + v % 256);
    DivModUnique(v, 256 * p, q, 256 * r + v % 256);
  }

  /** Byte `i` is the digit of weight 256^(w-1-i): the most significant comes first. */
  lemma {:induction false} BigEndianDigits(w: nat, v: nat, i: nat)
    requires v < Pow256(w) && i < w
    ensures PutUint(w, v)[i] == v / Pow256(w - 1 - i) % 256
    decreases w
  {
    if i < w - 1 {
      BigEndianDigits(w - 1, v / 256, i);
      DivDiv(v, Pow256(w - 2 - i));
    }
  }

  lemma {:induction false} UintBound(b: bytes)
    ensures Uint(b) < Pow256(|b|)
  {
    if b == [] {
    } else {
      UintBound(b[..|b| - 1]);
    }
  }

  lemma {:induction false} PutUintOfUint(b: bytes)
    ensures Uint(b) < Pow256(|b|) && PutUint(|b|, Uint(b)) == b
  {
    UintBound(b);
    if b == [] {
    } else {
      var front := b[..|b| - 1];
      PutUintOfUint(front);
      assert Uint(b) / 256 == Uint(front) && Uint(b) % 256 == b[|b| - 1];
      assert b == front + [b[|b| - 1]];
    }
  }

  lemma TakeUintPut(w: nat, v: nat, tail: bytes)
    requires v < Pow256(w)
    ensures TakeUint(w, PutUint(w, v) + tail) == Ok(v, tail)
  {
    UintRoundTrip(w, v);
    TakeDropConcat(PutUint(w, v), tail);
  }

  // ---- Length-prefixed byte strings ----------------------------------------------------------

  /** What comes back in general: as many bytes as the truncated length field says. */
  lemma TakeBytesOfPut(w: nat, n: nat, data: bytes)
    requires n < Pow256(w)
    ensures TakeBytes(w, PutUint(w, n) + data) == TakeFull(n, data)
  {
    TakeUintPut(w, n, data);
  }

  /** Round trip with a tail, exactly when the length fits its field. */
  lemma BytesRoundTrip(w: nat, data: bytes, tail: bytes)
    ensures TakeBytes(w, PutBytes(w, data) + tail) == Ok(data, tail) <==> |data| < Pow256(w)
  {
    var n := |data| % Pow256(w);
    ConcatAssoc(PutUint(w, n), data, tail);
    TakeBytesOfPut(w, n, data + tail);
    TakeDropConcat(data, tail);
    if |data| < Pow256(w) {
      SmallMod(|data|, Pow256(w));
    }
  }

  /** More bytes behind the input change neither what is read nor what is consumed. */
  lemma TakeFullExtend(n: nat, b: bytes, t: bytes)
    requires n <= |b|
    ensures TakeFull(n, b + t) == Ok(b[..n], b[n..] + t)
  {
    assert (b + t)[..n] == b[..n] && (b + t)[n..] == b[n..] + t;
  }

  lemma TakeBytesExtend(w: nat, b: bytes, t: bytes)
    requires TakeBytes(w, b).Ok?
    ensures TakeBytes(w, b + t) == Ok(TakeBytes(w, b).value, TakeBytes(w, b).rest + t)
  {
    TakeFullExtend(w, b, t);
    TakeFullExtend(Uint(b[..w]), b[w..], t);
  }

  /** What was read is what the bytes consumed encode, and its length fits the field. */
  lemma BytesReencode(w: nat, b: bytes)
    requires TakeBytes(w, b).Ok?
    ensures var p := TakeBytes(w, b);
            |p.value| < Pow256(w) && PutBytes(w, p.value) + p.rest == b
  {
    hide PutUint, Uint, Pow256;
    var p := TakeBytes(w, b);
    PutUintOfUint(b[..w]);
    SmallMod(|p.value|, Pow256(w));
    assert b[w..] == p.value + p.rest;
    ConcatAssoc(b[..w], p.value, p.rest);
    assert b == b[..w] + b[w..];
  }

  lemma SmallMod(n: nat, m: nat)
    requires n < m
    ensures n % m == n
  {
  }

  /** Every strict prefix of an encoded byte string is rejected. */
  lemma BytesPrefixRejected(w: nat, data: bytes, k: nat)
    requires |data| < Pow256(w) && k < |PutBytes(w, data)|
    ensures TakeBytes(w, PutBytes(w, data)[..k]).Err?
  {
    var b := PutBytes(w, data);
    BytesRoundTrip(w, data, []);
    assert b + [] == b == b[..k] + b[k..];
    if TakeBytes(w, b[..k]).Ok? {
      TakeBytesExtend(w, b[..k], b[k..]);
    }
  }

  // ---- The reader and the buffer of the source -----------------------------------------------

  lemma SmallUint(n: byte)
    ensures n < Pow256(4) && PutUint(4, n) == [0, 0, 0, n]
  {
    Widths();
    assert PutUint(0, 0) == [];
    assert PutUint(1, 0) == [0];
    assert PutUint(2, 0) == [0, 0];
    assert PutUint(3, 0) == [0, 0, 0];
  }

  /** A short byte string: four bytes of length, most significant first, then the data. */
  lemma SmallBytes(data: bytes)
    requires |data| < 256
    ensures PutBytes(4, data) == [0, 0, 0, |data|] + data
  {
    hide PutUint;
    Widths();
    SmallUint(|data|);
  }

  /** An io.Reader over the bytes that are still to come. */
  class Reader {
    var data: bytes

    constructor (data: bytes)
      ensures this.data == data
    {
      this.data := data;
    }

    method ReadFull(n: nat) returns (r: Result<bytes>)
      modifies this
      ensures Follows(r, TakeFull(n, old(data)), data)
      ensures n <= |old(data)| ==> r.Success? && |r.value| == n && r.value + data == old(data)
      ensures n > |old(data)| ==> r == Failure(if old(data) == [] then EOF else UnexpectedEOF)
    {
      if n <= |data| {
        r := Success(data[..n]);
        data := data[n..];
      } else {
        r := Failure(if data == [] then EOF else UnexpectedEOF);
        data := [];
      }
    }

    method ReadUint(w: nat) returns (r: Result<nat>)
      modifies this
      ensures Follows(r, TakeUint(w, old(data)), data)
    {
      var raw := ReadFull(w);
      r := if raw.Success? then Success(Uint(raw.value)) else Failure(raw.error);
    }

    /** ReadBytes (w = 4) and ReadShortBytes (w = 2). */
    method ReadBytes(w: nat) returns (r: Result<bytes>)
      modifies this
      ensures Follows(r, TakeBytes(w, old(data)), data)
    {
      var n := ReadUint(w);
      if n.Failure? {
        return Failure(n.error);
      }
      r := ReadFull(n.value);
    }
  }

  /** A call that returned `r` and left `rest` behind did what the parse says. */
  ghost predicate Follows<T(!new)>(r: Result<T>, parse: Parsed<T>, rest: bytes) {
    match parse
    case Ok(v, after) => r == Success(v) && rest == after
    case Err(e) => r == Failure(e)
  }

  /** A bytes.Buffer: everything written so far. */
  class Buffer {
    var contents: bytes

    constructor ()
      ensures contents == []
    {
      contents := [];
    }

    method Write(b: bytes)
      modifies this
      ensures contents == old(contents) + b
    {
      contents := contents + b;
    }

    method WriteUint(w: nat, v: nat)
      requires v < Pow256(w)
      modifies this
      ensures contents == old(contents) + PutUint(w, v)
    {
      Write(PutUint(w, v));
    }

    /** WriteBytes (w = 4) and WriteShortBytes (w = 2). */
    method WriteBytes(w: nat, b: bytes)
      modifies this
      ensures contents == old(contents) + PutBytes(w, b)
    {
      WriteUint(w, |b| % Pow256(w));
      Write(b);
      assert contents == old(contents) + PutBytes(w, b);
    }
  }
}
