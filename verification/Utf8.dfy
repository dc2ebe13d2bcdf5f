/** UTF-8 validity of the strings in a protobuf message, following section 4 of RFC 3629. */
module Utf8 {
  import opened Bytes

  predicate Tail(x: byte) {
    0x80 <= x <= 0xBF
  }

  /** Length of the well-formed sequence at the front of `s`, or 0 when there is none. */
  function RuneLen(s: GoString): (n: nat)
    requires s != []
    ensures n <= |s|
  {
    var x := s[0];
    if x < 0x80 then 1
    else if 0xC2 <= x <= 0xDF then
      if |s| >= 2 && Tail(s[1]) then 2 else 0
    else if 0xE0 <= x <= 0xEF then
      if |s| >= 3
         && (if x == 0xE0 then 0xA0 else 0x80) <= s[1] <= (if x == 0xED then 0x9F else 0xBF)
         && Tail(s[2]) then 3 else 0
    else if 0xF0 <= x <= 0xF4 then
      if |s| >= 4
         && (if x == 0xF0 then 0x90 else 0x80) <= s[1] <= (if x == 0xF4 then 0x8F else 0xBF)
         && Tail(s[2]) && Tail(s[3]) then 4 else 0
    else 0
  }

  predicate Valid(s: GoString) {
    s == [] || (RuneLen(s) > 0 && Valid(s[RuneLen(s)..]))
  }

  /** Text after a complete text changes nothing in it. */
  lemma {:induction false} ValidConcat(a: GoString, b: GoString)
    requires Valid(a)
    ensures Valid(a + b) <==> Valid(b)
  {
    if a == [] {
      assert a + b == b;
    } else {
      var n := RuneLen(a);
      assert RuneLen(a + b) == n;
      assert (a + b)[n..] == a[n..] + b;
      ValidConcat(a[n..], b);
    }
  }

  /** An ASCII byte never lies inside a longer sequence, so it cuts a text into two texts. */
  lemma {:induction false} ValidAround(a: GoString, c: byte, b: GoString)
    requires c < 0x80
    ensures Valid(a + [c] + b) <==> Valid(a) && Valid(b)
  {
    var s := a + [c] + b;
    if a == [] {
      assert s == [c] + b;
      assert s[1..] == b;
    } else {
      var n := RuneLen(s);
      if 0 < n <= |a| {
        assert RuneLen(a) == n;
        assert s[n..] == a[n..] + [c] + b;
        ValidAround(a[n..], c, b);
      } else {
        assert s[|a|] == c;
        assert n == 0;
        assert RuneLen(a) == 0;
      }
    }
  }

  // ---- Validity, said of code points ---------------------------------------------------------

  /** A Unicode scalar value: a code point that is not a surrogate. */
  predicate Scalar(c: nat) {
    c < 0x11_0000 && !(0xD800 <= c < 0xE000)
  }

  /** The six bits of `c` that stand `shift` bits (a power of two) up, as a continuation byte. */
  function Bits(c: nat, shift: nat): byte
    requires shift > 0
  {
    0x80 + c / shift % 64
  }

  /** The bytes of a code point: as few as hold its bits, the number of them told by the first one. */
  function EncodeRune(c: nat): (b: bytes)
    requires Scalar(c)
    ensures b != []
  {
    if c < 0x80 then [c]
    else if c < 0x800 then [0xC0 + c / 64, Bits(c, 1)]
    else if c < 0x1_0000 then [0xE0 + c / 4096, Bits(c, 64), Bits(c, 1)]
    else [0xF0 + c / 262144, Bits(c, 4096), Bits(c, 64), Bits(c, 1)]
  }

  predicate Scalars(cs: seq<nat>) {
    forall i :: 0 <= i < |cs| ==> Scalar(cs[i])
  }

  function EncodeRunes(cs: seq<nat>): bytes
    requires Scalars(cs)
  {
    if cs == [] then [] else EncodeRune(cs[0]) + EncodeRunes(cs[1..])
  }

  /** The bytes of every scalar value are accepted, whole and at once. */
  lemma ScalarAccepted(c: nat, tail: bytes)
    requires Scalar(c)
    ensures RuneLen(EncodeRune(c) + tail) == |EncodeRune(c)|
  {
    var b := EncodeRune(c);
    var s := b + tail;
    assert forall i :: 0 <= i < |b| ==> s[i] == b[i];
  }

  /** A number put together from six-bit digits has these digits. */
  lemma SixBits(a: nat, b: nat, c: nat, d: nat)
    requires b < 64 && c < 64 && d < 64
    ensures var n := 64 * (64 * (64 * a + b) + c) + d;
            n / 262144 == a && n / 4096 == 64 * a + b && n / 4096 % 64 == b && n / 64 % 64 == c && n % 64 == d
  {
    var n := 64 * (64 * (64 * a + b) + c) + d;
    DivModUnique(n, 64, 64 * (64 * a + b) + c, d);
    DivModUnique(64 * (64 * a + b) + c, 64, 64 * a + b, c);
    DivModUnique(n, 4096, 64 * a + b, 64 * c + d);
    DivModUnique(n, 262144, a, 4096 * b + 64 * c + d);
    DivModUnique(64 * a + b, 64, a, b);
  }

  lemma TwoByteRune(x: byte, y: byte) returns (c: nat)
    requires 0xC2 <= x <= 0xDF && Tail(y)
    ensures Scalar(c) && EncodeRune(c) == [x, y]
  {
    var a: int, b: int := x, y;
    c := 64 * (a - 0xC0) + (b - 0x80);
    SixBits(0, 0, a - 0xC0, b - 0x80);
  }

  lemma ThreeByteRune(x: byte, y: byte, z: byte) returns (c: nat)
    requires 0xE0 <= x <= 0xEF && Tail(y) && Tail(z) && (x == 0xE0 ==> y >= 0xA0) && (x == 0xED ==> y <= 0x9F)
    ensures Scalar(c) && EncodeRune(c) == [x, y, z]
  {
    var a: int, b: int, d: int := x, y, z;
    c := 64 * (64 * (a - 0xE0) + (b - 0x80)) + (d - 0x80);
    SixBits(0, a - 0xE0, b - 0x80, d - 0x80);
  }

  lemma FourByteRune(x: byte, y: byte, z: byte, w: byte) returns (c: nat)
    requires 0xF0 <= x <= 0xF4 && Tail(y) && Tail(z) && Tail(w)
    requires (x == 0xF0 ==> y >= 0x90) && (x == 0xF4 ==> y <= 0x8F)
    ensures Scalar(c) && EncodeRune(c) == [x, y, z, w]
  {
    var a: int, b: int, d: int, e: int := x, y, z, w;
    c := 64 * (64 * (64 * (a - 0xF0) + (b - 0x80)) + (d - 0x80)) + (e - 0x80);
    SixBits(a - 0xF0, b - 0x80, d - 0x80, e - 0x80);
  }

  /** Whatever is accepted at the front is the bytes of a scalar value. */
  lemma AcceptedScalar(s: GoString) returns (c: nat)
    requires s != [] && RuneLen(s) > 0
    ensures Scalar(c) && EncodeRune(c) == s[..RuneLen(s)]
  {
    var n := RuneLen(s);
    if n == 1 {
      c := s[0];
    } else {
      hide EncodeRune, Scalar;
      if n == 2 {
        c := TwoByteRune(s[0], s[1]);
      } else if n == 3 {
        c := ThreeByteRune(s[0], s[1], s[2]);
      } else {
        c := FourByteRune(s[0], s[1], s[2], s[3]);
      }
    }
  }

  lemma {:induction false} ScalarsValid(cs: seq<nat>)
    requires Scalars(cs)
    ensures Valid(EncodeRunes(cs))
  {
    if cs != [] {
      var rest := EncodeRunes(cs[1..]);
      ScalarAccepted(cs[0], rest);
      ScalarsValid(cs[1..]);
      TakeDropConcat(EncodeRune(cs[0]), rest);
    }
  }

  lemma {:induction false} ValidScalars(s: GoString) returns (cs: seq<nat>)
    requires Valid(s)
    ensures Scalars(cs) && EncodeRunes(cs) == s
    decreases |s|
  {
    if s == [] {
      cs := [];
    } else {
      var c := AcceptedScalar(s);
      var rest := ValidScalars(s[RuneLen(s)..]);
      cs := [c] + rest;
      assert cs[1..] == rest;
    }
  }

  /** A string is valid if and only if it is the concatenated bytes of some scalar values. */
  lemma ValidExactly(s: GoString)
    ensures Valid(s) <==> exists cs :: Scalars(cs) && EncodeRunes(cs) == s
  {
    if Valid(s) {
      var cs := ValidScalars(s);
    }
    forall cs | Scalars(cs) && EncodeRunes(cs) == s
      ensures Valid(s)
    {
      ScalarsValid(cs);
    }
  }

  /** U+738B, the character written E7 8E 8B. */
  lemma ThreeByteExample()
    ensures EncodeRunes([0x738B]) == [0xE7, 0x8E, 0x8B] && Valid([0xE7, 0x8E, 0x8B])
  {
    assert [0x738B][1..] == [];
    ScalarsValid([0x738B]);
  }
}
