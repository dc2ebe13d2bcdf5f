/** Channel ids: `<service>_<account>_<sequence>` (wxf/services/gateway/serv/handler.go). */
module ChannelIds {
  import opened Bytes
  import opened Routing
  import Sequence
  import Utf8

  const UNDERSCORE: byte := 0x5F

  function Decimal(n: nat): GoString {
    if n < 10 then [0x30 + n] else Decimal(n / 10) + [0x30 + n % 10]
  }

  function ChannelId(service: GoString, account: GoString, n: nat): GoString {
    service + [UNDERSCORE] + account + [UNDERSCORE] + Decimal(n)
  }

  /** generateChannelID: one number is drawn from the counter. */
  method GenerateChannelId(seq0: Sequence.Counter, service: GoString, account: GoString) returns (id: GoString)
    modifies seq0
    ensures seq0.num == Sequence.NextValue(Sequence.MAX_UINT32, old(seq0.num))
    ensures id == ChannelId(service, account, seq0.num)
  {
    var n := seq0.Next();
    id := service + [UNDERSCORE] + account + [UNDERSCORE] + Decimal(n);
  }

  // ---- Decimal numbers -----------------------------------------------------------------------

  function Number(s: GoString): int {
    if s == [] then 0
    else
      var last: int := s[|s| - 1];
      10 * Number(s[..|s| - 1]) + (last - 0x30)
  }

  lemma {:induction false} DecimalRoundTrip(n: nat)
    ensures Number(Decimal(n)) == n
  {
    var d := Decimal(n);
    if n < 10 {
      assert d[..0] == [];
    } else {
      DecimalRoundTrip(n / 10);
      assert d[..|d| - 1] == Decimal(n / 10);
    }
  }

  lemma {:induction false} DecimalDigits(n: nat)
    ensures forall i :: 0 <= i < |Decimal(n)| ==> 0x30 <= Decimal(n)[i] <= 0x39
  {
    if n >= 10 {
      DecimalDigits(n / 10);
    }
  }

  lemma {:induction false} DigitsText(s: GoString)
    requires forall i :: 0 <= i < |s| ==> s[i] < 0x80
    ensures Utf8.Valid(s)
  {
    if s != [] {
      DigitsText(s[1..]);
    }
  }

  /** Service "gate", account "bob" and number 120 make "gate_bob_120". */
  lemma IdExample()
    ensures ChannelId([0x67, 0x61, 0x74, 0x65], [0x62, 0x6F, 0x62], 120)
         == [0x67, 0x61, 0x74, 0x65, 0x5F, 0x62, 0x6F, 0x62, 0x5F, 0x31, 0x32, 0x30]
  {
    assert Decimal(1) == [0x31];
    assert Decimal(12) == Decimal(1) + [0x32];
    assert Decimal(120) == Decimal(12) + [0x30];
  }

  // ---- Uniqueness ----------------------------------------------------------------------------

  lemma NothingBehind(a: GoString, x: GoString)
    requires UNDERSCORE !in x
    ensures var s := a + [UNDERSCORE] + x;
            s[|a|] == UNDERSCORE && forall k :: |a| < k < |s| ==> s[k] != UNDERSCORE
  {
    var s := a + [UNDERSCORE] + x;
    forall k | |a| < k < |s|
      ensures s[k] != UNDERSCORE
    {
      assert s[k] == x[k - |a| - 1];
    }
  }

  /** The last underscore of an id is the one before the number. */
  lemma LastUnderscore(a: GoString, x: GoString, b: GoString, y: GoString)
    requires UNDERSCORE !in x && UNDERSCORE !in y
    requires a + [UNDERSCORE] + x == b + [UNDERSCORE] + y
    ensures a == b && x == y
  {
    var s, t := a + [UNDERSCORE] + x, b + [UNDERSCORE] + y;
    NothingBehind(a, x);
    NothingBehind(b, y);
    assert |a| == |b|;
    assert s[..|a|] == a && t[..|b|] == b;
    assert s[|a| + 1..] == x && t[|b| + 1..] == y;
  }

  /** Ids are equal exactly when the numbers are and the texts before them are. */
  lemma IdEquality(s: GoString, a: GoString, n: nat, t: GoString, b: GoString, m: nat)
    ensures ChannelId(s, a, n) == ChannelId(t, b, m)
       <==> n == m && s + [UNDERSCORE] + a == t + [UNDERSCORE] + b
  {
    DecimalDigits(n);
    DecimalDigits(m);
    DecimalRoundTrip(n);
    DecimalRoundTrip(m);
    if ChannelId(s, a, n) == ChannelId(t, b, m) {
      LastUnderscore(s + [UNDERSCORE] + a, Decimal(n), t + [UNDERSCORE] + b, Decimal(m));
    }
  }

  /** One service never repeats an id for another account or number, whatever the accounts contain. */
  lemma IdInjective(s: GoString, a: GoString, n: nat, b: GoString, m: nat)
    ensures ChannelId(s, a, n) == ChannelId(s, b, m) <==> a == b && n == m
  {
    IdEquality(s, a, n, s, b, m);
    if s + [UNDERSCORE] + a == s + [UNDERSCORE] + b {
      assert (s + [UNDERSCORE] + a)[|s| + 1..] == a && (s + [UNDERSCORE] + b)[|s| + 1..] == b;
    }
  }

  /** Two services can: "a_b" with account "c" and "a" with account "b_c". */
  lemma ServicesCollide(n: nat)
    ensures ChannelId([0x61, UNDERSCORE, 0x62], [0x63], n) == ChannelId([0x61], [0x62, UNDERSCORE, 0x63], n)
  {
    IdEquality([0x61, UNDERSCORE, 0x62], [0x63], n, [0x61], [0x62, UNDERSCORE, 0x63], n);
  }

  /**
   * In every interleaving of callers of the counter, the ids made from fewer than max results in a
   * row are pairwise different.
   */
  lemma IdsInWindowDistinct(max: nat, first: nat, steps: seq<Sequence.Step>,
                            service: GoString, a: GoString, i: nat, b: GoString, j: nat)
    requires max >= 2 && first < max
    requires i < j < |Sequence.Run(max, Sequence.Start(first), steps).returned| && j - i < max - 1
    ensures var r := Sequence.Run(max, Sequence.Start(first), steps).returned;
            ChannelId(service, a, r[i]) != ChannelId(service, b, r[j])
  {
    var r := Sequence.Run(max, Sequence.Start(first), steps).returned;
    Sequence.DistinctWindow(max, first, steps);
    IdInjective(service, a, r[i], b, r[j]);
  }

  // ---- Ids on the wire -----------------------------------------------------------------------

  /** An id can be put in a comma-separated list exactly when service and account have no comma. */
  lemma IdCommaFree(service: GoString, account: GoString, n: nat)
    ensures CommaFree(ChannelId(service, account, n)) <==> CommaFree(service) && CommaFree(account)
  {
    DecimalDigits(n);
    var id := ChannelId(service, account, n);
    if COMMA in service {
      var i :| 0 <= i < |service| && service[i] == COMMA;
      assert id[i] == COMMA;
    }
    if COMMA in account {
      var i :| 0 <= i < |account| && account[i] == COMMA;
      assert id[|service| + 1 + i] == COMMA;
    }
  }

  lemma IdText(service: GoString, account: GoString, n: nat)
    ensures Utf8.Valid(ChannelId(service, account, n)) <==> Utf8.Valid(service) && Utf8.Valid(account)
  {
    hide Utf8.Valid;
    DecimalDigits(n);
    DigitsText(Decimal(n));
    Utf8.ValidAround(service + [UNDERSCORE] + account, UNDERSCORE, Decimal(n));
    Utf8.ValidAround(service, UNDERSCORE, account);
  }
}
