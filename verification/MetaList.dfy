/**
 * The ordered meta list of a logic packet (wxf/wire/pkt/packet.go): first-match lookup, append, and
 * the deletion loop that shifts the slice it is ranging over.
 */
module MetaList {
  import opened Bytes
  import opened HeaderCodec

  /** What FindMeta returns: strconv's reading of an int or float entry is left as its text. */
  datatype MetaValue = IntValue(text: GoString) | FloatValue(text: GoString) | StringValue(text: GoString)

  function Interpret(m: Meta): MetaValue {
    if m.kind == KIND_INT then IntValue(m.value)
    else if m.kind == KIND_FLOAT then FloatValue(m.value)
    else StringValue(m.value)
  }

  predicate Numeric(m: Meta) {
    m.kind == KIND_INT || m.kind == KIND_FLOAT
  }

  function FindMeta(ms: seq<Meta>, key: GoString): Option<MetaValue> {
    if ms == [] then None
    else if ms[0].key == key then Some(Interpret(ms[0]))
    else FindMeta(ms[1..], key)
  }

  function StringMeta(key: GoString, value: GoString): Meta {
    Meta(key, value, KIND_STRING, [])
  }

  predicate HasKey(ms: seq<Meta>, key: GoString) {
    exists i :: 0 <= i < |ms| && ms[i].key == key
  }

  // ---- The deletion loop ---------------------------------------------------------------------

  /** One iteration at `i`: the backing array and the length of the slice over it. */
  function DelStep(b: seq<Meta>, len: nat, i: nat, key: GoString): (r: (seq<Meta>, nat))
    requires i < |b| && |b| - i <= len <= |b|
    ensures |r.0| == |b| && |b| - (i + 1) <= r.1 <= |b|
  {
    if b[i].key != key then (b, len)
    else (if i < len - 1 then b[..i] + b[i + 1..len] + b[len - 1..] else b, len - 1)
  }

  /** The iterations from `i` on; the range is over the length the slice had at the start. */
  function DelRun(b: seq<Meta>, len: nat, i: nat, key: GoString): seq<Meta>
    requires i <= |b| && |b| - i <= len <= |b|
    decreases |b| - i
  {
    if i == |b| then b[..len]
    else
      var next := DelStep(b, len, i, key);
      DelRun(next.0, next.1, i + 1, key)
  }

  function DelMeta(ms: seq<Meta>, key: GoString): seq<Meta> {
    DelRun(ms, |ms|, 0, key)
  }

  /** What a caller wants from a deletion. */
  function Without(ms: seq<Meta>, key: GoString): seq<Meta> {
    if ms == [] then []
    else if ms[0].key == key then Without(ms[1..], key)
    else [ms[0]] + Without(ms[1..], key)
  }

  function OtherKey(key: GoString): Meta -> bool {
    (m: Meta) => m.key != key
  }

  /** All entries with another key stay, in their order, and no others. */
  lemma {:induction false} WithoutFilters(ms: seq<Meta>, key: GoString)
    ensures Without(ms, key) == Filter(ms, OtherKey(key))
  {
    if ms != [] {
      WithoutFilters(ms[1..], key);
    }
  }

  // ---- Closed form of the loop ---------------------------------------------------------------

  /** A pass that drops each entry it finds and never looks at the entry that moves into its place. */
  function Pass(ms: seq<Meta>, key: GoString): (r: seq<Meta>)
    ensures |r| <= |ms| <= 2 * |r| + 1
  {
    if ms == [] then []
    else if ms[0].key != key then [ms[0]] + Pass(ms[1..], key)
    else if |ms| == 1 then []
    else [ms[1]] + Pass(ms[2..], key)
  }

  /** Number of entries with the key at the very end. */
  function Trailing(ms: seq<Meta>, key: GoString): (t: nat)
    ensures t <= |ms|
    ensures forall i :: |ms| - t <= i < |ms| ==> ms[i].key == key
    ensures t < |ms| ==> ms[|ms| - t - 1].key != key
  {
    if ms != [] && ms[|ms| - 1].key == key then Trailing(ms[..|ms| - 1], key) + 1 else 0
  }

  /** If entries with the key end the list, each stale copy of one cuts one more entry off. */
  function Outcome(kept: seq<Meta>, dropped: nat, trailing: bool): seq<Meta>
    requires dropped <= |kept|
  {
    if trailing then kept[..|kept| - dropped] else kept
  }

  lemma {:induction false} RunAllMatch(b: seq<Meta>, len: nat, i: nat, key: GoString)
    requires i <= |b| && |b| - i <= len <= |b|
    requires len - (|b| - i) <= i
    requires forall j :: i <= j < |b| ==> b[j].key == key
    ensures DelRun(b, len, i, key) == b[..len - (|b| - i)]
    decreases |b| - i
  {
    if i < |b| {
      var next := DelStep(b, len, i, key);
      var n := len - (|b| - i);
      RunAllMatch(next.0, next.1, i + 1, key);
      assert next.0[..n] == b[..n];
    }
  }

  lemma {:induction false} RunNoMatch(b: seq<Meta>, len: nat, i: nat, key: GoString)
    requires i <= |b| && |b| - i <= len <= |b|
    requires forall j :: i <= j < |b| ==> b[j].key != key
    ensures DelRun(b, len, i, key) == b[..len]
    decreases |b| - i
  {
    if i < |b| {
      RunNoMatch(b, len, i + 1, key);
    }
  }

  /** An entry with the key that is not the last live one: everything live behind it moves up. */
  lemma StepShift(done: seq<Meta>, x: Meta, live: seq<Meta>, stale: seq<Meta>, key: GoString)
    requires live != [] && x.key == key && |stale| <= |done|
    ensures DelStep(done + [x] + live + stale, |done| + 1 + |live|, |done|, key)
         == (done + live + [live[|live| - 1]] + stale, |done| + |live|)
  {
    var b, len := done + [x] + live + stale, |done| + 1 + |live|;
    assert b[|done|] == x;
    assert b[..|done|] == done;
    assert b[|done| + 1..len] == live;
    assert b[len - 1..] == [live[|live| - 1]] + stale;
    assert done + live + ([live[|live| - 1]] + stale) == done + live + [live[|live| - 1]] + stale;
  }

  lemma StepPast(done: seq<Meta>, x: Meta, rest: seq<Meta>, len: nat, key: GoString)
    requires x.key != key && |rest| + 1 <= len <= |done| + 1 + |rest|
    ensures DelRun(done + [x] + rest, len, |done|, key) == DelRun(done + [x] + rest, len, |done| + 1, key)
  {
    assert (done + [x] + rest)[|done|] == x;
  }

  lemma StepTake(done: seq<Meta>, x: Meta, live: seq<Meta>, stale: seq<Meta>, key: GoString)
    requires live != [] && x.key == key && |stale| <= |done|
    ensures DelRun(done + [x] + live + stale, |done| + 1 + |live|, |done|, key)
         == DelRun(done + live + ([live[|live| - 1]] + stale), |done| + |live|, |done| + 1, key)
  {
    hide DelStep;
    StepShift(done, x, live, stale, key);
    assert done + live + [live[|live| - 1]] + stale == done + live + ([live[|live| - 1]] + stale);
  }

  /** Either every entry has the key or none has. */
  ghost predicate Uniform(ms: seq<Meta>, key: GoString, hit: bool) {
    forall j :: 0 <= j < |ms| ==> (ms[j].key == key <==> hit)
  }

  /** The entry a shift leaves behind is the last live one. */
  lemma StaleGrows(todo: seq<Meta>, tail: seq<Meta>, stale: seq<Meta>, key: GoString)
    requires todo != [] && todo[|todo| - 1].key != key
    requires Uniform(tail, key, true) && Uniform(stale, key, tail != [])
    ensures var live := todo + tail;
            Uniform([live[|live| - 1]] + stale, key, tail != [])
  {
  }

  /**
   * The rest of the loop from a state in the middle: `done` is settled, `todo` is still to be read,
   * and behind it come the live `tail` and the stale entries.
   */
  ghost function Resume(done: seq<Meta>, todo: seq<Meta>, tail: seq<Meta>, stale: seq<Meta>, key: GoString): seq<Meta>
    requires |stale| <= |done|
  {
    DelRun(done + todo + tail + stale, |done| + |todo| + |tail|, |done|, key)
  }

  lemma ResumeEnd(done: seq<Meta>, tail: seq<Meta>, stale: seq<Meta>, key: GoString)
    requires |stale| <= |done|
    requires Uniform(tail, key, true) && Uniform(stale, key, tail != [])
    ensures Resume(done, [], tail, stale, key) == Outcome(done, |stale|, tail != [])
  {
    hide DelRun;
    var b, len := done + [] + tail + stale, |done| + |tail|;
    if tail != [] {
      RunAllMatch(b, len, |done|, key);
      assert b[..|done| - |stale|] == done[..|done| - |stale|];
    } else {
      RunNoMatch(b, len, |done|, key);
      assert b[..len] == done;
    }
  }

  lemma ResumeKeep(done: seq<Meta>, todo: seq<Meta>, tail: seq<Meta>, stale: seq<Meta>, key: GoString)
    requires |stale| <= |done| && todo != [] && todo[0].key != key
    ensures Resume(done, todo, tail, stale, key) == Resume(done + [todo[0]], todo[1..], tail, stale, key)
  {
    hide DelRun;
    var rest := todo[1..] + tail + stale;
    StepPast(done, todo[0], rest, |done| + |todo| + |tail|, key);
    assert done + [todo[0]] + rest == done + todo + tail + stale;
    assert done + [todo[0]] + rest == done + [todo[0]] + todo[1..] + tail + stale;
  }

  lemma ResumeDrop(done: seq<Meta>, todo: seq<Meta>, tail: seq<Meta>, stale: seq<Meta>, key: GoString)
    requires |stale| <= |done| && |todo| > 1 && todo[0].key == key
    ensures var live := todo[1..] + tail;
            (Resume(done, todo, tail, stale, key)
             == Resume(done + [todo[1]], todo[2..], tail, [live[|live| - 1]] + stale, key))
  {
    hide DelRun;
    var live := todo[1..] + tail;
    var stale' := [live[|live| - 1]] + stale;
    StepTake(done, todo[0], live, stale, key);
    assert done + [todo[0]] + live + stale == done + todo + tail + stale;
    assert done + live + stale' == done + [todo[1]] + todo[2..] + tail + stale';
  }

  lemma PassUnfold(ms: seq<Meta>, key: GoString)
    ensures Pass(ms, key)
         == if ms == [] then []
            else if ms[0].key != key then [ms[0]] + Pass(ms[1..], key)
            else if |ms| == 1 then []
            else [ms[1]] + Pass(ms[2..], key)
  {
  }

  /** The stale entries either all have the key, when the list ends with it, or none has. */
  lemma {:induction false} RunState(done: seq<Meta>, todo: seq<Meta>, tail: seq<Meta>, stale: seq<Meta>, key: GoString)
    requires |stale| <= |done|
    requires todo != [] ==> todo[|todo| - 1].key != key
    requires Uniform(tail, key, true) && Uniform(stale, key, tail != [])
    ensures var kept := Pass(todo, key);
            var dropped := |stale| + (|todo| - |kept|);
            && dropped <= |done| + |kept|
            && Resume(done, todo, tail, stale, key) == Outcome(done + kept, dropped, tail != [])
    decreases |todo|
  {
    hide Resume, Outcome, Uniform, Pass;
    PassUnfold(todo, key);
    if todo == [] {
      ResumeEnd(done, tail, stale, key);
      assert done + [] == done;
    } else if todo[0].key != key {
      ResumeKeep(done, todo, tail, stale, key);
      RunState(done + [todo[0]], todo[1..], tail, stale, key);
      ConcatAssoc(done, [todo[0]], Pass(todo[1..], key));
    } else {
      var live := todo[1..] + tail;
      ResumeDrop(done, todo, tail, stale, key);
      StaleGrows(todo[1..], tail, stale, key);
      RunState(done + [todo[1]], todo[2..], tail, [live[|live| - 1]] + stale, key);
      ConcatAssoc(done, [todo[1]], Pass(todo[2..], key));
    }
  }

  /** The result of the loop on every list, duplicates included. */
  lemma DelMetaClosedForm(ms: seq<Meta>, key: GoString)
    ensures var t := Trailing(ms, key);
            var front := ms[..|ms| - t];
            var kept := Pass(front, key);
            && |front| - |kept| <= |kept|
            && DelMeta(ms, key) == Outcome(kept, |front| - |kept|, t > 0)
  {
    hide DelRun, Pass, Outcome, Trailing;
    var t := Trailing(ms, key);
    var front, tail := ms[..|ms| - t], ms[|ms| - t..];
    RunState([], front, tail, [], key);
    assert [] + front + tail + [] == ms;
    assert [] + Pass(front, key) == Pass(front, key);
  }

  // ---- When the loop deletes exactly the entries with the key --------------------------------

  predicate Matches(ms: seq<Meta>, i: int, key: GoString) {
    0 <= i < |ms| && ms[i].key == key
  }

  /** All entries with the key stand together at the end. */
  ghost predicate OnlyTrailing(ms: seq<Meta>, key: GoString) {
    forall i, j :: Matches(ms, i, key) && i < j < |ms| ==> Matches(ms, j, key)
  }

  /** Every entry with the key has an entry without it right behind. */
  ghost predicate Isolated(ms: seq<Meta>, key: GoString) {
    forall i :: Matches(ms, i, key) ==> i + 1 < |ms| && !Matches(ms, i + 1, key)
  }

  ghost predicate AtMostOnce(ms: seq<Meta>, key: GoString) {
    forall i, j :: Matches(ms, i, key) && Matches(ms, j, key) ==> i == j
  }

  lemma {:induction false} WithoutNone(ms: seq<Meta>, key: GoString)
    ensures !HasKey(Without(ms, key), key)
    ensures !HasKey(ms, key) ==> Without(ms, key) == ms
    ensures |Without(ms, key)| <= |ms|
  {
    if ms != [] {
      WithoutNone(ms[1..], key);
      if !HasKey(ms, key) {
        assert forall i :: 0 <= i < |ms| - 1 ==> ms[1..][i] == ms[i + 1];
      }
    }
  }

  lemma {:induction false} WithoutConcat(a: seq<Meta>, b: seq<Meta>, key: GoString)
    ensures Without(a + b, key) == Without(a, key) + Without(b, key)
  {
    if a == [] {
      assert a + b == b;
    } else {
      assert (a + b)[1..] == a[1..] + b;
      WithoutConcat(a[1..], b, key);
    }
  }

  lemma {:induction false} WithoutAll(ms: seq<Meta>, key: GoString)
    requires forall i :: 0 <= i < |ms| ==> ms[i].key == key
    ensures Without(ms, key) == []
  {
    if ms != [] { WithoutAll(ms[1..], key); }
  }

  /** A pass drops nothing but entries with the key. */
  lemma {:induction false} PassKeepsOthers(ms: seq<Meta>, key: GoString)
    ensures Without(Pass(ms, key), key) == Without(ms, key)
    decreases |ms|
  {
    if ms == [] {
    } else if ms[0].key != key {
      PassKeepsOthers(ms[1..], key);
      WithoutConcat([ms[0]], Pass(ms[1..], key), key);
      WithoutConcat([ms[0]], ms[1..], key);
      assert ms == [ms[0]] + ms[1..];
    } else if |ms| > 1 {
      PassKeepsOthers(ms[2..], key);
      WithoutConcat([ms[1]], Pass(ms[2..], key), key);
      WithoutConcat([ms[1]], ms[2..], key);
      assert ms[1..] == [ms[1]] + ms[2..];
    }
  }

  lemma {:induction false} PassKeepsLast(ms: seq<Meta>, key: GoString)
    requires ms != [] && ms[|ms| - 1].key != key
    ensures Pass(ms, key) != [] && Pass(ms, key)[|Pass(ms, key)| - 1] == ms[|ms| - 1]
    decreases |ms|
  {
    if ms[0].key != key {
      if |ms| > 1 { PassKeepsLast(ms[1..], key); }
    } else if |ms| > 2 {
      PassKeepsLast(ms[2..], key);
    }
  }

  lemma IsolatedTail(ms: seq<Meta>, n: nat, key: GoString)
    requires (n == 1 && ms != [] && ms[0].key != key)
          || (n == 2 && |ms| > 1 && ms[0].key == key && ms[1].key != key)
    ensures Isolated(ms, key) <==> Isolated(ms[n..], key)
  {
    if Isolated(ms, key) {
      forall i | Matches(ms[n..], i, key)
        ensures i + 1 < |ms[n..]| && !Matches(ms[n..], i + 1, key)
      {
        assert Matches(ms, i + n, key);
        assert Matches(ms[n..], i + 1, key) <==> Matches(ms, i + n + 1, key);
      }
    }
    if Isolated(ms[n..], key) {
      forall i | Matches(ms, i, key)
        ensures i + 1 < |ms| && !Matches(ms, i + 1, key)
      {
        assert i >= n ==> Matches(ms[n..], i - n, key);
        assert i >= n ==> (Matches(ms[n..], i - n + 1, key) <==> Matches(ms, i + 1, key));
      }
    }
  }

  /** On a list that does not end with the key, a pass is exact when no two hits are adjacent. */
  lemma {:induction false} PassExact(ms: seq<Meta>, key: GoString)
    requires ms != [] ==> ms[|ms| - 1].key != key
    ensures Pass(ms, key) == Without(ms, key) <==> Isolated(ms, key)
    decreases |ms|
  {
    if ms == [] {
    } else if ms[0].key != key {
      PassExact(ms[1..], key);
      IsolatedTail(ms, 1, key);
      assert Pass(ms, key)[1..] == Pass(ms[1..], key) && Without(ms, key)[1..] == Without(ms[1..], key);
    } else {
      assert ms[1..][0] == ms[1] && ms[1..][1..] == ms[2..];
      PassExact(ms[2..], key);
      if ms[1].key == key {
        assert Matches(ms, 0, key) && Matches(ms, 1, key);
        WithoutNone(ms, key);
        assert Pass(ms, key)[0].key == key;
      } else {
        IsolatedTail(ms, 2, key);
        assert Pass(ms, key)[1..] == Pass(ms[2..], key) && Without(ms, key)[1..] == Without(ms[2..], key);
      }
    }
  }

  /** Nothing dropped means nothing to drop. */
  lemma {:induction false} PassAll(ms: seq<Meta>, key: GoString)
    ensures |Pass(ms, key)| == |ms| <==> !HasKey(ms, key)
    ensures !HasKey(ms, key) ==> Pass(ms, key) == ms
    decreases |ms|
  {
    if ms == [] {
    } else if ms[0].key != key {
      PassAll(ms[1..], key);
      assert forall i :: 0 < i < |ms| ==> ms[i] == ms[1..][i - 1];
    }
  }

  /** Cutting the last entries off a list that ends without the key loses one that should stay. */
  lemma CutLoses(kept: seq<Meta>, n: nat, key: GoString)
    requires n < |kept| && kept[|kept| - 1].key != key
    ensures |Without(kept[..n], key)| < |Without(kept, key)|
  {
    var last := kept[|kept| - 1];
    assert kept == kept[..n] + kept[n..|kept| - 1] + [last];
    WithoutConcat(kept[..n], kept[n..|kept| - 1], key);
    WithoutConcat(kept[..|kept| - 1], [last], key);
    assert kept[..|kept| - 1] == kept[..n] + kept[n..|kept| - 1];
    assert Without([last], key) == [last];
  }

  /** A list that does not end with the key has only trailing entries with it when it has none. */
  lemma TrailingNone(ms: seq<Meta>, key: GoString)
    requires ms != [] ==> ms[|ms| - 1].key != key
    ensures OnlyTrailing(ms, key) ==> Isolated(ms, key)
  {
    forall i | Matches(ms, i, key)
      ensures !OnlyTrailing(ms, key)
    {
      assert i < |ms| - 1 && !Matches(ms, |ms| - 1, key);
    }
  }

  /** With the key both at the end and before, an entry is lost or one with the key stays. */
  lemma CutIsInexact(front: seq<Meta>, key: GoString)
    requires HasKey(front, key) && front[|front| - 1].key != key
    requires |front| <= 2 * |Pass(front, key)|
    ensures var kept := Pass(front, key);
            kept[..|kept| - (|front| - |kept|)] != Without(front, key)
  {
    hide Pass, Without, HasKey;
    var kept := Pass(front, key);
    var n := |kept| - (|front| - |kept|);
    PassAll(front, key);
    PassKeepsOthers(front, key);
    PassKeepsLast(front, key);
    CutLoses(kept, n, key);
    WithoutNone(front, key);
    WithoutNone(kept[..n], key);
  }

  /** A list that ends with the key: exact if and only if the key stands nowhere else. */
  lemma DelMetaExactAtEnd(front: seq<Meta>, tail: seq<Meta>, key: GoString)
    requires tail != [] && Trailing(front + tail, key) == |tail|
    ensures DelMeta(front + tail, key) == Without(front + tail, key) <==> !HasKey(front, key)
  {
    hide DelMeta, Pass, Trailing, Without, HasKey;
    var ms := front + tail;
    assert ms[..|ms| - |tail|] == front && ms[|ms| - |tail|..] == tail;
    DelMetaClosedForm(ms, key);
    WithoutConcat(front, tail, key);
    WithoutAll(tail, key);
    assert Without(ms, key) == Without(front, key);
    if HasKey(front, key) {
      HasKeyNonempty(front, key);
      assert ms[|front| - 1] == front[|front| - 1];
      CutIsInexact(front, key);
    } else {
      WithoutNone(front, key);
      PassAll(front, key);
      assert front[..|front|] == front;
    }
  }

  lemma HasKeyNonempty(ms: seq<Meta>, key: GoString)
    requires HasKey(ms, key)
    ensures ms != []
  {
  }

  /**
   * The deletion is exact if and only if the entries with the key stand together at the end, or each
   * is followed by one without it.
   */
  lemma DelMetaExact(ms: seq<Meta>, key: GoString)
    ensures DelMeta(ms, key) == Without(ms, key) <==> OnlyTrailing(ms, key) || Isolated(ms, key)
  {
    hide DelMeta, Without, Trailing, OnlyTrailing, Isolated, HasKey;
    var t := Trailing(ms, key);
    if t == 0 {
      DelMetaExactInside(ms, key);
    } else {
      var front, tail := ms[..|ms| - t], ms[|ms| - t..];
      assert ms == front + tail;
      DelMetaExactAtEnd(front, tail, key);
      EndsWithKey(front, tail, key);
    }
  }

  /** A list that does not end with the key: exact if and only if no two entries with it are neighbours. */
  lemma DelMetaExactInside(ms: seq<Meta>, key: GoString)
    requires Trailing(ms, key) == 0
    ensures DelMeta(ms, key) == Without(ms, key) <==> OnlyTrailing(ms, key) || Isolated(ms, key)
  {
    hide DelMeta, Pass, Without, OnlyTrailing, Isolated, HasKey;
    assert ms[..|ms|] == ms;
    DelMetaClosedForm(ms, key);
    PassExact(ms, key);
    TrailingNone(ms, key);
  }

  /** A list that ends with the key: it is only there exactly when the rest does not have it. */
  lemma EndsWithKey(front: seq<Meta>, tail: seq<Meta>, key: GoString)
    requires tail != [] && forall i :: 0 <= i < |tail| ==> tail[i].key == key
    requires front != [] ==> front[|front| - 1].key != key
    ensures OnlyTrailing(front + tail, key) || Isolated(front + tail, key) <==> !HasKey(front, key)
  {
    var ms := front + tail;
    assert Matches(ms, |ms| - 1, key);
    if HasKey(front, key) {
      var i :| 0 <= i < |front| && front[i].key == key;
      assert Matches(ms, i, key) && !Matches(ms, |front| - 1, key);
    } else {
      assert forall i :: 0 <= i < |front| ==> ms[i] == front[i];
      assert forall i :: |front| <= i < |ms| ==> ms[i] == tail[i - |front|];
    }
  }

  /** With the key at most once, the loop does what its name says. */
  lemma DelMetaOnce(ms: seq<Meta>, key: GoString)
    requires AtMostOnce(ms, key)
    ensures DelMeta(ms, key) == Without(ms, key)
  {
    DelMetaExact(ms, key);
    if !OnlyTrailing(ms, key) {
      var i, j :| Matches(ms, i, key) && i < j < |ms| && !Matches(ms, j, key);
      assert Isolated(ms, key);
    }
  }

  /** On a key, another entry and the key again the loop removes the other entry too. */
  lemma DelMetaLosesEntry(k: Meta, b: Meta)
    requires k.key != b.key
    ensures DelMeta([k, b, k], k.key) == [] && Without([k, b, k], k.key) == [b]
  {
    var s0 := [k, b, k];
    assert s0[..0] + s0[1..3] + s0[2..] == [b, k, k];
    assert DelRun([b, k, k], 0, 3, k.key) == [];
    assert DelRun([b, k, k], 1, 2, k.key) == [];
    assert DelRun([b, k, k], 2, 1, k.key) == [];
    assert s0[1..] == [b, k] && [b, k][1..] == [k] && [k][1..] == [];
    assert Without([k], k.key) == [];
  }

  // ---- The meta list as a map ----------------------------------------------------------------

  /** Adding an entry and deleting its key gives the list back exactly when the key was absent. */
  lemma AddThenDelete(ms: seq<Meta>, m: Meta)
    ensures DelMeta(ms + [m], m.key) == ms <==> !HasKey(ms, m.key)
  {
    hide DelMeta, Pass, Without;
    var all := ms + [m];
    var t := Trailing(all, m.key);
    assert all[..|ms|] == ms;
    var front := all[..|all| - t];
    DelMetaClosedForm(all, m.key);
    PassAll(front, m.key);
    if t == 1 {
      assert front == ms;
    } else {
      assert all[|ms| - 1] == ms[|ms| - 1];
    }
  }

  lemma {:induction false} FindAbsent(ms: seq<Meta>, key: GoString)
    ensures FindMeta(ms, key).None? <==> !HasKey(ms, key)
  {
    if ms != [] {
      FindAbsent(ms[1..], key);
      if HasKey(ms, key) && ms[0].key != key {
        var i :| 0 <= i < |ms| && ms[i].key == key;
        assert ms[1..][i - 1].key == key;
      }
    }
  }

  /** Lookup takes the first entry, so entries appended later only matter for absent keys. */
  lemma {:induction false} FindConcat(a: seq<Meta>, b: seq<Meta>, key: GoString)
    ensures FindMeta(a + b, key) == if HasKey(a, key) then FindMeta(a, key) else FindMeta(b, key)
  {
    if a == [] {
      assert a + b == b;
    } else {
      assert (a + b)[1..] == a[1..] + b;
      FindConcat(a[1..], b, key);
      if HasKey(a, key) && a[0].key != key {
        var i :| 0 <= i < |a| && a[i].key == key;
        assert a[1..][i - 1].key == key;
      }
    }
  }

  /** Entry `i` is the first one with the key. */
  ghost predicate FirstAt(ms: seq<Meta>, key: GoString, i: int) {
    0 <= i < |ms| && ms[i].key == key && forall j :: 0 <= j < i ==> ms[j].key != key
  }

  lemma {:induction false} FindFirst(ms: seq<Meta>, key: GoString, i: nat)
    requires FirstAt(ms, key, i)
    ensures FindMeta(ms, key) == Some(Interpret(ms[i]))
  {
    if i > 0 {
      assert ms[0].key != key;
      assert forall j :: 0 <= j < i - 1 ==> ms[1..][j] == ms[j + 1];
      FindFirst(ms[1..], key, i - 1);
    }
  }

  /** Lookup answers by the type of the first entry with the key: 0 is int, 2 is float, all else text. */
  lemma FindByKind(ms: seq<Meta>, key: GoString, i: nat)
    requires FirstAt(ms, key, i)
    ensures FindMeta(ms, key)
         == match ms[i].kind
            case 0 => Some(IntValue(ms[i].value))
            case 2 => Some(FloatValue(ms[i].value))
            case _ => Some(StringValue(ms[i].value))
  {
    FindFirst(ms, key, i);
  }

  lemma {:induction false} FirstExists(ms: seq<Meta>, key: GoString) returns (i: nat)
    requires HasKey(ms, key)
    ensures FirstAt(ms, key, i)
  {
    if ms[0].key == key {
      i := 0;
    } else {
      var k :| 0 <= k < |ms| && ms[k].key == key;
      assert ms[1..][k - 1].key == key;
      var j := FirstExists(ms[1..], key);
      i := j + 1;
      assert forall x :: 0 < x < i ==> ms[x] == ms[1..][x - 1];
    }
  }

  lemma {:induction false} FindWithout(ms: seq<Meta>, key: GoString, other: GoString)
    ensures FindMeta(Without(ms, key), other) == if other == key then None else FindMeta(ms, other)
  {
    if ms != [] {
      FindWithout(ms[1..], key, other);
    }
  }

  datatype MetaOp = AddString(key: GoString, value: GoString) | Delete(key: GoString)

  function MetaStep(ms: seq<Meta>, op: MetaOp): seq<Meta> {
    match op
    case AddString(k, v) => ms + [StringMeta(k, v)]
    case Delete(k) => DelMeta(ms, k)
  }

  function MetaRun(ms: seq<Meta>, ops: seq<MetaOp>): seq<Meta>
    decreases |ops|
  {
    if ops == [] then ms else MetaRun(MetaStep(ms, ops[0]), ops[1..])
  }

  function MapRun(m: map<GoString, MetaValue>, ops: seq<MetaOp>): map<GoString, MetaValue>
    decreases |ops|
  {
    if ops == [] then m
    else
      match ops[0]
      case AddString(k, v) => MapRun(m[k := StringValue(v)], ops[1..])
      case Delete(k) => MapRun(m - {k}, ops[1..])
  }

  /** No step adds a key the list holds at that moment. */
  ghost predicate AddsFresh(ms: seq<Meta>, ops: seq<MetaOp>)
    decreases |ops|
  {
    ops == [] ||
    ((ops[0].AddString? ==> !HasKey(ms, ops[0].key)) && AddsFresh(MetaStep(ms, ops[0]), ops[1..]))
  }

  ghost predicate DistinctKeys(ms: seq<Meta>) {
    forall i, j :: 0 <= i < j < |ms| ==> ms[i].key != ms[j].key
  }

  ghost predicate Represents(ms: seq<Meta>, m: map<GoString, MetaValue>) {
    forall k :: FindMeta(ms, k) == if k in m then Some(m[k]) else None
  }

  lemma {:induction false} WithoutDistinct(ms: seq<Meta>, key: GoString)
    requires DistinctKeys(ms)
    ensures DistinctKeys(Without(ms, key))
    ensures forall k :: HasKey(Without(ms, key), k) ==> HasKey(ms, k)
  {
    if ms != [] {
      WithoutDistinct(ms[1..], key);
      var rest := Without(ms[1..], key);
      forall k | HasKey(Without(ms, key), k)
        ensures HasKey(ms, k)
      {
        if ms[0].key != k {
          assert HasKey(rest, k) by {
            var i :| 0 <= i < |Without(ms, key)| && Without(ms, key)[i].key == k;
            if ms[0].key != key {
              assert rest[i - 1].key == k;
            }
          }
          var j :| 0 <= j < |ms[1..]| && ms[1..][j].key == k;
          assert ms[j + 1].key == k;
        }
      }
      forall i | 0 <= i < |rest|
        ensures rest[i].key != ms[0].key
      {
        assert HasKey(rest, rest[i].key);
      }
    }
  }

  lemma FindAfterAdd(ms: seq<Meta>, key: GoString, value: GoString, k: GoString)
    requires !HasKey(ms, key)
    ensures FindMeta(ms + [StringMeta(key, value)], k)
         == if k == key then Some(StringValue(value)) else FindMeta(ms, k)
  {
    hide HasKey;
    var added := [StringMeta(key, value)];
    FindConcat(ms, added, k);
    FindAbsent(ms, k);
    assert added[1..] == [];
  }

  /** One step on a list of distinct keys is the step on the map it stands for. */
  lemma MetaStepRefines(ms: seq<Meta>, m: map<GoString, MetaValue>, op: MetaOp)
    requires DistinctKeys(ms) && Represents(ms, m)
    requires op.AddString? ==> !HasKey(ms, op.key)
    ensures DistinctKeys(MetaStep(ms, op))
    ensures Represents(MetaStep(ms, op), MapRun(m, [op]))
  {
    hide DelMeta, Without, FindMeta;
    assert [op][1..] == [];
    if op.AddString? {
      forall k {
        FindAfterAdd(ms, op.key, op.value, k);
      }
    } else {
      DelMetaOnce(ms, op.key);
      WithoutDistinct(ms, op.key);
      forall k {
        FindWithout(ms, op.key, k);
      }
    }
  }

  /** Over every run that never adds a key twice, lookup in the list is lookup in a plain map. */
  lemma {:induction false} MetaRunRefines(ms: seq<Meta>, m: map<GoString, MetaValue>, ops: seq<MetaOp>)
    requires DistinctKeys(ms) && Represents(ms, m) && AddsFresh(ms, ops)
    ensures Represents(MetaRun(ms, ops), MapRun(m, ops))
    ensures DistinctKeys(MetaRun(ms, ops))
    decreases |ops|
  {
    hide MetaStep, Represents, DistinctKeys, HasKey;
    if ops != [] {
      MetaStepRefines(ms, m, ops[0]);
      MetaRunRefines(MetaStep(ms, ops[0]), MapRun(m, [ops[0]]), ops[1..]);
    }
  }
}
