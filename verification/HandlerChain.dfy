/**
 * ContextImpl.Next of wxf/context.go: a handler may call Next any number of times, and Next calls
 * itself again after every handler. A handler is modelled by how often it calls Next.
 */
module HandlerChain {
  import opened Bytes

  datatype Handler = Nil | Func(name: nat, calls: nat)

  datatype Event = Enter(index: nat) | Exit(index: nat)

  // ---- Specification: the recursion of the source --------------------------------------------

  /** One call of Next with the context at `i`: the index afterwards and what ran. */
  function RunNext(ch: seq<Handler>, i: nat): (r: (nat, seq<Event>))
    requires i <= |ch|
    ensures i <= r.0 <= |ch|
    decreases |ch| - i, 0
  {
    if i == |ch| then (i, [])
    else if ch[i].Nil? then (i + 1, [])
    else
      var body := RunCalls(ch, i + 1, ch[i].calls);
      var after := RunNext(ch, body.0);
      (after.0, [Enter(i)] + body.1 + [Exit(i)] + after.1)
  }

  /** The calls a handler body makes, one after the other. */
  function RunCalls(ch: seq<Handler>, i: nat, n: nat): (r: (nat, seq<Event>))
    requires i <= |ch|
    ensures i <= r.0 <= |ch|
    decreases |ch| - i, n
  {
    if n == 0 then (i, [])
    else
      var first := RunNext(ch, i);
      var rest := RunCalls(ch, first.0, n - 1);
      (rest.0, first.1 + rest.1)
  }

  // ---- How far a chain gets ------------------------------------------------------------------

  /**
   * A flat reading of the recursion: a budget of Next calls, each consuming one index; a handler
   * brings its own calls and the one that follows it, a nil brings none.
   */
  function Consume(ch: seq<Handler>, i: nat, budget: nat): nat
    requires i <= |ch|
    decreases |ch| - i
  {
    if budget == 0 || i == |ch| then i
    else if ch[i].Nil? then Consume(ch, i + 1, budget - 1)
    else Consume(ch, i + 1, budget + ch[i].calls)
  }

  lemma {:induction false} ConsumeBounds(ch: seq<Handler>, i: nat, budget: nat)
    requires i <= |ch|
    ensures i <= Consume(ch, i, budget) <= |ch|
    decreases |ch| - i
  {
    if budget > 0 && i < |ch| {
      ConsumeBounds(ch, i + 1, if ch[i].Nil? then budget - 1 else budget + ch[i].calls);
    }
  }

  lemma {:induction false} ConsumeSplit(ch: seq<Handler>, i: nat, a: nat, b: nat)
    requires i <= |ch|
    ensures Consume(ch, i, a) <= |ch| && Consume(ch, i, a + b) == Consume(ch, Consume(ch, i, a), b)
    decreases |ch| - i
  {
    ConsumeBounds(ch, i, a);
    if a > 0 && i < |ch| {
      ConsumeSplit(ch, i + 1, if ch[i].Nil? then a - 1 else a + ch[i].calls, b);
    }
  }

  lemma {:induction false} NextConsumes(ch: seq<Handler>, i: nat)
    requires i <= |ch|
    ensures RunNext(ch, i).0 == Consume(ch, i, 1)
    decreases |ch| - i, 0
  {
    if i < |ch| && ch[i].Func? {
      var body := RunCalls(ch, i + 1, ch[i].calls);
      CallsConsume(ch, i + 1, ch[i].calls);
      NextConsumes(ch, body.0);
      ConsumeSplit(ch, i + 1, ch[i].calls, 1);
    }
  }

  lemma {:induction false} CallsConsume(ch: seq<Handler>, i: nat, n: nat)
    requires i <= |ch|
    ensures RunCalls(ch, i, n).0 == Consume(ch, i, n)
    decreases |ch| - i, n
  {
    if n > 0 {
      NextConsumes(ch, i);
      CallsConsume(ch, RunNext(ch, i).0, n - 1);
      ConsumeSplit(ch, i, 1, n - 1);
    }
  }

  /** The budget left after the first `k` entries, had none of them stopped the chain. */
  function Balance(ch: seq<Handler>, k: nat): int
    requires k <= |ch|
  {
    if k == 0 then 1
    else Balance(ch, k - 1) + (if ch[k - 1].Nil? then -1 else ch[k - 1].calls)
  }

  lemma {:induction false} ConsumeStops(ch: seq<Handler>, i: nat)
    requires i <= |ch| && Balance(ch, i) >= 0
    ensures var r := Consume(ch, i, Balance(ch, i));
            && i <= r <= |ch|
            && (forall k :: i <= k < r ==> Balance(ch, k) > 0)
            && (r < |ch| ==> Balance(ch, r) == 0)
    decreases |ch| - i
  {
    if Balance(ch, i) > 0 && i < |ch| {
      ConsumeStops(ch, i + 1);
    }
  }

  /**
   * Serving a chain stops at the first place where the nil entries so far outnumber the calls of Next
   * made by the handlers so far, and nowhere else; without nils it never stops early.
   */
  lemma ChainReach(ch: seq<Handler>)
    ensures var r := RunNext(ch, 0).0;
            && (forall k :: 0 <= k < r ==> Balance(ch, k) > 0)
            && (r < |ch| ==> Balance(ch, r) == 0)
    ensures RunNext(ch, 0).0 == |ch| <==> forall k :: 0 <= k < |ch| ==> Balance(ch, k) > 0
  {
    NextConsumes(ch, 0);
    ConsumeStops(ch, 0);
  }

  // ---- What runs, and in which order ---------------------------------------------------------

  function Enters(es: seq<Event>): seq<nat> {
    if es == [] then []
    else if es[0].Enter? then [es[0].index] + Enters(es[1..])
    else Enters(es[1..])
  }

  /** The positions from `a` up to `b` that hold a handler. */
  function Handlers(ch: seq<Handler>, a: nat, b: nat): seq<nat>
    requires a <= b <= |ch|
    decreases b - a
  {
    if a == b then []
    else if ch[a].Nil? then Handlers(ch, a + 1, b)
    else [a] + Handlers(ch, a + 1, b)
  }

  lemma {:induction false} EntersConcat(a: seq<Event>, b: seq<Event>)
    ensures Enters(a + b) == Enters(a) + Enters(b)
  {
    if a == [] {
      assert a + b == b;
    } else {
      assert (a + b)[1..] == a[1..] + b;
      EntersConcat(a[1..], b);
    }
  }

  lemma {:induction false} HandlersConcat(ch: seq<Handler>, a: nat, b: nat, c: nat)
    requires a <= b <= c <= |ch|
    ensures Handlers(ch, a, c) == Handlers(ch, a, b) + Handlers(ch, b, c)
    decreases b - a
  {
    if a < b {
      HandlersConcat(ch, a + 1, b, c);
    }
  }

  /** Every index passed is consumed once: its handler starts once, in chain order, nils aside. */
  lemma {:induction false} NextEnters(ch: seq<Handler>, i: nat)
    requires i <= |ch|
    ensures Enters(RunNext(ch, i).1) == Handlers(ch, i, RunNext(ch, i).0)
    decreases |ch| - i, 0
  {
    if i < |ch| && ch[i].Func? {
      var body := RunCalls(ch, i + 1, ch[i].calls);
      var after := RunNext(ch, body.0);
      CallsEnter(ch, i + 1, ch[i].calls);
      NextEnters(ch, body.0);
      HandlersConcat(ch, i + 1, body.0, after.0);
      EntersConcat([Enter(i)] + body.1 + [Exit(i)], after.1);
      EntersConcat([Enter(i)] + body.1, [Exit(i)]);
      EntersConcat([Enter(i)], body.1);
      assert [Enter(i)][1..] == [] && [Exit(i)][1..] == [];
      assert Enters([Enter(i)]) == [i] && Enters([Exit(i)]) == [];
    }
  }

  lemma {:induction false} CallsEnter(ch: seq<Handler>, i: nat, n: nat)
    requires i <= |ch|
    ensures Enters(RunCalls(ch, i, n).1) == Handlers(ch, i, RunCalls(ch, i, n).0)
    decreases |ch| - i, n
  {
    if n > 0 {
      var first := RunNext(ch, i);
      var rest := RunCalls(ch, first.0, n - 1);
      NextEnters(ch, i);
      CallsEnter(ch, first.0, n - 1);
      EntersConcat(first.1, rest.1);
      HandlersConcat(ch, i, first.0, rest.0);
    }
  }

  // ---- Nesting -------------------------------------------------------------------------------

  /** Replays the events on a stack of running handlers; None when an exit does not match. */
  function Replay(es: seq<Event>, stack: seq<nat>): Option<seq<nat>>
    decreases |es|
  {
    if es == [] then Some(stack)
    else
      match es[0]
      case Enter(i) => Replay(es[1..], [i] + stack)
      case Exit(i) =>
        if stack != [] && stack[0] == i then Replay(es[1..], stack[1..]) else None
  }

  lemma {:induction false} ReplayConcat(a: seq<Event>, b: seq<Event>, stack: seq<nat>)
    requires Replay(a, stack).Some?
    ensures Replay(a + b, stack) == Replay(b, Replay(a, stack).value)
    decreases |a|
  {
    if a == [] {
      assert a + b == b;
    } else {
      assert (a + b)[1..] == a[1..] + b;
      match a[0]
      case Enter(i) => ReplayConcat(a[1..], b, [i] + stack);
      case Exit(i) => ReplayConcat(a[1..], b, stack[1..]);
    }
  }

  /** Activations are properly nested: a handler exits when everything entered inside it has exited. */
  lemma {:induction false} NextNests(ch: seq<Handler>, i: nat, stack: seq<nat>)
    requires i <= |ch|
    ensures Replay(RunNext(ch, i).1, stack) == Some(stack)
    decreases |ch| - i, 0
  {
    if i < |ch| && ch[i].Func? {
      var body := RunCalls(ch, i + 1, ch[i].calls);
      var after := RunNext(ch, body.0);
      CallsNest(ch, i + 1, ch[i].calls, [i] + stack);
      NextNests(ch, body.0, stack);
      EnterExit(i, stack);
      ReplayConcat([Enter(i)], body.1, stack);
      ReplayConcat([Enter(i)] + body.1, [Exit(i)], stack);
      ReplayConcat([Enter(i)] + body.1 + [Exit(i)], after.1, stack);
    }
  }

  lemma EnterExit(i: nat, stack: seq<nat>)
    ensures Replay([Enter(i)], stack) == Some([i] + stack)
    ensures Replay([Exit(i)], [i] + stack) == Some(stack)
  {
    assert [Enter(i)][1..] == [] && [Exit(i)][1..] == [];
    assert ([i] + stack)[1..] == stack;
  }

  lemma {:induction false} CallsNest(ch: seq<Handler>, i: nat, n: nat, stack: seq<nat>)
    requires i <= |ch|
    ensures Replay(RunCalls(ch, i, n).1, stack) == Some(stack)
    decreases |ch| - i, n
  {
    if n > 0 {
      NextNests(ch, i, stack);
      CallsNest(ch, RunNext(ch, i).0, n - 1, stack);
      ReplayConcat(RunNext(ch, i).1, RunCalls(ch, RunNext(ch, i).0, n - 1).1, stack);
    }
  }

  // ---- Chains without nil --------------------------------------------------------------------

  ghost predicate NilFree(ch: seq<Handler>) {
    forall i :: 0 <= i < |ch| ==> ch[i].Func?
  }

  /** A handler that calls Next wraps all later ones; one that does not is done before them. */
  function Onion(ch: seq<Handler>, i: nat): seq<Event>
    requires i <= |ch|
    decreases |ch| - i
  {
    if i == |ch| then []
    else if ch[i].Func? && ch[i].calls > 0 then [Enter(i)] + Onion(ch, i + 1) + [Exit(i)]
    else [Enter(i), Exit(i)] + Onion(ch, i + 1)
  }

  lemma NextUnfold(ch: seq<Handler>, i: nat)
    requires i < |ch| && ch[i].Func?
    ensures var body := RunCalls(ch, i + 1, ch[i].calls);
            var after := RunNext(ch, body.0);
            RunNext(ch, i) == (after.0, [Enter(i)] + body.1 + [Exit(i)] + after.1)
  {
  }

  lemma AtEnd(ch: seq<Handler>)
    ensures RunNext(ch, |ch|) == (|ch|, []) && Onion(ch, |ch|) == []
    ensures forall i :: 0 <= i <= |ch| ==> RunCalls(ch, i, 0) == (i, [])
  {
  }

  /** How often a handler calls Next does not matter, only whether it does. */
  lemma {:induction false} NextIsOnion(ch: seq<Handler>, i: nat)
    requires i <= |ch| && NilFree(ch)
    ensures RunNext(ch, i) == (|ch|, Onion(ch, i))
    decreases |ch| - i, 0
  {
    hide RunNext, RunCalls;
    AtEnd(ch);
    if i < |ch| {
      NextUnfold(ch, i);
      if ch[i].calls > 0 {
        CallsAreOnion(ch, i + 1, ch[i].calls);
        assert [Enter(i)] + Onion(ch, i + 1) + [Exit(i)] + [] == Onion(ch, i);
      } else {
        NextIsOnion(ch, i + 1);
        assert [Enter(i)] + [] + [Exit(i)] + Onion(ch, i + 1) == Onion(ch, i);
      }
    }
  }

  lemma {:induction false} CallsAreOnion(ch: seq<Handler>, i: nat, n: nat)
    requires i <= |ch| && NilFree(ch) && n > 0
    ensures RunCalls(ch, i, n) == (|ch|, Onion(ch, i))
    decreases |ch| - i, n
  {
    NextIsOnion(ch, i);
    if n > 1 {
      CallsAtEnd(ch, n - 1);
    }
    assert Onion(ch, i) + [] == Onion(ch, i);
  }

  /** Calls made when the chain is used up do nothing. */
  lemma {:induction false} CallsAtEnd(ch: seq<Handler>, n: nat)
    ensures RunCalls(ch, |ch|, n) == (|ch|, [])
  {
    if n > 0 {
      CallsAtEnd(ch, n - 1);
      assert RunNext(ch, |ch|) == (|ch|, []);
      assert RunNext(ch, |ch|).1 + RunCalls(ch, |ch|, n - 1).1 == [];
    }
  }

  ghost predicate Before(es: seq<Event>, a: Event, b: Event) {
    exists p, q :: 0 <= p < q < |es| && es[p] == a && es[q] == b
  }

  lemma {:induction false} OnionHas(ch: seq<Handler>, i: nat, j: nat)
    requires i <= j < |ch|
    ensures Enter(j) in Onion(ch, i) && Exit(j) in Onion(ch, i)
    decreases |ch| - i
  {
    if i < j {
      OnionHas(ch, i + 1, j);
    }
  }

  lemma BeforeInside(front: seq<Event>, es: seq<Event>, back: seq<Event>, a: Event, b: Event)
    requires Before(es, a, b)
    ensures Before(front + es + back, a, b)
  {
    var p, q :| 0 <= p < q < |es| && es[p] == a && es[q] == b;
    var all := front + es + back;
    assert all[|front| + p] == a && all[|front| + q] == b;
  }

  /** The order the calls of handler `i` give it relative to the later handler `j`. */
  ghost predicate Ordered(ch: seq<Handler>, es: seq<Event>, i: nat, j: nat)
    requires i < |ch| && ch[i].Func?
  {
    if ch[i].calls > 0 then Before(es, Enter(i), Enter(j)) && Before(es, Exit(j), Exit(i))
    else Before(es, Exit(i), Enter(j))
  }

  lemma OrderedHere(ch: seq<Handler>, i: nat, j: nat)
    requires i < j < |ch| && NilFree(ch)
    ensures Ordered(ch, Onion(ch, i), i, j)
  {
    var es, inner := Onion(ch, i), Onion(ch, i + 1);
    OnionHas(ch, i + 1, j);
    var e :| 0 <= e < |inner| && inner[e] == Enter(j);
    var x :| 0 <= x < |inner| && inner[x] == Exit(j);
    if ch[i].calls > 0 {
      assert es[0] == Enter(i) && es[1 + e] == Enter(j);
      assert es[1 + x] == Exit(j) && es[|es| - 1] == Exit(i);
    } else {
      assert es[1] == Exit(i) && es[2 + e] == Enter(j);
    }
  }

  lemma OrderedInside(ch: seq<Handler>, front: seq<Event>, es: seq<Event>, back: seq<Event>, i: nat, j: nat)
    requires i < |ch| && ch[i].Func? && Ordered(ch, es, i, j)
    ensures Ordered(ch, front + es + back, i, j)
  {
    hide Before;
    if ch[i].calls > 0 {
      BeforeInside(front, es, back, Enter(i), Enter(j));
      BeforeInside(front, es, back, Exit(j), Exit(i));
    } else {
      BeforeInside(front, es, back, Exit(i), Enter(j));
    }
  }

  /**
   * In a chain without nil, a handler that calls Next at least once exits after every later handler;
   * one that never does exits before any later handler starts.
   */
  lemma {:induction false} OnionOrder(ch: seq<Handler>, s: nat, i: nat, j: nat)
    requires s <= i < j < |ch| && NilFree(ch)
    ensures Ordered(ch, Onion(ch, s), i, j)
    decreases i - s
  {
    hide Ordered;
    if s == i {
      OrderedHere(ch, i, j);
    } else {
      OnionOrder(ch, s + 1, i, j);
      var front := if ch[s].calls > 0 then [Enter(s)] else [Enter(s), Exit(s)];
      var back := if ch[s].calls > 0 then [Exit(s)] else [];
      assert Onion(ch, s) == front + Onion(ch, s + 1) + back;
      OrderedInside(ch, front, Onion(ch, s + 1), back, i, j);
    }
  }
}
