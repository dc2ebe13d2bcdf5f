/**
 * wxf/wire/seq.go: the shared counter behind packet sequence numbers and channel ids.
 *
 * Next is an atomic Add; the caller that reaches the maximum follows with a compare-and-swap to 1 and
 * starts over when that fails. Any number of threads interleave at these two actions. The maximum is
 * a parameter `max`; the source has math.MaxUint32.
 */
module Sequence {
  import opened Bytes

  const MAX_UINT32: nat := 0xFFFF_FFFF

  // ---- The protocol as a state machine -------------------------------------------------------

  /** `atMax`: the threads between the two actions. `returned`: results in the order they were decided. */
  datatype State = State(num: nat, atMax: set<nat>, returned: seq<nat>)

  datatype Step = Add(thread: nat) | Cas(thread: nat)

  predicate Enabled(s: State, step: Step) {
    step.Cas? <==> step.thread in s.atMax
  }

  /** The unsigned word one further on: its largest value is `max`. */
  function Inc(max: nat, n: nat): nat {
    if n == max then 0 else n + 1
  }

  function Take(max: nat, s: State, step: Step): State {
    match step
    case Add(t) =>
      var next := Inc(max, s.num);
      if next == max then State(next, s.atMax + {t}, s.returned)
      else State(next, s.atMax, s.returned + [next])
    case Cas(t) =>
      if s.num == max then State(1, s.atMax - {t}, s.returned + [1])
      else State(s.num, s.atMax - {t}, s.returned)
  }

  function Run(max: nat, s: State, steps: seq<Step>): State
    decreases |steps|
  {
    if steps == [] then s else Run(max, Take(max, s, steps[0]), steps[1..])
  }

  predicate Legal(max: nat, s: State, steps: seq<Step>)
    decreases |steps|
  {
    steps == [] || (Enabled(s, steps[0]) && Legal(max, Take(max, s, steps[0]), steps[1..]))
  }

  /** The steps of one thread. */
  function Of(t: nat): Step -> bool {
    (step: Step) => step.thread == t
  }

  predicate Others(steps: seq<Step>, t: nat) {
    forall i :: 0 <= i < |steps| ==> steps[i].thread != t
  }

  function Start(num: nat): State {
    State(num, {}, [])
  }

  lemma {:induction false} RunConcat(max: nat, s: State, a: seq<Step>, b: seq<Step>)
    ensures Legal(max, s, a + b) <==> Legal(max, s, a) && Legal(max, Run(max, s, a), b)
    ensures Run(max, s, a + b) == Run(max, Run(max, s, a), b)
    decreases |a|
  {
    hide Enabled, Take;
    if a == [] {
      assert a + b == b;
    } else {
      assert (a + b)[1..] == a[1..] + b;
      RunConcat(max, Take(max, s, a[0]), a[1..], b);
    }
  }

  // ---- What every interleaving keeps ---------------------------------------------------------

  /** A result is the one before it plus one, or starts over at 0 or 1 after the last value. */
  ghost predicate Succ(max: nat, a: nat, b: nat) {
    (a < max - 1 && b == a + 1) || (a == max - 1 && b <= 1)
  }

  ghost predicate Chain(max: nat, h: seq<nat>) {
    && (forall i :: 0 <= i < |h| ==> h[i] < max)
    && (forall i :: 0 < i < |h| ==> Succ(max, h[i - 1], h[i]))
  }

  ghost predicate Inv(max: nat, first: nat, s: State) {
    && Chain(max, [first] + s.returned)
    && var last := ([first] + s.returned)[|s.returned|];
    && (s.num == last || (s.num == max && last == max - 1))
  }

  lemma StepKeepsInv(max: nat, first: nat, s: State, step: Step)
    requires max >= 2 && Inv(max, first, s)
    ensures Inv(max, first, Take(max, s, step))
  {
    var s' := Take(max, s, step);
    if s'.returned != s.returned {
      var h, h' := [first] + s.returned, [first] + s'.returned;
      assert h' == h + [s'.num];
      assert Succ(max, h[|h| - 1], s'.num);
    }
  }

  lemma {:induction false} RunKeepsInv(max: nat, first: nat, s: State, steps: seq<Step>)
    requires max >= 2 && Inv(max, first, s)
    ensures Inv(max, first, Run(max, s, steps))
    decreases |steps|
  {
    hide Inv, Take;
    if steps != [] {
      StepKeepsInv(max, first, s, steps[0]);
      RunKeepsInv(max, first, Take(max, s, steps[0]), steps[1..]);
    }
  }

  /** Within fewer than max - 1 links a chain wraps at most once, and cannot come back to its value. */
  lemma {:induction false} ChainWindow(max: nat, h: seq<nat>, i: nat, j: nat)
    requires max >= 2 && Chain(max, h)
    requires i < j < |h| && j - i < max - 1
    ensures h[j] == h[i] + (j - i)
         || h[j] == h[i] + (j - i) - (max - 1)
         || h[j] == h[i] + (j - i) - max
    decreases j
  {
    assert Succ(max, h[j - 1], h[j]);
    if j - 1 > i {
      ChainWindow(max, h, i, j - 1);
    }
  }

  lemma InvDistinct(max: nat, first: nat, s: State)
    requires max >= 2 && Inv(max, first, s)
    ensures forall i :: 0 <= i < |s.returned| ==> s.returned[i] < max
    ensures forall i, j :: 0 <= i < j < |s.returned| && s.returned[i] == s.returned[j] ==> j - i >= max - 1
  {
    var r := s.returned;
    var h := [first] + r;
    forall i | 0 <= i < |r|
      ensures r[i] < max
    {
      assert h[i + 1] == r[i];
    }
    forall i, j | 0 <= i < j < |r| && r[i] == r[j]
      ensures j - i >= max - 1
    {
      assert h[i + 1] == r[i] && h[j + 1] == r[j];
      if j - i < max - 1 {
        ChainWindow(max, h, i + 1, j + 1);
      }
    }
  }

  /**
   * In every interleaving of any number of threads the maximum is never returned, and two equal
   * results are at least max - 1 results apart.
   */
  lemma DistinctWindow(max: nat, first: nat, steps: seq<Step>)
    requires max >= 2 && first < max
    ensures var r := Run(max, Start(first), steps).returned;
            && (forall i :: 0 <= i < |r| ==> r[i] < max)
            && (forall i, j :: 0 <= i < j < |r| && r[i] == r[j] ==> j - i >= max - 1)
  {
    RunKeepsInv(max, first, Start(first), steps);
    InvDistinct(max, first, Run(max, Start(first), steps));
  }

  /** So any max - 1 results in a row are pairwise different. */
  lemma WindowDistinct(max: nat, first: nat, steps: seq<Step>, from: nat, to: nat)
    requires max >= 2 && first < max
    requires from <= to <= |Run(max, Start(first), steps).returned| && to - from <= max - 1
    ensures var r := Run(max, Start(first), steps).returned[from..to];
            forall i, j :: 0 <= i < j < |r| ==> r[i] != r[j]
  {
    DistinctWindow(max, first, steps);
  }

  // ---- When 0 is returned --------------------------------------------------------------------

  /** While the word holds the maximum, the thread that brought it there has not swapped yet. */
  ghost predicate MaxIsHeld(max: nat, s: State) {
    s.num <= max && (s.num == max ==> s.atMax != {})
  }

  lemma StepKeepsMaxHeld(max: nat, s: State, step: Step)
    requires max >= 2 && Enabled(s, step) && MaxIsHeld(max, s)
    ensures MaxIsHeld(max, Take(max, s, step))
  {
    if step.Add? && s.num != max {
      assert step.thread in s.atMax + {step.thread};
    }
  }

  /** One thread adds while the word holds the maximum and another one is between its Add and its swap. */
  ghost predicate AddsBetween(max: nat, s: State, step: Step) {
    step.Add? && s.num == max && exists t :: t in s.atMax && t != step.thread
  }

  ghost predicate SomeAddsBetween(max: nat, s: State, steps: seq<Step>)
    decreases |steps|
  {
    steps != [] && (AddsBetween(max, s, steps[0]) || SomeAddsBetween(max, Take(max, s, steps[0]), steps[1..]))
  }

  lemma {:induction false} ZeroAfter(max: nat, s: State, steps: seq<Step>)
    requires max >= 2 && Legal(max, s, steps) && MaxIsHeld(max, s)
    ensures 0 in Run(max, s, steps).returned <==> 0 in s.returned || SomeAddsBetween(max, s, steps)
    decreases |steps|
  {
    if steps != [] {
      var step := steps[0];
      var s' := Take(max, s, step);
      if step.Add? && s.num == max {
        var t :| t in s.atMax;
        assert t != step.thread;
      }
      assert 0 in s'.returned <==> 0 in s.returned || AddsBetween(max, s, step);
      StepKeepsMaxHeld(max, s, step);
      ZeroAfter(max, s', steps[1..]);
    }
  }

  /** A run returns 0 exactly when an Add lands between another thread's Add and its swap. */
  lemma ZeroReturned(max: nat, first: nat, steps: seq<Step>)
    requires max >= 2 && first < max && Legal(max, Start(first), steps)
    ensures 0 in Run(max, Start(first), steps).returned <==> SomeAddsBetween(max, Start(first), steps)
  {
    ZeroAfter(max, Start(first), steps);
  }

  /** It does happen with two threads, for every maximum. */
  lemma ZeroHappens(max: nat)
    requires max >= 2
    ensures var steps := [Add(1), Add(2)];
            Legal(max, Start(max - 1), steps) && Run(max, Start(max - 1), steps).returned == [0]
  {
    var s1 := Take(max, Start(max - 1), Add(1));
    assert [Add(1), Add(2)][1..] == [Add(2)];
    var s2 := Take(max, s1, Add(2));
    assert Run(max, s1, [Add(2)]) == Run(max, s2, []);
    assert Legal(max, s1, [Add(2)]);
  }

  // ---- When a swap fails ---------------------------------------------------------------------

  /** A step of another thread takes the word away from the maximum. */
  ghost predicate Moves(max: nat, s: State, step: Step, t: nat) {
    && step.thread != t && s.num == max
    && Take(max, s, step).num == (if step.Add? then 0 else 1)
    && Take(max, s, step).returned == s.returned + [if step.Add? then 0 else 1]
  }

  ghost predicate SomeMoves(max: nat, s: State, steps: seq<Step>, t: nat)
    decreases |steps|
  {
    steps != [] && (Moves(max, s, steps[0], t) || SomeMoves(max, Take(max, s, steps[0]), steps[1..], t))
  }

  lemma {:induction false} WhileWaiting(max: nat, s: State, steps: seq<Step>, t: nat)
    requires max >= 2 && t in s.atMax && Legal(max, s, steps) && Cas(t) !in steps
    ensures t in Run(max, s, steps).atMax
    ensures Others(steps, t)
    ensures s.num == max && Run(max, s, steps).num != max ==> SomeMoves(max, s, steps, t)
    decreases |steps|
  {
    if steps != [] {
      assert steps[0] in steps;
      assert forall x :: x in steps[1..] ==> x in steps;
      WhileWaiting(max, Take(max, s, steps[0]), steps[1..], t);
    }
  }

  /**
   * A swap fails only when another thread moved the word. From a thread's Add that reaches the maximum
   * to its swap the thread itself takes no step, and if the swap fails then in between a second thread
   * either added and returned 0, or swapped and returned 1.
   */
  lemma FailedSwap(max: nat, s: State, t: nat, between: seq<Step>)
    requires max >= 2 && s.num == max - 1
    requires Legal(max, s, [Add(t)] + between + [Cas(t)]) && Cas(t) !in between
    ensures var s1 := Take(max, s, Add(t));
            var s2 := Run(max, s1, between);
            && Others(between, t)
            && (Take(max, s2, Cas(t)).returned == s2.returned ==> s2.num != max && SomeMoves(max, s1, between, t))
  {
    var s1 := Take(max, s, Add(t));
    assert [Add(t)] + between + [Cas(t)] == [Add(t)] + (between + [Cas(t)]);
    assert ([Add(t)] + (between + [Cas(t)]))[1..] == between + [Cas(t)];
    RunConcat(max, s1, between, [Cas(t)]);
    WhileWaiting(max, s1, between, t);
  }

  /**
   * That another thread moved the word is not enough: it may be back at the maximum in time, and then
   * the swap of the first thread succeeds.
   */
  lemma SwapAfterMoves()
    ensures var s1 := Take(2, Start(1), Add(1));
            var between := [Add(2), Add(3), Add(3)];
            && Legal(2, s1, between) && SomeMoves(2, s1, between, 1)
            && Run(2, s1, between).num == 2
            && Take(2, Run(2, s1, between), Cas(1)).returned == [0, 1, 1]
  {
    var s1 := Take(2, Start(1), Add(1));
    var s2 := Take(2, s1, Add(2));
    var s3 := Take(2, s2, Add(3));
    var s4 := Take(2, s3, Add(3));
    assert Run(2, s4, []) == s4;
    assert [Add(2), Add(3), Add(3)][1..] == [Add(3), Add(3)] && [Add(3), Add(3)][1..] == [Add(3)];
    assert [Add(3)][1..] == [];
    assert Legal(2, s3, [Add(3)]) && Run(2, s3, [Add(3)]) == s4;
    assert Legal(2, s2, [Add(3), Add(3)]) && Run(2, s2, [Add(3), Add(3)]) == s4;
  }

  // ---- One caller at a time ------------------------------------------------------------------

  /** What a call returns, and leaves in the counter, when nobody interferes. */
  function NextValue(max: nat, n: nat): nat {
    if n + 1 == max then 1 else Inc(max, n)
  }

  function NextTimes(max: nat, n: nat, k: nat): nat {
    if k == 0 then n else NextValue(max, NextTimes(max, n, k - 1))
  }

  lemma ModStep(x: nat, m: nat)
    requires m > 0
    ensures (x + 1) % m == if x % m + 1 == m then 0 else x % m + 1
  {
    var q, r := x / m, x % m;
    assert x + 1 == q * m + (r + 1);
    if r + 1 == m {
      assert x + 1 == (q + 1) * m;
      DivModUnique(x + 1, m, q + 1, 0);
    } else {
      DivModUnique(x + 1, m, q, r + 1);
    }
  }

  /** k calls in a row walk the cycle 1..max-1; 0 and the maximum never appear. */
  lemma {:induction false} SequentialCycle(max: nat, n: nat, k: nat)
    requires max >= 2 && 1 <= n < max
    ensures NextTimes(max, n, k) == 1 + (n - 1 + k) % (max - 1)
    ensures 1 <= NextTimes(max, n, k) < max
  {
    if k == 0 {
      DivModUnique(n - 1, max - 1, 0, n - 1);
    } else {
      SequentialCycle(max, n, k - 1);
      ModStep(n - 1 + (k - 1), max - 1);
    }
  }

  class Counter {
    var num: uint32

    constructor ()
      ensures num == 1
    {
      num := 1;
    }

    method AddUint32(delta: uint32) returns (next: uint32)
      modifies this
      ensures next == num == (old(num) + delta) % TWO_32
    {
      num := (num + delta) % TWO_32;
      next := num;
    }

    method CompareAndSwapUint32(before: uint32, after: uint32) returns (ok: bool)
      modifies this
      ensures ok == (old(num) == before)
      ensures num == if ok then after else old(num)
    {
      ok := num == before;
      if ok {
        num := after;
      }
    }

    /** Without interference the swap succeeds, so the call does not start over. */
    method Next() returns (r: uint32)
      modifies this
      ensures r == num == NextValue(MAX_UINT32, old(num))
      ensures r == if old(num) == 0xFFFF_FFFE then 1 else if old(num) == 0xFFFF_FFFF then 0 else old(num) + 1
    {
      var next := AddUint32(1);
      if next == MAX_UINT32 {
        var ok := CompareAndSwapUint32(next, 1);
        if ok {
          return 1;
        }
        assert false;
      }
      r := next;
    }
  }

  /** The steps of one undisturbed call have the result of the method. */
  lemma CallIsNext(max: nat, s: State, t: nat)
    requires max >= 2 && s.num <= max && t !in s.atMax
    ensures var steps := if s.num + 1 == max then [Add(t), Cas(t)] else [Add(t)];
            && Legal(max, s, steps)
            && Run(max, s, steps) == State(NextValue(max, s.num), s.atMax, s.returned + [NextValue(max, s.num)])
  {
    var s1 := Take(max, s, Add(t));
    if s.num + 1 == max {
      assert [Add(t), Cas(t)][1..] == [Cas(t)];
      var s2 := Take(max, s1, Cas(t));
      assert s2.atMax == s.atMax;
      assert Run(max, s1, [Cas(t)]) == Run(max, s2, []);
      assert Legal(max, s1, [Cas(t)]);
    } else {
      assert Run(max, s, [Add(t)]) == Run(max, s1, []);
    }
  }

  // ---- The method among other threads --------------------------------------------------------

  lemma {:induction false} OthersKeep(max: nat, s: State, steps: seq<Step>, t: nat)
    requires max >= 2 && s.num <= max && Others(steps, t)
    ensures Run(max, s, steps).num <= max
    ensures t in Run(max, s, steps).atMax <==> t in s.atMax
    decreases |steps|
  {
    if steps != [] {
      OthersKeep(max, Take(max, s, steps[0]), steps[1..], t);
    }
  }

  /** `failed` rounds that start over. */
  function Rounds(t: nat, failed: nat): seq<Step> {
    if failed == 0 then [] else [Add(t), Cas(t)] + Rounds(t, failed - 1)
  }

  /** A call's own steps: some rounds that start over, then one that returns. */
  predicate IsCall(own: seq<Step>, t: nat, failed: nat) {
    own == Rounds(t, failed) + [Add(t)] || own == Rounds(t, failed + 1)
  }

  lemma OneMoreRound(t: nat, own: seq<Step>, failed: nat)
    requires IsCall(own, t, failed)
    ensures IsCall([Add(t), Cas(t)] + own, t, failed + 1)
  {
    if own == Rounds(t, failed) + [Add(t)] {
      assert [Add(t), Cas(t)] + own == Rounds(t, failed + 1) + [Add(t)];
    }
  }

  lemma NoRounds(t: nat)
    ensures IsCall([Add(t)], t, 0) && IsCall([Add(t), Cas(t)], t, 0)
  {
    assert Rounds(t, 1) == [Add(t), Cas(t)] + Rounds(t, 0);
  }

  lemma NothingRuns(max: nat, s: State)
    ensures Run(max, s, []) == s
  {
  }

  lemma OneRuns(max: nat, s: State, step: Step)
    ensures Run(max, s, [step]) == Take(max, s, step)
    ensures Legal(max, s, [step]) <==> Enabled(s, step)
  {
    assert [step][1..] == [];
  }

  /** A further step of the thread at the end of a run. */
  lemma OwnStep(max: nat, s: State, steps: seq<Step>, step: Step, t: nat)
    requires step.thread == t && Legal(max, s, steps) && Enabled(Run(max, s, steps), step)
    ensures Legal(max, s, steps + [step])
    ensures Run(max, s, steps + [step]) == Take(max, Run(max, s, steps), step)
    ensures Filter(steps + [step], Of(t)) == Filter(steps, Of(t)) + [step]
  {
    hide Legal, Run, Take;
    RunConcat(max, s, steps, [step]);
    OneRuns(max, Run(max, s, steps), step);
    FilterConcat(steps, [step], Of(t));
    FilterOne(step, Of(t));
  }

  lemma ThreadEnabled(s: State, t: nat)
    ensures Enabled(s, Add(t)) <==> t !in s.atMax
    ensures Enabled(s, Cas(t)) <==> t in s.atMax
  {
  }

  lemma AddDecides(max: nat, s: State, t: nat)
    requires s.num <= max
    ensures var s' := Take(max, s, Add(t));
            && s'.num <= max
            && (if s'.num == max then t in s'.atMax else s'.atMax == s.atMax && s'.returned == s.returned + [s'.num])
  {
  }

  lemma CasDecides(max: nat, s: State, t: nat)
    requires max >= 2 && s.num <= max
    ensures var s' := Take(max, s, Cas(t));
            && s'.num <= max && t !in s'.atMax
            && (s.num == max ==> s'.returned == s.returned + [1])
  {
  }

  /** The run so far, and what other threads do next, finite as it is, at moments of their choosing. */
  class SharedCounter {
    const max: nat
    var state: State
    var pending: seq<Step>

    constructor (max: nat, first: nat, pending: seq<Step>)
      ensures this.max == max && state == Start(first) && this.pending == pending
    {
      this.max, state, this.pending := max, Start(first), pending;
    }

    method Interfere(t: nat) returns (ghost steps: seq<Step>)
      modifies this
      ensures Others(steps, t) && Legal(max, old(state), steps) && state == Run(max, old(state), steps)
      ensures |pending| + |steps| == |old(pending)|
    {
      var n: int := *;
      if 0 <= n <= |pending| && Others(pending[..n], t) && Legal(max, state, pending[..n]) {
        steps := pending[..n];
        state, pending := Run(max, state, pending[..n]), pending[n..];
      } else {
        steps := [];
      }
    }

    method AddUint32(t: nat) returns (next: nat)
      modifies this`state
      ensures state == Take(max, old(state), Add(t)) && next == state.num
    {
      state := Take(max, state, Add(t));
      next := state.num;
    }

    method CompareAndSwapUint32(t: nat) returns (ok: bool)
      modifies this`state
      ensures state == Take(max, old(state), Cas(t)) && ok == (old(state).num == max)
    {
      ok := state.num == max;
      state := Take(max, state, Cas(t));
    }

    /** One round, up to where the source starts over: with a result, or with a failed swap. */
    method Try(t: nat) returns (r: Option<nat>, ghost steps: seq<Step>, ghost last: Step)
      requires max >= 2 && state.num <= max && t !in state.atMax
      modifies this
      ensures state.num <= max && t !in state.atMax && last.thread == t
      ensures Legal(max, old(state), steps + [last]) && state == Run(max, old(state), steps + [last])
      ensures Filter(steps + [last], Of(t)) == if last.Add? then [last] else [Add(t), last]
      ensures r.Some? ==> state.returned == Run(max, old(state), steps).returned + [r.value]
      ensures r.None? ==> last.Cas? && |pending| < |old(pending)|
      ensures |pending| <= |old(pending)|
    {
      hide Legal, Run, Take, Enabled;
      ghost var start := state;
      steps := Interfere(t);
      OthersKeep(max, start, steps, t);
      FilterNone(steps, Of(t));
      ThreadEnabled(state, t);
      OwnStep(max, start, steps, Add(t), t);
      AddDecides(max, state, t);
      last := Add(t);
      var next := AddUint32(t);
      if next != max {
        return Some(next), steps, last;
      }
      ghost var reached := state;
      ghost var between := Interfere(t);
      steps := steps + [Add(t)] + between;
      RunConcat(max, start, steps[..|steps| - |between|], between);
      OthersKeep(max, reached, between, t);
      FilterConcat(steps[..|steps| - |between|], between, Of(t));
      FilterNone(between, Of(t));
      ThreadEnabled(state, t);
      OwnStep(max, start, steps, Cas(t), t);
      CasDecides(max, state, t);
      last := Cas(t);
      NothingRuns(max, reached);
      var ok := CompareAndSwapUint32(t);
      r := if ok then Some(1) else None;
    }

    /**
     * Next with other threads at work before each of its actions: what happens is a run of the
     * protocol in which this thread does nothing but the call, the last step decides the result, and
     * the call starts over at most once for every step of the others.
     */
    method Next(t: nat) returns (r: nat, ghost steps: seq<Step>, ghost last: Step, ghost failed: nat)
      requires max >= 2 && state.num <= max && t !in state.atMax
      modifies this
      ensures last.thread == t && Legal(max, old(state), steps + [last])
      ensures state == Run(max, old(state), steps + [last])
      ensures state.returned == Run(max, old(state), steps).returned + [r]
      ensures IsCall(Filter(steps + [last], Of(t)), t, failed)
      ensures failed <= |old(pending)| - |pending|
      decreases |pending|
    {
      hide Legal, Run, Take, Rounds, Filter;
      ghost var start := state;
      var tried;
      tried, steps, last := Try(t);
      NoRounds(t);
      if tried.Some? {
        return tried.value, steps, last, 0;
      }
      ghost var before := steps + [last];
      ghost var more;
      r, more, last, failed := Next(t);
      RunConcat(max, start, before, more + [last]);
      RunConcat(max, start, before, more);
      FilterConcat(before, more + [last], Of(t));
      steps := before + more;
      ConcatAssoc(before, more, [last]);
      OneMoreRound(t, Filter(more + [last], Of(t)), failed);
      failed := failed + 1;
    }
  }
}
