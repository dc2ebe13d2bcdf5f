/**
 * A gateway's registry and the counter its ids come from, in one run: goroutines draw numbers with
 * sequence.Next (wxf/wire/seq.go), make ids of them (wxf/services/gateway/serv/handler.go) and register
 * (wxf/websocket/server.go, wxf/tcp/server.go). The goroutine of connection `c` is thread `c` of the counter.
 */
module Gateway {
  import opened Bytes
  import Sequence
  import ChannelIds
  import Registry

  /** `drawn`: each thread's latest result, by position; `ticket`: the one a connection made its id of. */
  datatype State = State(
    counter: Sequence.State,
    registry: Registry.State,
    drawn: map<nat, nat>,
    ticket: map<nat, nat>)

  datatype Step =
    | Count(action: Sequence.Step)
    | Serve(event: Registry.Step, account: GoString)

  /**
   * The gateway's name, the largest value of the counter's word, and how many results at most, its own
   * included, may be drawn from a connection's number to the checks it waits at.
   */
  datatype Setting = Setting(service: GoString, max: nat, window: nat)

  /** The id of a connection is made of the latest number its goroutine drew, for any account. */
  predicate Enabled(g: Setting, s: State, step: Step) {
    match step
    case Count(action) => Sequence.Enabled(s.counter, action)
    case Serve(event, account) =>
      && Registry.Enabled(s.registry, event)
      && (event.AcceptOk? ==>
            && event.conn in s.drawn && s.drawn[event.conn] < |s.counter.returned|
            && event.id == ChannelIds.ChannelId(g.service, account, s.counter.returned[s.drawn[event.conn]]))
  }

  function Take(g: Setting, s: State, step: Step): State
    requires Enabled(g, s, step)
  {
    match step
    case Count(action) =>
      var next := Sequence.Take(g.max, s.counter, action);
      var decided := |next.returned| > |s.counter.returned|;
      s.(counter := next, drawn := if decided then s.drawn[action.thread := |s.counter.returned|] else s.drawn)
    case Serve(event, _) =>
      s.(registry := Registry.Take(s.registry, event),
         ticket := if event.AcceptOk? then s.ticket[event.conn := s.drawn[event.conn]] else s.ticket)
  }

  ghost predicate Legal(g: Setting, s: State, steps: seq<Step>)
    decreases |steps|
  {
    steps == [] || (Enabled(g, s, steps[0]) && Legal(g, Take(g, s, steps[0]), steps[1..]))
  }

  function Run(g: Setting, s: State, steps: seq<Step>): State
    requires Legal(g, s, steps)
    decreases |steps|
  {
    if steps == [] then s else Run(g, Take(g, s, steps[0]), steps[1..])
  }

  function Start(first: nat): State {
    State(Sequence.Start(first), Registry.EMPTY, map[], map[])
  }

  // ---- Numbers and their owners --------------------------------------------------------------

  /** The result of `c` is among the last ones, as many as the window has. */
  ghost predicate Recent(g: Setting, s: State, c: nat) {
    c in s.ticket ==> |s.counter.returned| - s.ticket[c] <= g.window
  }

  /** A connection passes the check within the window, and so have those waiting. */
  ghost predicate TimelyNow(g: Setting, s: State, step: Step) {
    step.Serve? && step.event.GetMisses? ==>
      && Recent(g, s, step.event.conn)
      && forall c :: Registry.PhaseOf(s.registry, c) == Registry.Checked ==> Recent(g, s, c)
  }

  ghost predicate Timely(g: Setting, s: State, steps: seq<Step>)
    requires Legal(g, s, steps)
    decreases |steps|
  {
    steps == [] || (TimelyNow(g, s, steps[0]) && Timely(g, Take(g, s, steps[0]), steps[1..]))
  }

  /** No result belongs to two threads. */
  ghost predicate Owned(s: State) {
    && (forall c :: c in s.drawn ==> s.drawn[c] < |s.counter.returned|)
    && (forall c :: c in s.ticket ==> s.ticket[c] < |s.counter.returned|)
    && (forall c, d :: c in s.drawn && d in s.drawn && c != d ==> s.drawn[c] != s.drawn[d])
    && (forall c, d :: c in s.ticket && d in s.drawn && c != d ==> s.ticket[c] != s.drawn[d])
    && (forall c, d :: c in s.ticket && d in s.ticket && c != d ==> s.ticket[c] != s.ticket[d])
  }

  ghost predicate MadeOf(g: Setting, s: State, c: nat, account: GoString) {
    && c in s.ticket && s.ticket[c] < |s.counter.returned| && c in s.registry.issued
    && s.registry.issued[c] == ChannelIds.ChannelId(g.service, account, s.counter.returned[s.ticket[c]])
  }

  ghost predicate IdsMade(g: Setting, s: State) {
    forall c :: c in s.registry.issued ==> exists account :: MadeOf(g, s, c, account)
  }

  ghost predicate Inv(g: Setting, first: nat, s: State) {
    && Sequence.Inv(g.max, first, s.counter)
    && Registry.Inv(s.registry)
    && Owned(s)
    && IdsMade(g, s)
  }

  lemma CounterGrows(max: nat, s: Sequence.State, action: Sequence.Step)
    ensures s.returned <= Sequence.Take(max, s, action).returned
  {
  }

  lemma StepKeepsOwned(g: Setting, s: State, step: Step)
    requires Enabled(g, s, step) && Owned(s)
    ensures Owned(Take(g, s, step))
  {
    hide Sequence.Take, Registry.Take, Registry.Enabled, Sequence.Enabled;
    if step.Count? {
      CounterGrows(g.max, s.counter, step.action);
    }
  }

  /** A connection is issued its id once. */
  lemma IssuedOnce(s: Registry.State, step: Registry.Step)
    requires Registry.Enabled(s, step) && Registry.IdsKnown(s)
    ensures Registry.Take(s, step).issued
         == if step.AcceptOk? then s.issued[step.conn := step.id] else s.issued
    ensures step.AcceptOk? ==> step.conn !in s.issued
  {
  }

  lemma StepKeepsMade(g: Setting, s: State, step: Step)
    requires Enabled(g, s, step) && Owned(s) && IdsMade(g, s) && Registry.IdsKnown(s.registry)
    ensures IdsMade(g, Take(g, s, step))
  {
    hide Sequence.Take, Registry.Take, Registry.Enabled, Sequence.Enabled, ChannelIds.ChannelId, Owned,
      Registry.IdsKnown;
    var s' := Take(g, s, step);
    if step.Count? {
      CounterGrows(g.max, s.counter, step.action);
    } else {
      IssuedOnce(s.registry, step.event);
    }
    forall c | c in s'.registry.issued
      ensures exists account :: MadeOf(g, s', c, account)
    {
      if step.Serve? && step.event.AcceptOk? && step.event.conn == c {
        assert MadeOf(g, s', c, step.account);
      } else {
        var account :| MadeOf(g, s, c, account);
        assert MadeOf(g, s', c, account);
      }
    }
  }

  /** Ids made of results close together differ. */
  lemma IdsApart(g: Setting, first: nat, s: State, c: nat, d: nat)
    requires g.window < g.max && g.max >= 2
    requires Sequence.Inv(g.max, first, s.counter) && Owned(s) && IdsMade(g, s)
    requires c != d && c in s.registry.issued && d in s.registry.issued
    requires Recent(g, s, c) && Recent(g, s, d)
    ensures s.registry.issued[c] != s.registry.issued[d]
  {
    hide Sequence.Inv, ChannelIds.ChannelId;
    Sequence.InvDistinct(g.max, first, s.counter);
    var a :| MadeOf(g, s, c, a);
    var b :| MadeOf(g, s, d, b);
    var r := s.counter.returned;
    ChannelIds.IdInjective(g.service, a, r[s.ticket[c]], b, r[s.ticket[d]]);
  }

  lemma TimelyNoRace(g: Setting, first: nat, s: State, step: Step)
    requires g.window < g.max && g.max >= 2 && Inv(g, first, s)
    requires Enabled(g, s, step) && TimelyNow(g, s, step) && step.Serve?
    ensures Registry.NoRaceNow(s.registry, step.event)
  {
    hide Registry.Inv, Sequence.Inv, Owned, IdsMade, Recent;
    var r := s.registry;
    if step.event.GetMisses? && step.event.conn in r.issued {
      var me := step.event.conn;
      forall c | Registry.PhaseOf(r, c) == Registry.Checked && c in r.issued
        ensures r.issued[c] != r.issued[me]
      {
        IdsApart(g, first, s, c, me);
      }
    }
  }

  lemma StepKeepsInv(g: Setting, first: nat, s: State, step: Step)
    requires g.window < g.max && g.max >= 2 && Inv(g, first, s) && Enabled(g, s, step) && TimelyNow(g, s, step)
    ensures Inv(g, first, Take(g, s, step))
  {
    StepKeepsOwned(g, s, step);
    StepKeepsMade(g, s, step);
    hide Sequence.Inv, Owned, IdsMade, Sequence.Take, Registry.Take, Registry.Inv;
    if step.Count? {
      Sequence.StepKeepsInv(g.max, first, s.counter, step.action);
    } else {
      TimelyNoRace(g, first, s, step);
      Registry.StepKeepsInv(s.registry, step.event);
    }
  }

  lemma {:induction false} RunKeepsInv(g: Setting, first: nat, s: State, steps: seq<Step>)
    requires g.window < g.max && g.max >= 2 && Inv(g, first, s) && Legal(g, s, steps) && Timely(g, s, steps)
    ensures Inv(g, first, Run(g, s, steps))
    decreases |steps|
  {
    hide Inv, Enabled, Take, TimelyNow;
    if steps != [] {
      StepKeepsInv(g, first, s, steps[0]);
      RunKeepsInv(g, first, Take(g, s, steps[0]), steps[1..]);
    }
  }

  /**
   * A gateway's registry is safe, with the counter running under it, as long as no more than max - 1
   * results are drawn from a connection's number to its check and while it waits behind it.
   */
  lemma GatewayRegistrySafe(g: Setting, first: nat, steps: seq<Step>)
    requires g.window < g.max && g.max >= 2 && first < g.max
    requires Legal(g, Start(first), steps) && Timely(g, Start(first), steps)
    ensures Registry.Inv(Run(g, Start(first), steps).registry)
  {
    Registry.EmptySafe();
    assert Sequence.Inv(g.max, first, Sequence.Start(first));
    RunKeepsInv(g, first, Start(first), steps);
  }

  // ---- The window is needed ------------------------------------------------------------------

  lemma {:induction false} RunConcat(g: Setting, s: State, a: seq<Step>, b: seq<Step>)
    requires Legal(g, s, a)
    ensures Legal(g, s, a + b) <==> Legal(g, Run(g, s, a), b)
    ensures Legal(g, s, a + b) ==>
              && Run(g, s, a + b) == Run(g, Run(g, s, a), b)
              && (Timely(g, s, a + b) <==> Timely(g, s, a) && Timely(g, Run(g, s, a), b))
    decreases |a|
  {
    hide Enabled, Take, TimelyNow;
    if a == [] {
      assert a + b == b;
    } else {
      assert (a + b)[1..] == a[1..] + b;
      RunConcat(g, Take(g, s, a[0]), a[1..], b);
    }
  }

  lemma Nothing(g: Setting, s: State)
    ensures Legal(g, s, []) && Run(g, s, []) == s && Timely(g, s, [])
  {
  }

  lemma Then(g: Setting, s: State, steps: seq<Step>, step: Step)
    requires Legal(g, s, steps) && Enabled(g, Run(g, s, steps), step)
    ensures Legal(g, s, steps + [step]) && Run(g, s, steps + [step]) == Take(g, Run(g, s, steps), step)
    ensures Timely(g, s, steps + [step]) <==> Timely(g, s, steps) && TimelyNow(g, Run(g, s, steps), step)
  {
    hide Enabled, Take, TimelyNow;
    var t := Take(g, Run(g, s, steps), step);
    RunConcat(g, s, steps, [step]);
    assert [step][1..] == [];
    Nothing(g, t);
    assert Run(g, Run(g, s, steps), [step]) == Run(g, t, []);
  }

  /** The state after thread `t` has drawn one more number with nobody in between. */
  function Drew(g: Setting, s: State, t: nat): State {
    var v := Sequence.NextValue(g.max, s.counter.num);
    s.(counter := Sequence.State(v, s.counter.atMax, s.counter.returned + [v]),
       drawn := s.drawn[t := |s.counter.returned|])
  }

  lemma Draw(g: Setting, s: State, t: nat) returns (steps: seq<Step>)
    requires g.max >= 2 && s.counter.num < g.max && t !in s.counter.atMax
    ensures Legal(g, s, steps) && Run(g, s, steps) == Drew(g, s, t) && Timely(g, s, steps)
  {
    Nothing(g, s);
    steps := [] + [Count(Sequence.Add(t))];
    Then(g, s, [], Count(Sequence.Add(t)));
    if s.counter.num + 1 == g.max {
      var s1 := Run(g, s, steps);
      Then(g, s, steps, Count(Sequence.Cas(t)));
      steps := steps + [Count(Sequence.Cas(t))];
      assert s1.counter.atMax - {t} == s.counter.atMax;
    }
  }

  /** A number of draws in a row. */
  lemma {:induction false} DrawAll(g: Setting, s: State, t: nat, k: nat) returns (steps: seq<Step>)
    requires g.max >= 2 && 1 <= s.counter.num < g.max && t !in s.counter.atMax && k > 0
    ensures Legal(g, s, steps) && Timely(g, s, steps)
    ensures var e := Run(g, s, steps);
            && e.registry == s.registry && e.ticket == s.ticket && s.counter.returned <= e.counter.returned
            && |e.counter.returned| == |s.counter.returned| + k
            && e.drawn == s.drawn[t := |e.counter.returned| - 1]
            && e.counter.returned[|e.counter.returned| - 1] == Sequence.NextTimes(g.max, s.counter.num, k)
            && e.counter.num == Sequence.NextTimes(g.max, s.counter.num, k)
            && e.counter.atMax == s.counter.atMax
    decreases k
  {
    hide Legal, Run, Enabled, Take, Timely;
    Sequence.SequentialCycle(g.max, s.counter.num, k);
    if k == 1 {
      steps := Draw(g, s, t);
      assert Sequence.NextTimes(g.max, s.counter.num, 0) == s.counter.num;
    } else {
      var front := DrawAll(g, s, t, k - 1);
      Sequence.SequentialCycle(g.max, s.counter.num, k - 1);
      var last := Draw(g, Run(g, s, front), t);
      RunConcat(g, s, front, last);
      steps := front + last;
    }
  }

  /** After max - 1 draws a number comes back. */
  lemma FullCycle(max: nat, n: nat)
    requires max >= 2 && 1 <= n < max
    ensures Sequence.NextTimes(max, n, max - 1) == n
  {
    Sequence.SequentialCycle(max, n, max - 1);
    DivModUnique(n - 1 + (max - 1), max - 1, 1, n - 1);
  }

  /** A connection is accepted with the number it drew, and passes the check. */
  lemma Admit(g: Setting, s: State, c: nat, account: GoString) returns (steps: seq<Step>)
    requires c in s.drawn && s.drawn[c] < |s.counter.returned| && Registry.PhaseOf(s.registry, c) == Registry.Fresh
    requires s.registry.channels == map[] && |s.counter.returned| - s.drawn[c] <= g.window
    requires forall d :: Registry.PhaseOf(s.registry, d) == Registry.Checked ==> d != c && Recent(g, s, d)
    ensures Legal(g, s, steps) && Timely(g, s, steps)
    ensures var id := ChannelIds.ChannelId(g.service, account, s.counter.returned[s.drawn[c]]);
            Run(g, s, steps) == s.(ticket := s.ticket[c := s.drawn[c]],
                                   registry := s.registry.(
                                     phase := s.registry.phase[c := Registry.Checked],
                                     issued := s.registry.issued[c := id]))
  {
    hide ChannelIds.ChannelId;
    var id := ChannelIds.ChannelId(g.service, account, s.counter.returned[s.drawn[c]]);
    Nothing(g, s);
    steps := [] + [Serve(Registry.AcceptOk(c, id), account)];
    Then(g, s, [], Serve(Registry.AcceptOk(c, id), account));
    var s1 := Run(g, s, steps);
    assert s1.registry.phase[c := Registry.Checked] == s.registry.phase[c := Registry.Checked];
    assert Recent(g, s1, c);
    forall d | Registry.PhaseOf(s1.registry, d) == Registry.Checked
      ensures Recent(g, s1, d)
    {
      assert Recent(g, s, d);
    }
    Then(g, s, steps, Serve(Registry.GetMisses(c), []));
    steps := steps + [Serve(Registry.GetMisses(c), [])];
  }

  /** Two connections with one id past the check are both added. */
  lemma AddBoth(g: Setting, s: State, c: nat, d: nat) returns (steps: seq<Step>)
    requires c != d && c in s.registry.issued && d in s.registry.issued
    requires s.registry.issued[c] == s.registry.issued[d]
    requires Registry.PhaseOf(s.registry, c) == Registry.PhaseOf(s.registry, d) == Registry.Checked
    ensures Legal(g, s, steps) && Timely(g, s, steps) && !Registry.MapExact(Run(g, s, steps).registry)
  {
    hide Registry.MapExact;
    Nothing(g, s);
    steps := [] + [Serve(Registry.Add(c), [])];
    Then(g, s, [], Serve(Registry.Add(c), []));
    Then(g, s, steps, Serve(Registry.Add(d), []));
    steps := steps + [Serve(Registry.Add(d), [])];
    Registry.NotTheirs(Run(g, s, steps).registry, c, s.registry.issued[c]);
  }

  /**
   * The window is the widest one, for every maximum: with one result more, a connection can wait past
   * the check while the last of max - 1 further results goes to a connection of the same account. Both
   * get one id, both are added, and the map is wrong.
   */
  lemma WindowNeeded(g: Setting, first: nat, account: GoString) returns (steps: seq<Step>)
    requires g.window == g.max >= 2 && 1 <= first < g.max
    ensures Legal(g, Start(first), steps) && Timely(g, Start(first), steps)
    ensures !Registry.MapExact(Run(g, Start(first), steps).registry)
  {
    hide Legal, Run, Timely, Enabled, Take, Registry.MapExact, ChannelIds.ChannelId;
    var s0 := Start(first);
    var a := Draw(g, s0, 1);
    var s1 := Run(g, s0, a);
    var b := Admit(g, s1, 1, account);
    var s2 := Run(g, s1, b);
    var n := s2.counter.num;
    Sequence.SequentialCycle(g.max, first, 1);
    var c := DrawAll(g, s2, 2, g.max - 1);
    var s3 := Run(g, s2, c);
    FullCycle(g.max, n);
    var d := Admit(g, s3, 2, account);
    var s4 := Run(g, s3, d);
    var e := AddBoth(g, s4, 1, 2);
    RunConcat(g, s3, d, e);
    RunConcat(g, s2, c, d + e);
    RunConcat(g, s1, b, c + (d + e));
    RunConcat(g, s0, a, b + (c + (d + e)));
    steps := a + (b + (c + (d + e)));
  }
}
