/**
 * Server.Push at a gateway (wxf/websocket/server.go, wxf/tcp/server.go) down to the channels of its
 * clients (wxf/channel.go): the registry and one channel for each connection, in one run.
 */
module Delivery {
  import opened Bytes
  import Routing
  import Registry
  import ChannelWriter

  /** A payload handed to the channel of a connection by a push for an id. */
  datatype Handed = Handed(conn: nat, id: GoString, data: bytes)

  datatype State = State(
    registry: Registry.State,
    channels: map<nat, ChannelWriter.State>,
    data: map<nat, bytes>,                     // what the pushes under way carry
    log: seq<Handed>)

  datatype Step =
    | Serve(event: Registry.Step)
    | Look(push: nat, id: GoString, data: bytes)   // the Get of a push
    | Call(push: nat)                              // its ch.Push, up to the HasFired check
    | At(conn: nat, action: ChannelWriter.Step)

  const START := State(Registry.EMPTY, map[], map[], [])

  function ChannelOf(s: State, c: nat): ChannelWriter.State {
    if c in s.channels then s.channels[c] else ChannelWriter.START
  }

  predicate Enabled(s: State, step: Step) {
    match step
    case Serve(event) => !event.PushGet? && !event.PushSend? && Registry.Enabled(s.registry, event)
    case Look(p, id, _) => Registry.Enabled(s.registry, Registry.PushGet(p, id))
    case Call(p) =>
      && Registry.Enabled(s.registry, Registry.PushSend(p)) && p in s.data
      && ChannelWriter.Enabled(ChannelOf(s, s.registry.found[p].1), ChannelWriter.PushCheck(p, s.data[p]))
    case At(c, action) => !action.PushCheck? && ChannelWriter.Enabled(ChannelOf(s, c), action)
  }

  function Take(s: State, step: Step): State
    requires Enabled(s, step)
  {
    match step
    case Serve(event) => s.(registry := Registry.Take(s.registry, event))
    case Look(p, id, data) =>
      s.(registry := Registry.Take(s.registry, Registry.PushGet(p, id)), data := s.data[p := data])
    case Call(p) =>
      var (id, c) := s.registry.found[p];
      State(
        Registry.Take(s.registry, Registry.PushSend(p)),
        s.channels[c := ChannelWriter.Take(ChannelOf(s, c), ChannelWriter.PushCheck(p, s.data[p]))],
        s.data,
        s.log + [Handed(c, id, s.data[p])])
    case At(c, action) => s.(channels := s.channels[c := ChannelWriter.Take(ChannelOf(s, c), action)])
  }

  ghost predicate Legal(s: State, steps: seq<Step>)
    decreases |steps|
  {
    steps == [] || (Enabled(s, steps[0]) && Legal(Take(s, steps[0]), steps[1..]))
  }

  function Run(s: State, steps: seq<Step>): State
    requires Legal(s, steps)
    decreases |steps|
  {
    if steps == [] then s else Run(Take(s, steps[0]), steps[1..])
  }

  // ---- Nobody gets what was not pushed to it -------------------------------------------------

  /** The payloads handed to one connection. */
  function HandedTo(log: seq<Handed>, c: nat): seq<bytes> {
    if log == [] then []
    else
      var front := HandedTo(log[..|log| - 1], c);
      if log[|log| - 1].conn == c then front + [log[|log| - 1].data] else front
  }

  /** A connection's channel has each payload handed to it exactly once: accepted, refused or waiting. */
  ghost predicate Balanced(s: State) {
    forall c, x :: multiset(HandedTo(s.log, c))[x] == ChannelWriter.CameIn(ChannelOf(s, c), x)
  }

  ghost predicate Addressed(s: State) {
    forall i :: 0 <= i < |s.log| ==> Registry.IssuedTo(s.registry, s.log[i].id, s.log[i].conn)
  }

  ghost predicate ChannelsKeep(s: State) {
    forall c :: ChannelWriter.Inv(ChannelOf(s, c))
  }

  ghost predicate Inv(s: State) {
    && Registry.Sound(s.registry) && ChannelsKeep(s) && Balanced(s) && Addressed(s)
    && forall p :: p in s.registry.found ==> p in s.data
  }

  /** The step of the registry in a step of both. */
  function EventOf(s: State, step: Step): Option<Registry.Step> {
    match step
    case Serve(event) => Some(event)
    case Look(p, id, _) => Some(Registry.PushGet(p, id))
    case Call(p) => Some(Registry.PushSend(p))
    case At(_, _) => None
  }

  /** The step of a channel in a step of both, and whose channel it is. */
  function ActionOf(s: State, step: Step): Option<(nat, ChannelWriter.Step)>
    requires Enabled(s, step)
  {
    match step
    case Call(p) => Some((s.registry.found[p].1, ChannelWriter.PushCheck(p, s.data[p])))
    case At(c, action) => Some((c, action))
    case _ => None
  }

  lemma RegistryMoves(s: State, step: Step)
    requires Enabled(s, step)
    ensures EventOf(s, step).Some? ==>
              && Registry.Enabled(s.registry, EventOf(s, step).value)
              && Take(s, step).registry == Registry.Take(s.registry, EventOf(s, step).value)
    ensures EventOf(s, step).None? ==> Take(s, step).registry == s.registry
  {
  }

  lemma ChannelMoves(s: State, step: Step, c: nat)
    requires Enabled(s, step)
    ensures var a := ActionOf(s, step);
            if a.Some? && a.value.0 == c
            then && ChannelWriter.Enabled(ChannelOf(s, c), a.value.1)
                 && ChannelOf(Take(s, step), c) == ChannelWriter.Take(ChannelOf(s, c), a.value.1)
            else ChannelOf(Take(s, step), c) == ChannelOf(s, c)
  {
    hide Registry.Take, ChannelWriter.Take, Registry.Enabled, ChannelWriter.Enabled;
  }

  lemma HandedGrows(log: seq<Handed>, h: Handed, c: nat)
    ensures HandedTo(log + [h], c) == HandedTo(log, c) + if h.conn == c then [h.data] else []
  {
    assert (log + [h])[..|log|] == log;
  }

  lemma StepKeepsBalance(s: State, step: Step)
    requires Enabled(s, step) && Balanced(s)
    ensures Balanced(Take(s, step))
  {
    hide Registry.Take, ChannelWriter.Take, ChannelWriter.CameIn, HandedTo, Registry.Enabled, ChannelWriter.Enabled;
    var s' := Take(s, step);
    forall c, x
      ensures multiset(HandedTo(s'.log, c))[x] == ChannelWriter.CameIn(ChannelOf(s', c), x)
    {
      ChannelMoves(s, step, c);
      var a := ActionOf(s, step);
      if a.Some? && a.value.0 == c {
        ChannelWriter.StepBalances(ChannelOf(s, c), a.value.1, x);
      }
      if step.Call? {
        HandedGrows(s.log, s'.log[|s.log|], c);
      }
    }
  }

  lemma StepKeepsChannels(s: State, step: Step)
    requires Enabled(s, step) && ChannelsKeep(s)
    ensures ChannelsKeep(Take(s, step))
  {
    hide ChannelWriter.Inv, Enabled, Take, ActionOf, ChannelWriter.Enabled, ChannelWriter.Take;
    forall c
      ensures ChannelWriter.Inv(ChannelOf(Take(s, step), c))
    {
      ChannelMoves(s, step, c);
      var a := ActionOf(s, step);
      if a.Some? && a.value.0 == c {
        ChannelWriter.StepKeepsInv(ChannelOf(s, c), a.value.1);
      }
    }
  }

  lemma StepKeepsAddressed(s: State, step: Step)
    requires Enabled(s, step) && Addressed(s) && Registry.IdsKnown(s.registry) && Registry.PushesRight(s.registry)
    ensures Addressed(Take(s, step))
  {
    hide ChannelWriter.Take, ChannelWriter.Enabled;
    RegistryMoves(s, step);
    if EventOf(s, step).Some? {
      Registry.KnownStep(s.registry, EventOf(s, step).value);
      StillIssued(s.registry, EventOf(s, step).value);
    }
  }

  lemma StillIssued(r: Registry.State, event: Registry.Step)
    requires Registry.Enabled(r, event) && Registry.IdsKnown(r)
    ensures forall id, c :: Registry.IssuedTo(r, id, c) ==> Registry.IssuedTo(Registry.Take(r, event), id, c)
  {
    Registry.KnownStep(r, event);
  }

  lemma StepKeepsInv(s: State, step: Step)
    requires Enabled(s, step) && Inv(s)
    ensures Inv(Take(s, step))
  {
    hide ChannelsKeep, Balanced, ChannelWriter.Take, ChannelWriter.Enabled, Registry.IdsKnown,
      Registry.PushesRight, Registry.LogExact, Addressed;
    StepKeepsChannels(s, step);
    StepKeepsBalance(s, step);
    StepKeepsAddressed(s, step);
    RegistryMoves(s, step);
    if EventOf(s, step).Some? {
      Registry.StepKeepsSound(s.registry, EventOf(s, step).value);
    }
  }

  lemma {:induction false} RunKeepsInv(s: State, steps: seq<Step>)
    requires Legal(s, steps) && Inv(s)
    ensures Inv(Run(s, steps))
    decreases |steps|
  {
    hide Inv, Take, Enabled;
    if steps != [] {
      StepKeepsInv(s, steps[0]);
      RunKeepsInv(Take(s, steps[0]), steps[1..]);
    }
  }

  lemma StartSafe()
    ensures Inv(START)
  {
    Registry.EmptySafe();
    ChannelWriter.WrittenEmpty();
    assert ChannelWriter.Waiting(map[], []) == {};
    forall x: bytes
      ensures ChannelWriter.CameIn(ChannelWriter.START, x) == 0
    {
      assert ChannelWriter.Waiting(map[], x) == {};
    }
  }

  /**
   * Isolation, in every run of accepts, pushes, writers and closes, races included: what is written to
   * a connection was handed to its channel by a push for the id issued to that connection, and it is
   * written no more often than it was handed over.
   */
  lemma OnlyTheirs(steps: seq<Step>, c: nat, x: bytes)
    requires Legal(START, steps)
    ensures var s := Run(START, steps);
            var written := ChannelWriter.Written(ChannelOf(s, c).wire);
            && multiset(written)[x] <= multiset(HandedTo(s.log, c))[x]
            && (x in written ==>
                  exists i :: 0 <= i < |s.log| && s.log[i].conn == c && s.log[i].data == x
                           && Registry.IssuedTo(s.registry, s.log[i].id, c))
  {
    hide Legal, Run, HandedTo, ChannelWriter.Written, Registry.Sound;
    StartSafe();
    RunKeepsInv(START, steps);
    var s := Run(START, steps);
    var ch := ChannelOf(s, c);
    assert ChannelWriter.Inv(ch);
    var written := ChannelWriter.Written(ch.wire);
    assert multiset(ch.accepted)[x] >= multiset(written)[x];
    if x in written {
      assert x in multiset(written);
      FromLog(s.log, c, x);
    }
  }

  lemma {:induction false} FromLog(log: seq<Handed>, c: nat, x: bytes)
    requires multiset(HandedTo(log, c))[x] > 0
    ensures exists i :: 0 <= i < |log| && log[i].conn == c && log[i].data == x
  {
    var last := |log| - 1;
    if log[last].conn != c || log[last].data != x {
      FromLog(log[..last], c, x);
      var i :| 0 <= i < last && log[..last][i].conn == c && log[..last][i].data == x;
      assert log[i].conn == c && log[i].data == x;
    }
  }

  // ---- A push for a live connection arrives --------------------------------------------------

  lemma {:induction false} RunConcat(s: State, a: seq<Step>, b: seq<Step>)
    requires Legal(s, a)
    ensures Legal(s, a + b) <==> Legal(Run(s, a), b)
    ensures Legal(s, a + b) ==> Run(s, a + b) == Run(Run(s, a), b)
    decreases |a|
  {
    hide Enabled, Take;
    if a == [] {
      assert a + b == b;
    } else {
      assert (a + b)[1..] == a[1..] + b;
      RunConcat(Take(s, a[0]), a[1..], b);
    }
  }

  lemma Nothing(s: State)
    ensures Legal(s, []) && Run(s, []) == s
  {
  }

  /** The id's channel takes payloads: no close has fired, and there is room in its queue. */
  predicate Open(s: State, id: GoString, p: nat) {
    && id in s.registry.channels
    && var ch := ChannelOf(s, s.registry.channels[id]);
    && !ch.fired && |ch.queue| < ChannelWriter.CAPACITY && p !in ch.pushing
  }

  /** Nothing but one channel, and what the registry noted of the push, has changed. */
  ghost predicate OnlyAt(s: State, t: State, c: nat) {
    && t.registry.channels == s.registry.channels && t.registry.phase == s.registry.phase
    && t.registry.issued == s.registry.issued && t.registry.found == s.registry.found
    && forall d :: d != c ==> ChannelOf(t, d) == ChannelOf(s, d)
  }

  lemma Then(s: State, steps: seq<Step>, step: Step)
    requires Legal(s, steps) && Enabled(Run(s, steps), step)
    ensures Legal(s, steps + [step]) && Run(s, steps + [step]) == Take(Run(s, steps), step)
  {
    hide Enabled, Take;
    var t := Take(Run(s, steps), step);
    RunConcat(s, steps, [step]);
    assert [step][1..] == [];
    Nothing(t);
    assert Run(Run(s, steps), [step]) == Run(t, []);
  }

  /** The first two actions of a push: the payload waits at the channel. */
  lemma PushWaits(s: State, p: nat, id: GoString, data: bytes)
    requires p !in s.registry.found && Open(s, id, p)
    ensures Enabled(s, Look(p, id, data)) && Enabled(Take(s, Look(p, id, data)), Call(p))
    ensures var c := s.registry.channels[id];
            var t := Take(Take(s, Look(p, id, data)), Call(p));
            && OnlyAt(s, t, c)
            && ChannelOf(t, c) == ChannelOf(s, c).(pushing := ChannelOf(s, c).pushing[p := data])
  {
    var t := Take(Take(s, Look(p, id, data)), Call(p));
    assert t.registry.found == s.registry.found;
  }

  lemma WaitingGoesIn(s: State, p: nat, c: nat)
    requires ChannelWriter.Enabled(ChannelOf(s, c), ChannelWriter.PushSend(p))
    ensures Enabled(s, At(c, ChannelWriter.PushSend(p)))
    ensures var t := Take(s, At(c, ChannelWriter.PushSend(p)));
            OnlyAt(s, t, c) && ChannelOf(t, c) == ChannelWriter.Take(ChannelOf(s, c), ChannelWriter.PushSend(p))
  {
  }

  lemma SentInto(ch: ChannelWriter.State, p: nat, data: bytes)
    requires p !in ch.pushing && |ch.queue| < ChannelWriter.CAPACITY
    ensures var w := ch.(pushing := ch.pushing[p := data]);
            && ChannelWriter.Enabled(w, ChannelWriter.PushSend(p))
            && ChannelWriter.Take(w, ChannelWriter.PushSend(p))
               == ch.(queue := ch.queue + [data], accepted := ch.accepted + [data])
  {
    assert ch.pushing[p := data] - {p} == ch.pushing;
  }

  /** A push for the id of a connection between Add and Remove whose channel is open is accepted there. */
  lemma PushArrives(s: State, p: nat, id: GoString, data: bytes) returns (steps: seq<Step>)
    requires p !in s.registry.found && Open(s, id, p)
    ensures Legal(s, steps)
    ensures var c := s.registry.channels[id];
            var t := Run(s, steps);
            && OnlyAt(s, t, c)
            && ChannelOf(t, c) == ChannelOf(s, c).(
                 queue := ChannelOf(s, c).queue + [data], accepted := ChannelOf(s, c).accepted + [data])
  {
    hide Enabled, Take, Legal, Run, ChannelOf, ChannelWriter.Enabled, ChannelWriter.Take;
    var c := s.registry.channels[id];
    Nothing(s);
    PushWaits(s, p, id, data);
    Then(s, [], Look(p, id, data));
    Then(s, [] + [Look(p, id, data)], Call(p));
    steps := [] + [Look(p, id, data)] + [Call(p)];
    SentInto(ChannelOf(s, c), p, data);
    WaitingGoesIn(Run(s, steps), p, c);
    Then(s, steps, At(c, ChannelWriter.PushSend(p)));
    steps := steps + [At(c, ChannelWriter.PushSend(p))];
  }

  ghost predicate Distinct(pushes: seq<Routing.Push>) {
    forall i, j :: 0 <= i < j < |pushes| ==> pushes[i].channel != pushes[j].channel
  }

  ghost predicate AllOpen(s: State, pushes: seq<Routing.Push>, p: nat) {
    forall i :: 0 <= i < |pushes| ==> Open(s, pushes[i].channel, p)
  }

  /** The connection a push is for. */
  function Target(s: State, push: Routing.Push): Option<nat> {
    if push.channel in s.registry.channels then Some(s.registry.channels[push.channel]) else None
  }

  /** Each push has come to its channel, and no other channel has changed. */
  ghost predicate AllAccepted(s: State, t: State, pushes: seq<Routing.Push>) {
    && t.registry.channels == s.registry.channels && t.registry.phase == s.registry.phase
    && t.registry.issued == s.registry.issued && t.registry.found == s.registry.found
    && (forall i, c :: 0 <= i < |pushes| && Target(s, pushes[i]) == Some(c) ==>
          ChannelOf(t, c).accepted == ChannelOf(s, c).accepted + [pushes[i].data])
    && (forall c: nat :: (forall i :: 0 <= i < |pushes| ==> Target(s, pushes[i]) != Some(c)) ==>
          ChannelOf(t, c) == ChannelOf(s, c))
  }

  lemma TargetsDiffer(s: State, a: Routing.Push, b: Routing.Push)
    requires Registry.PushesRight(s.registry) && a.channel != b.channel && Target(s, a).Some?
    ensures Target(s, a) != Target(s, b)
  {
  }

  lemma AcceptedMore(s: State, t: State, u: State, front: seq<Routing.Push>, last: Routing.Push, c: nat)
    requires Registry.PushesRight(s.registry) && AllAccepted(s, t, front) && Target(s, last) == Some(c)
    requires forall i :: 0 <= i < |front| ==> Target(s, front[i]).Some? && front[i].channel != last.channel
    requires OnlyAt(t, u, c) && ChannelOf(u, c).accepted == ChannelOf(t, c).accepted + [last.data]
    ensures AllAccepted(s, u, front + [last])
  {
    hide Registry.PushesRight, ChannelOf, Target;
    var all := front + [last];
    forall i | 0 <= i < |front|
      ensures Target(s, front[i]) != Some(c)
    {
      TargetsDiffer(s, front[i], last);
    }
    forall i, d | 0 <= i < |all| && Target(s, all[i]) == Some(d)
      ensures ChannelOf(u, d).accepted == ChannelOf(s, d).accepted + [all[i].data]
    {
      if i < |front| {
        assert all[i] == front[i] && d != c;
      }
    }
    forall d: nat | forall i :: 0 <= i < |all| ==> Target(s, all[i]) != Some(d)
      ensures ChannelOf(u, d) == ChannelOf(s, d)
    {
      assert all[|front|] == last;
      assert forall i :: 0 <= i < |front| ==> all[i] == front[i];
    }
  }

  /**
   * A list of pushes for different ids, each of a connection between Add and Remove whose channel is
   * open, made one after the other: each is accepted by its channel, and nothing else changes.
   */
  lemma {:induction false} AllArrive(s: State, p: nat, pushes: seq<Routing.Push>) returns (steps: seq<Step>)
    requires p !in s.registry.found && Registry.PushesRight(s.registry)
    requires Distinct(pushes) && AllOpen(s, pushes, p)
    ensures Legal(s, steps) && AllAccepted(s, Run(s, steps), pushes)
    decreases |pushes|
  {
    hide Registry.PushesRight, Legal, Run;
    Nothing(s);
    if pushes == [] {
      steps := [];
    } else {
      var front, last := pushes[..|pushes| - 1], pushes[|pushes| - 1];
      assert pushes == front + [last];
      var before := AllArrive(s, p, front);
      var t := Run(s, before);
      assert Open(s, last.channel, p);
      var c := s.registry.channels[last.channel];
      forall i | 0 <= i < |front|
        ensures Target(s, front[i]).Some? && front[i].channel != last.channel && Target(s, front[i]) != Some(c)
      {
        assert front[i] == pushes[i] && Open(s, pushes[i].channel, p);
        TargetsDiffer(s, front[i], last);
      }
      assert ChannelOf(t, c) == ChannelOf(s, c);
      var more := PushArrives(t, p, last.channel, last.data);
      RunConcat(s, before, more);
      AcceptedMore(s, t, Run(t, more), front, last, c);
      steps := before + more;
    }
  }
}
