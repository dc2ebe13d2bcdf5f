/**
 * The connection registry of wxf/tcp/server.go and wxf/websocket/server.go: every accepted connection
 * runs Accept, Get, Add, Readloop, Remove, Disconnect, Close on its own, pushes look the map up in
 * between, and each access to the map is one atomic action.
 */
module Registry {
  import opened Bytes

  /** Where a connection's goroutine stands. */
  datatype Phase = Fresh | Accepted | Checked | Serving | Removed | Disconnected | Closed | Refused

  datatype Event = Added(conn: nat) | RemovedFrom(conn: nat) | DisconnectCalled(conn: nat) | ClosedConn(conn: nat)

  datatype State = State(
    phase: map<nat, Phase>,
    issued: map<nat, GoString>,
    channels: map<GoString, nat>,
    found: map<nat, (GoString, nat)>,     // pushes between their Get and their ch.Push
    delivered: seq<(GoString, nat)>,
    log: seq<Event>)

  datatype Step =
    | AcceptOk(conn: nat, id: GoString)
    | AcceptFails(conn: nat)
    | GetMisses(conn: nat)
    | GetHits(conn: nat)
    | Add(conn: nat)
    | Remove(conn: nat)
    | Disconnect(conn: nat)
    | Close(conn: nat)
    | PushGet(push: nat, id: GoString)
    | PushSend(push: nat)

  const EMPTY := State(map[], map[], map[], map[], [], [])

  function PhaseOf(s: State, c: nat): Phase {
    if c in s.phase then s.phase[c] else Fresh
  }

  predicate Enabled(s: State, step: Step) {
    match step
    case AcceptOk(c, _) => PhaseOf(s, c) == Fresh
    case AcceptFails(c) => PhaseOf(s, c) == Fresh
    case GetMisses(c) => PhaseOf(s, c) == Accepted && c in s.issued && s.issued[c] !in s.channels
    case GetHits(c) => PhaseOf(s, c) == Accepted && c in s.issued && s.issued[c] in s.channels
    case Add(c) => PhaseOf(s, c) == Checked && c in s.issued
    case Remove(c) => PhaseOf(s, c) == Serving && c in s.issued
    case Disconnect(c) => PhaseOf(s, c) == Removed
    case Close(c) => PhaseOf(s, c) == Disconnected
    case PushGet(p, _) => p !in s.found
    case PushSend(p) => p in s.found
  }

  function Take(s: State, step: Step): State
    requires Enabled(s, step)
  {
    match step
    case AcceptOk(c, id) => s.(phase := s.phase[c := Accepted], issued := s.issued[c := id])
    case AcceptFails(c) => s.(phase := s.phase[c := Refused])
    case GetMisses(c) => s.(phase := s.phase[c := Checked])
    case GetHits(c) => s.(phase := s.phase[c := Refused])
    case Add(c) =>
      s.(phase := s.phase[c := Serving], channels := s.channels[s.issued[c] := c], log := s.log + [Added(c)])
    case Remove(c) =>
      s.(phase := s.phase[c := Removed], channels := s.channels - {s.issued[c]}, log := s.log + [RemovedFrom(c)])
    case Disconnect(c) => s.(phase := s.phase[c := Disconnected], log := s.log + [DisconnectCalled(c)])
    case Close(c) => s.(phase := s.phase[c := Closed], log := s.log + [ClosedConn(c)])
    case PushGet(p, id) => if id in s.channels then s.(found := s.found[p := (id, s.channels[id])]) else s
    case PushSend(p) => s.(found := s.found - {p}, delivered := s.delivered + [s.found[p]])
  }

  predicate Legal(s: State, steps: seq<Step>)
    decreases |steps|
  {
    steps == [] || (Enabled(s, steps[0]) && Legal(Take(s, steps[0]), steps[1..]))
  }

  function Run(s: State, steps: seq<Step>): State
    requires Legal(s, steps)
    decreases |steps|
  {
    if steps == [] then s else Run(Take(s, steps[0]), steps[1..])
  }

  lemma {:induction false} RunConcat(s: State, a: seq<Step>, b: seq<Step>)
    requires Legal(s, a)
    ensures Legal(s, a + b) <==> Legal(Run(s, a), b)
    ensures Legal(s, a + b) ==> Run(s, a + b) == Run(Run(s, a), b)
    decreases |a|
  {
    hide Enabled, Take;
    if a == [] {
      assert a + b == b;
    } else {
      assert (a + b)[1..] == a[1..] + b;
      RunConcat(Take(s, a[0]), a[1..], b);
    }
  }

  /** A run may go on with any step that is enabled at its end. */
  lemma Then(s: State, steps: seq<Step>, step: Step)
    requires Legal(s, steps) && Enabled(Run(s, steps), step)
    ensures Legal(s, steps + [step]) && Run(s, steps + [step]) == Take(Run(s, steps), step)
  {
    hide Enabled, Take;
    RunConcat(s, steps, [step]);
    assert [step][1..] == [];
    assert Legal(Take(Run(s, steps), step), []);
    assert Run(Run(s, steps), [step]) == Run(Take(Run(s, steps), step), []);
  }

  // ---- What every run keeps ------------------------------------------------------------------

  /** Exactly the connections that passed Accept have an id. */
  ghost predicate IdsKnown(s: State) {
    && (forall c :: PhaseOf(s, c) in {Accepted, Checked, Serving, Removed, Disconnected, Closed} ==> c in s.issued)
    && (forall c :: c in s.issued ==> PhaseOf(s, c) != Fresh)
  }

  ghost predicate IssuedTo(s: State, id: GoString, c: nat) {
    c in s.issued && s.issued[c] == id
  }

  /** Every entry of the map, every push under way and every push made is at a connection issued its id. */
  ghost predicate PushesRight(s: State) {
    && (forall id :: id in s.channels ==> IssuedTo(s, id, s.channels[id]))
    && (forall p :: p in s.found ==> IssuedTo(s, s.found[p].0, s.found[p].1))
    && (forall i :: 0 <= i < |s.delivered| ==> IssuedTo(s, s.delivered[i].0, s.delivered[i].1))
  }

  function EventsOf(log: seq<Event>, c: nat): seq<Event> {
    if log == [] then []
    else
      var front := EventsOf(log[..|log| - 1], c);
      if log[|log| - 1].conn == c then front + [log[|log| - 1]] else front
  }

  /** What has happened to a connection in each phase: one Disconnect, after its Remove. */
  function Expected(p: Phase, c: nat): seq<Event> {
    match p
    case Serving => [Added(c)]
    case Removed => [Added(c), RemovedFrom(c)]
    case Disconnected => [Added(c), RemovedFrom(c), DisconnectCalled(c)]
    case Closed => [Added(c), RemovedFrom(c), DisconnectCalled(c), ClosedConn(c)]
    case _ => []
  }

  ghost predicate LogExact(s: State) {
    forall c :: EventsOf(s.log, c) == Expected(PhaseOf(s, c), c)
  }

  ghost predicate Sound(s: State) {
    IdsKnown(s) && PushesRight(s) && LogExact(s)
  }

  lemma LogGrows(s: State, step: Step)
    requires Enabled(s, step) && LogExact(s)
    ensures LogExact(Take(s, step))
  {
    var s' := Take(s, step);
    assert s'.log != s.log ==> s'.log[..|s'.log| - 1] == s.log;
    forall c
      ensures EventsOf(s'.log, c) == Expected(PhaseOf(s', c), c)
    {
      assert EventsOf(s.log, c) == Expected(PhaseOf(s, c), c);
    }
  }

  lemma PushStep(s: State, step: Step)
    requires Enabled(s, step) && IdsKnown(s) && PushesRight(s)
    ensures IdsKnown(Take(s, step)) && PushesRight(Take(s, step))
  {
    hide PhaseOf;
    KnownStep(s, step);
    var s' := Take(s, step);
    assert forall id, c :: IssuedTo(s, id, c) ==> IssuedTo(s', id, c);
  }

  lemma KnownStep(s: State, step: Step)
    requires Enabled(s, step) && IdsKnown(s)
    ensures IdsKnown(Take(s, step))
    ensures step.AcceptOk? ==> step.conn !in s.issued
  {
  }

  lemma StepKeepsSound(s: State, step: Step)
    requires Enabled(s, step) && Sound(s)
    ensures Sound(Take(s, step))
  {
    hide IdsKnown, PushesRight, LogExact, Enabled;
    PushStep(s, step);
    LogGrows(s, step);
  }

  /**
   * In every run, races included, a push reaches only a connection that was issued its id, and every
   * connection has its Add, Remove, Disconnect and Close at most once and in this order.
   */
  lemma {:induction false} RunKeepsSound(s: State, steps: seq<Step>)
    requires Legal(s, steps) && Sound(s)
    ensures Sound(Run(s, steps))
    decreases |steps|
  {
    hide Sound, Take, Enabled;
    if steps != [] {
      StepKeepsSound(s, steps[0]);
      RunKeepsSound(Take(s, steps[0]), steps[1..]);
    }
  }

  // ---- When the map is exact -----------------------------------------------------------------

  /** The map holds an id for a connection exactly while that connection is between Add and Remove. */
  ghost predicate MapExact(s: State) {
    forall c, id :: id in s.channels && s.channels[id] == c
               <==> PhaseOf(s, c) == Serving && IssuedTo(s, id, c)
  }

  /** An Add does not find its id in the map. */
  predicate FindsFree(s: State, step: Step) {
    step.Add? && step.conn in s.issued ==> s.issued[step.conn] !in s.channels
  }

  lemma MapStep(s: State, step: Step)
    requires Enabled(s, step) && MapExact(s) && IdsKnown(s) && FindsFree(s, step)
    ensures MapExact(Take(s, step))
  {
    var s' := Take(s, step);
    forall c, id
      ensures id in s'.channels && s'.channels[id] == c <==> PhaseOf(s', c) == Serving && IssuedTo(s', id, c)
    {
      assert id in s.channels && s.channels[id] == c <==> PhaseOf(s, c) == Serving && IssuedTo(s, id, c);
    }
  }

  /** An Add that finds its id taken leaves the connection it was taken by without its entry. */
  lemma MapBreaks(s: State, step: Step)
    requires Enabled(s, step) && MapExact(s) && !FindsFree(s, step)
    ensures !MapExact(Take(s, step))
  {
    var s' := Take(s, step);
    var id := s.issued[step.conn];
    var d := s.channels[id];
    assert id in s.channels && s.channels[id] == d;
    assert PhaseOf(s, d) == Serving && IssuedTo(s, id, d);
    assert PhaseOf(s', d) == Serving && IssuedTo(s', id, d) && s'.channels[id] != d;
  }

  ghost predicate AllExact(s: State, steps: seq<Step>)
    requires Legal(s, steps)
    decreases |steps|
  {
    MapExact(s) && (steps != [] ==> AllExact(Take(s, steps[0]), steps[1..]))
  }

  predicate AllFindFree(s: State, steps: seq<Step>)
    requires Legal(s, steps)
    decreases |steps|
  {
    steps != [] ==> FindsFree(s, steps[0]) && AllFindFree(Take(s, steps[0]), steps[1..])
  }

  /**
   * The map is exact in every state of a run if and only if no Add in it finds its id taken. Then a
   * Remove deletes the connection's own entry, since that is what the map holds for its id.
   */
  lemma {:induction false} RegistryExact(s: State, steps: seq<Step>)
    requires Legal(s, steps) && MapExact(s) && IdsKnown(s) && PushesRight(s)
    ensures AllExact(s, steps) <==> AllFindFree(s, steps)
    decreases |steps|
  {
    hide MapExact, IdsKnown, PushesRight, FindsFree, Enabled, Take;
    if steps != [] {
      var s' := Take(s, steps[0]);
      PushStep(s, steps[0]);
      if FindsFree(s, steps[0]) {
        MapStep(s, steps[0]);
        RegistryExact(s', steps[1..]);
      } else {
        MapBreaks(s, steps[0]);
        NotExact(s', steps[1..]);
      }
    }
  }

  lemma NotExact(s: State, steps: seq<Step>)
    requires Legal(s, steps) && !MapExact(s)
    ensures !AllExact(s, steps)
  {
  }

  lemma {:induction false} ExactAtEnd(s: State, steps: seq<Step>)
    requires Legal(s, steps) && AllExact(s, steps)
    ensures MapExact(Run(s, steps))
    decreases |steps|
  {
    hide MapExact;
    if steps != [] {
      ExactAtEnd(Take(s, steps[0]), steps[1..]);
    }
  }

  // ---- Without a race between Get and Add ----------------------------------------------------

  /** The step does not let two connections with one id past the check before either is added. */
  ghost predicate NoRaceNow(s: State, step: Step) {
    step.GetMisses? && step.conn in s.issued ==>
      forall c :: PhaseOf(s, c) == Checked && c in s.issued ==> s.issued[c] != s.issued[step.conn]
  }

  ghost predicate NoRace(s: State, steps: seq<Step>)
    requires Legal(s, steps)
    decreases |steps|
  {
    steps == [] || (NoRaceNow(s, steps[0]) && NoRace(Take(s, steps[0]), steps[1..]))
  }

  ghost predicate Waiting(s: State, c: nat, id: GoString) {
    PhaseOf(s, c) == Checked && IssuedTo(s, id, c)
  }

  ghost predicate CheckedApart(s: State) {
    && (forall c, id :: Waiting(s, c, id) ==> id !in s.channels)
    && (forall c, d, id :: Waiting(s, c, id) && Waiting(s, d, id) ==> c == d)
  }

  ghost predicate Inv(s: State) {
    Sound(s) && MapExact(s) && CheckedApart(s)
  }

  lemma CheckStep(s: State, step: Step)
    requires Enabled(s, step) && NoRaceNow(s, step) && IdsKnown(s) && CheckedApart(s)
    ensures CheckedApart(Take(s, step)) && FindsFree(s, step)
  {
    if step.Add? {
      assert Waiting(s, step.conn, s.issued[step.conn]);
    }
    var s' := Take(s, step);
    forall c, id | Waiting(s', c, id)
      ensures id !in s'.channels
      ensures forall d :: Waiting(s', d, id) ==> c == d
    {
      if step.GetMisses? {
        assert c != step.conn ==> Waiting(s, c, id);
        assert forall d :: d != step.conn && Waiting(s', d, id) ==> Waiting(s, d, id);
      } else {
        assert Waiting(s, c, id);
        assert forall d :: Waiting(s', d, id) ==> Waiting(s, d, id);
      }
    }
  }

  lemma StepKeepsInv(s: State, step: Step)
    requires Enabled(s, step) && NoRaceNow(s, step) && Inv(s)
    ensures Inv(Take(s, step)) && FindsFree(s, step)
  {
    hide MapExact, IdsKnown, CheckedApart, PushesRight, LogExact, NoRaceNow, Enabled, FindsFree;
    StepKeepsSound(s, step);
    CheckStep(s, step);
    MapStep(s, step);
  }

  /** If two connections with one id never pass the check together, no Add finds its id taken. */
  lemma {:induction false} RegistrySafe(s: State, steps: seq<Step>)
    requires Legal(s, steps) && NoRace(s, steps) && Inv(s)
    ensures Inv(Run(s, steps)) && AllFindFree(s, steps)
    decreases |steps|
  {
    hide Inv, Take, NoRaceNow, Enabled, FindsFree;
    if steps != [] {
      StepKeepsInv(s, steps[0]);
      RegistrySafe(Take(s, steps[0]), steps[1..]);
    }
  }

  lemma EmptySafe()
    ensures Inv(EMPTY)
  {
  }

  // ---- With one ------------------------------------------------------------------------------

  lemma {:induction false} OneMore(s: State, steps: seq<Step>, step: Step)
    requires Legal(s, steps) && Enabled(Run(s, steps), step)
    ensures Legal(s, steps + [step]) && Run(s, steps + [step]) == Take(Run(s, steps), step)
    ensures AllFindFree(s, steps + [step]) <==> AllFindFree(s, steps) && FindsFree(Run(s, steps), step)
    ensures NoRace(s, steps + [step]) <==> NoRace(s, steps) && NoRaceNow(Run(s, steps), step)
    decreases |steps|
  {
    hide Enabled, Take, FindsFree, NoRaceNow;
    Then(s, steps, step);
    var all := steps + [step];
    if steps == [] {
      assert all[1..] == [];
    } else {
      assert all[1..] == steps[1..] + [step];
      OneMore(Take(s, steps[0]), steps[1..], step);
    }
  }

  /** From the start: two connections with one id, both past the check. */
  function BothChecked(id: GoString): seq<Step> {
    [AcceptOk(1, id)] + [AcceptOk(2, id)] + [GetMisses(1)] + [GetMisses(2)]
  }

  lemma BothWait(id: GoString)
    ensures Legal(EMPTY, BothChecked(id)) && !NoRace(EMPTY, BothChecked(id)) && AllFindFree(EMPTY, BothChecked(id))
    ensures Run(EMPTY, BothChecked(id))
         == State(map[1 := Checked, 2 := Checked], map[1 := id, 2 := id], map[], map[], [], [])
  {
    hide Legal, Run, NoRace, AllFindFree;
    Nothing(EMPTY);
    assert [] + [AcceptOk(1, id)] == [AcceptOk(1, id)];
    OneMore(EMPTY, [], AcceptOk(1, id));
    OneMore(EMPTY, [AcceptOk(1, id)], AcceptOk(2, id));
    OneMore(EMPTY, [AcceptOk(1, id)] + [AcceptOk(2, id)], GetMisses(1));
    OneMore(EMPTY, [AcceptOk(1, id)] + [AcceptOk(2, id)] + [GetMisses(1)], GetMisses(2));
    var s := Run(EMPTY, [AcceptOk(1, id)] + [AcceptOk(2, id)] + [GetMisses(1)]);
    assert PhaseOf(s, 1) == Checked && s.issued[1] == s.issued[2];
  }

  lemma Nothing(s: State)
    ensures Legal(s, []) && Run(s, []) == s && NoRace(s, []) && AllFindFree(s, [])
  {
  }

  /** Such a race can end well: the first connection is gone again before the second is added. */
  lemma RaceEndsWell(id: GoString)
    ensures var steps := BothChecked(id) + [Add(1)] + [Remove(1)] + [Add(2)];
            Legal(EMPTY, steps) && !NoRace(EMPTY, steps) && AllExact(EMPTY, steps)
  {
    hide Legal, Run, NoRace, AllFindFree, AllExact;
    var steps := BothChecked(id);
    BothWait(id);
    OneMore(EMPTY, steps, Add(1));
    OneMore(EMPTY, steps + [Add(1)], Remove(1));
    OneMore(EMPTY, steps + [Add(1)] + [Remove(1)], Add(2));
    RegistryExact(EMPTY, steps + [Add(1)] + [Remove(1)] + [Add(2)]);
  }

  /**
   * And badly: both are added, pushes for the first reach the second, and the first one's Remove
   * deletes the entry of the second, which is still being served.
   */
  lemma RaceEndsBadly(id: GoString)
    ensures var both := BothChecked(id) + [Add(1)] + [Add(2)];
            var steps := both + [Remove(1)];
            && Legal(EMPTY, both) && Legal(EMPTY, steps) && !AllExact(EMPTY, steps)
            && PhaseOf(Run(EMPTY, both), 1) == Serving && Run(EMPTY, both).channels == map[id := 2]
            && PhaseOf(Run(EMPTY, steps), 2) == Serving && Run(EMPTY, steps).channels == map[]
  {
    hide Legal, Run, NoRace, AllFindFree, AllExact;
    var steps := BothChecked(id);
    BothWait(id);
    OneMore(EMPTY, steps, Add(1));
    OneMore(EMPTY, steps + [Add(1)], Add(2));
    OneMore(EMPTY, steps + [Add(1)] + [Add(2)], Remove(1));
    RegistryExact(EMPTY, steps + [Add(1)] + [Add(2)] + [Remove(1)]);
  }

  /** Two waiting connections with one id make the map wrong once both are added. */
  lemma RaceBreaks(s: State, c: nat, d: nat)
    requires c != d && c in s.issued && d in s.issued && s.issued[c] == s.issued[d]
    requires PhaseOf(s, c) == Checked && PhaseOf(s, d) == Checked
    ensures Legal(s, [Add(c)] + [Add(d)]) && !MapExact(Run(s, [Add(c)] + [Add(d)]))
  {
    hide MapExact, Legal, Run, NoRace, AllFindFree;
    Nothing(s);
    assert [] + [Add(c)] == [Add(c)];
    OneMore(s, [], Add(c));
    OneMore(s, [Add(c)], Add(d));
    var s2 := Take(Take(s, Add(c)), Add(d));
    assert PhaseOf(s2, c) == Serving && IssuedTo(s2, s.issued[c], c) && s2.channels[s.issued[c]] == d;
    assert !MapExact(s2) by { NotTheirs(s2, c, s.issued[c]); }
  }

  lemma NotTheirs(s: State, c: nat, id: GoString)
    requires PhaseOf(s, c) == Serving && IssuedTo(s, id, c) && id in s.channels && s.channels[id] != c
    ensures !MapExact(s)
  {
  }

  /** Whoever schedules a race can make it end badly: some prefix of the run goes on to a wrong map. */
  lemma {:induction false} RaceIsFatal(s: State, steps: seq<Step>) returns (k: nat, bad: seq<Step>)
    requires Legal(s, steps) && !NoRace(s, steps)
    ensures k <= |steps| && Legal(s, steps[..k] + bad) && !MapExact(Run(s, steps[..k] + bad))
    decreases |steps|
  {
    hide MapExact, Run;
    var step := steps[0];
    if NoRaceNow(s, step) {
      k, bad := RaceIsFatal(Take(s, step), steps[1..]);
      var all := steps[..k + 1] + bad;
      assert all[1..] == steps[1..][..k] + bad;
      assert all[0] == step;
      RunUnfold(s, all);
      k := k + 1;
    } else {
      var c :| PhaseOf(s, c) == Checked && c in s.issued && s.issued[c] == s.issued[step.conn];
      k, bad := 1, [Add(c)] + [Add(step.conn)];
      RaceBreaks(Take(s, step), c, step.conn);
      var all := steps[..1] + bad;
      assert all[0] == step && all[1..] == bad;
      RunUnfold(s, all);
    }
  }

  lemma RunUnfold(s: State, steps: seq<Step>)
    requires steps != [] && Legal(s, steps)
    ensures Run(s, steps) == Run(Take(s, steps[0]), steps[1..])
  {
  }

  // ---- The server of the source --------------------------------------------------------------

  /** Who takes a step: the goroutine of a connection, or a caller of Push. */
  datatype Actor = Goroutine(conn: nat) | Pusher(push: nat)

  function ActorOf(step: Step): Actor {
    match step
    case AcceptOk(c, _) => Goroutine(c)
    case AcceptFails(c) => Goroutine(c)
    case GetMisses(c) => Goroutine(c)
    case GetHits(c) => Goroutine(c)
    case Add(c) => Goroutine(c)
    case Remove(c) => Goroutine(c)
    case Disconnect(c) => Goroutine(c)
    case Close(c) => Goroutine(c)
    case PushGet(p, _) => Pusher(p)
    case PushSend(p) => Pusher(p)
  }

  function Of(a: Actor): Step -> bool {
    (step: Step) => ActorOf(step) == a
  }

  predicate Others(steps: seq<Step>, a: Actor) {
    forall i :: 0 <= i < |steps| ==> ActorOf(steps[i]) != a
  }

  /** What an actor knows about itself; nobody else changes it. */
  function Own(s: State, a: Actor): (Phase, Option<GoString>, Option<(GoString, nat)>) {
    match a
    case Goroutine(c) => (PhaseOf(s, c), if c in s.issued then Some(s.issued[c]) else None, None)
    case Pusher(p) => (Fresh, None, if p in s.found then Some(s.found[p]) else None)
  }

  lemma {:induction false} OthersKeep(s: State, steps: seq<Step>, a: Actor)
    requires Legal(s, steps) && Others(steps, a)
    ensures Own(Run(s, steps), a) == Own(s, a)
    decreases |steps|
  {
    if steps != [] {
      var s' := Take(s, steps[0]);
      assert Own(s', a) == Own(s, a);
      OthersKeep(s', steps[1..], a);
    }
  }

  lemma OwnStep(s: State, steps: seq<Step>, step: Step)
    requires Legal(s, steps) && Enabled(Run(s, steps), step)
    ensures Legal(s, steps + [step]) && Run(s, steps + [step]) == Take(Run(s, steps), step)
    ensures Filter(steps + [step], Of(ActorOf(step))) == Filter(steps, Of(ActorOf(step))) + [step]
  {
    hide Legal, Run, Take, Enabled, ActorOf;
    Then(s, steps, step);
    FilterConcat(steps, [step], Of(ActorOf(step)));
    FilterOne(step, Of(ActorOf(step)));
  }

  lemma FailKeepsMap(s: State, c: nat)
    requires Enabled(s, AcceptFails(c))
    ensures Take(s, AcceptFails(c)).channels == s.channels
  {
  }

  lemma LastPush(s: State)
    requires Sound(s) && s.delivered != []
    ensures var (id, c) := s.delivered[|s.delivered| - 1]; IssuedTo(s, id, c)
  {
  }

  /** wxf/channels.go: a map from ids to channels behind atomic operations. */
  class ChannelsImpl<Channel> {
    var channels: map<GoString, Channel>

    constructor ()
      ensures channels == map[]
    {
      channels := map[];
    }

    method Add(id: GoString, channel: Channel)
      modifies this
      ensures channels == old(channels)[id := channel]
    {
      channels := channels[id := channel];
    }

    method Remove(id: GoString)
      modifies this
      ensures channels == old(channels) - {id}
    {
      channels := channels - {id};
    }

    method Get(id: GoString) returns (r: Option<Channel>)
      ensures r == if id in channels then Some(channels[id]) else None
    {
      r := if id in channels then Some(channels[id]) else None;
    }
  }

  /** The server: its map of channels, and where the goroutines around it stand. */
  class Server {
    const channelMap: ChannelsImpl<nat>
    var state: State

    ghost predicate Valid()
      reads this, channelMap
    {
      channelMap.channels == state.channels && Sound(state)
    }

    constructor ()
      ensures Valid() && fresh(channelMap) && state == EMPTY
    {
      channelMap := new ChannelsImpl<nat>();
      state := EMPTY;
      new;
      EmptySafe();
    }

    /** Any number of steps of anybody else. */
    method Interfere(a: Actor, ghost start: State, ghost before: seq<Step>) returns (ghost steps: seq<Step>)
      requires Valid() && Legal(start, before) && state == Run(start, before)
      modifies this, channelMap
      ensures Valid() && Legal(start, steps) && state == Run(start, steps)
      ensures Own(state, a) == old(Own(state, a)) && Filter(steps, Of(a)) == Filter(before, Of(a))
      ensures before <= steps
    {
      hide Sound, Run, Legal, Own, Take;
      var more: seq<Step> := *;
      if !Legal(state, more) || !Others(more, a) {
        more := [];
      }
      Nothing(state);
      FilterNone(more, Of(a));
      FilterConcat(before, more, Of(a));
      RunConcat(start, before, more);
      RunKeepsSound(state, more);
      OthersKeep(state, more, a);
      state := Run(state, more);
      channelMap.channels := state.channels;
      steps := before + more;
    }

    /** A step whose effect on the map, if any, has just been made. */
    method Do(step: Step, ghost start: State, ghost before: seq<Step>) returns (ghost steps: seq<Step>)
      requires Legal(start, before) && state == Run(start, before)
      requires Sound(state) && Enabled(state, step) && channelMap.channels == Take(state, step).channels
      modifies this`state
      ensures Valid() && state == Take(old(state), step)
      ensures Legal(start, steps) && state == Run(start, steps) && steps == before + [step]
      ensures Filter(steps, Of(ActorOf(step))) == Filter(before, Of(ActorOf(step))) + [step]
    {
      hide Sound, Legal, Run, Take, Enabled;
      OwnStep(start, before, step);
      StepKeepsSound(state, step);
      state := Take(state, step);
      steps := before + [step];
    }

    /** From the channel's Add to its Remove. */
    method Register(c: nat, id: GoString, ghost start: State, ghost before: seq<Step>) returns (ghost steps: seq<Step>)
      requires Valid() && Legal(start, before) && state == Run(start, before)
      requires Own(state, Goroutine(c)) == (Checked, Some(id), None)
      modifies this, channelMap
      ensures Valid() && Legal(start, steps) && state == Run(start, steps)
      ensures Own(state, Goroutine(c)) == (Removed, Some(id), None)
      ensures Filter(steps, Of(Goroutine(c))) == Filter(before, Of(Goroutine(c))) + [Add(c), Remove(c)]
    {
      hide Sound, Legal, Run;
      var me := Goroutine(c);
      steps := Interfere(me, start, before);
      channelMap.Add(id, c);
      steps := Do(Add(c), start, steps);
      steps := Interfere(me, start, steps);
      channelMap.Remove(id);
      steps := Do(Remove(c), start, steps);
    }

    method Leave(c: nat, id: GoString, ghost start: State, ghost before: seq<Step>) returns (ghost steps: seq<Step>)
      requires Valid() && Legal(start, before) && state == Run(start, before)
      requires Own(state, Goroutine(c)) == (Removed, Some(id), None)
      modifies this, channelMap
      ensures Valid() && Legal(start, steps) && state == Run(start, steps)
      ensures Filter(steps, Of(Goroutine(c))) == Filter(before, Of(Goroutine(c))) + [Disconnect(c), Close(c)]
    {
      hide Sound, Legal, Run;
      var me := Goroutine(c);
      steps := Interfere(me, start, before);
      steps := Do(Disconnect(c), start, steps);
      steps := Interfere(me, start, steps);
      steps := Do(Close(c), start, steps);
    }

    /** From Accept to the check of the id. */
    method Admit(c: nat, id: GoString) returns (ok: bool, ghost steps: seq<Step>)
      requires Valid() && PhaseOf(state, c) == Fresh
      modifies this, channelMap
      ensures Valid() && Legal(old(state), steps) && state == Run(old(state), steps)
      ensures ok ==> Own(state, Goroutine(c)) == (Checked, Some(id), None)
      ensures Filter(steps, Of(Goroutine(c))) == [AcceptOk(c, id), if ok then GetMisses(c) else GetHits(c)]
    {
      hide Sound, Legal, Run;
      var me := Goroutine(c);
      ghost var start := state;
      Nothing(start);
      steps := Interfere(me, start, []);
      steps := Do(AcceptOk(c, id), start, steps);
      steps := Interfere(me, start, steps);
      var found := channelMap.Get(id);
      ok := found.None?;
      steps := Do(if ok then GetMisses(c) else GetHits(c), start, steps);
    }

    /**
     * The goroutine of one connection, with anybody else at work before each of its actions: what
     * happens is a run, in which this goroutine either fails to be accepted, is refused because its
     * id is in the map, or goes the whole way from Add to Close.
     */
    method HandleConn(c: nat, id: GoString, accepted: bool) returns (ghost steps: seq<Step>)
      requires Valid() && PhaseOf(state, c) == Fresh
      modifies this, channelMap
      ensures Valid() && Legal(old(state), steps) && state == Run(old(state), steps)
      ensures var own := Filter(steps, Of(Goroutine(c)));
              if !accepted then own == [AcceptFails(c)]
              else
                || own == [AcceptOk(c, id), GetHits(c)]
                || own == [AcceptOk(c, id), GetMisses(c), Add(c), Remove(c), Disconnect(c), Close(c)]
    {
      hide Sound, Legal, Run, Take;
      ghost var start := state;
      if !accepted {
        Nothing(start);
        steps := Interfere(Goroutine(c), start, []);
        FailKeepsMap(state, c);
        steps := Do(AcceptFails(c), start, steps);
        return;
      }
      var ok;
      ok, steps := Admit(c, id);
      if ok {
        steps := Register(c, id, start, steps);
        steps := Leave(c, id, start, steps);
      }
    }

    /** Push: the channel of the id, if there is one; the payload goes to it when the pusher gets to it. */
    method Push(p: nat, id: GoString) returns (conn: Option<nat>, ghost steps: seq<Step>)
      requires Valid() && p !in state.found
      modifies this, channelMap
      ensures Valid() && Legal(old(state), steps) && state == Run(old(state), steps)
      ensures Filter(steps, Of(Pusher(p))) == if conn.Some? then [PushGet(p, id), PushSend(p)] else [PushGet(p, id)]
      ensures conn == if id in old(state).channels then Some(old(state).channels[id]) else None
      ensures conn.Some? ==> IssuedTo(state, id, conn.value)
      ensures conn.Some? ==> state.delivered != [] && state.delivered[|state.delivered| - 1] == (id, conn.value)
    {
      hide Sound, Legal, Run;
      var me := Pusher(p);
      ghost var start := state;
      Nothing(start);
      conn := channelMap.Get(id);
      steps := Do(PushGet(p, id), start, []);
      if conn.None? {
        return;
      }
      steps := Interfere(me, start, steps);
      steps := Do(PushSend(p), start, steps);
      LastPush(state);
    }
  }
}
