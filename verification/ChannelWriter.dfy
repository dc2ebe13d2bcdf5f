/**
 * wxf/channel.go: Push puts payloads into a queue of five, and the one writeLoop of the channel takes
 * them out and writes them as frames. The reader of the same connection answers pings in between.
 *
 * A frame is written as one step: WriteFrame takes no lock, so this is an assumption of the model.
 */
module ChannelWriter {
  import opened Bytes
  import opened Frames

  const CAPACITY: nat := 5

  /** Where writeLoop stands: `left` payloads of the current batch are still to be received. */
  datatype Writer =
    | Selecting
    | First(payload: bytes)                // received at the select, to be written
    | Measuring                            // after that write, before len(writeChan)
    | Batch(left: nat)
    | Further(payload: bytes, left: nat)   // received in the inner loop, to be written
    | StoppedByClose
    | StoppedByError

  datatype State = State(
    queue: seq<bytes>,
    fired: bool,
    writer: Writer,
    pushing: map<nat, bytes>,   // pushers past the HasFired check
    accepted: seq<bytes>,       // payloads that went into the queue, in order
    refused: seq<bytes>,
    wire: seq<Frame>,           // frames written, in order
    lost: seq<bytes>)           // the payload whose write failed

  datatype Step =
    | PushCheck(pusher: nat, payload: bytes)
    | PushSend(pusher: nat)
    | Fire
    | Receive
    | WriteOk
    | WriteFails
    | Measure
    | SelectDone
    | Pong

  predicate Holding(w: Writer) {
    w.First? || w.Further?
  }

  const START := State([], false, Selecting, map[], [], [], [], [])

  predicate Enabled(s: State, step: Step) {
    match step
    case PushCheck(p, _) => p !in s.pushing
    case PushSend(p) => p in s.pushing && |s.queue| < CAPACITY
    case Fire => true
    case Receive => s.queue != [] && (s.writer.Selecting? || (s.writer.Batch? && s.writer.left > 0))
    case WriteOk => Holding(s.writer)
    case WriteFails => Holding(s.writer)
    case Measure => s.writer.Measuring?
    case SelectDone => s.writer.Selecting? && s.fired
    case Pong => true
  }

  /** Back to the select once the batch is through. */
  function Continue(left: nat): Writer {
    if left == 0 then Selecting else Batch(left)
  }

  function Take(s: State, step: Step): State
    requires Enabled(s, step)
  {
    match step
    case PushCheck(p, payload) =>
      if s.fired then s.(refused := s.refused + [payload])
      else s.(pushing := s.pushing[p := payload])
    case PushSend(p) =>
      s.(queue := s.queue + [s.pushing[p]], pushing := s.pushing - {p}, accepted := s.accepted + [s.pushing[p]])
    case Fire => s.(fired := true)
    case Receive =>
      var next := if s.writer.Selecting? then First(s.queue[0]) else Further(s.queue[0], s.writer.left - 1);
      s.(queue := s.queue[1..], writer := next)
    case WriteOk =>
      var next := if s.writer.First? then Measuring else Continue(s.writer.left);
      s.(wire := s.wire + [Frame(OP_BINARY, s.writer.payload)], writer := next)
    case WriteFails => s.(lost := s.lost + [s.writer.payload], writer := StoppedByError)
    case Measure => s.(writer := Continue(|s.queue|))
    case SelectDone => s.(writer := StoppedByClose)
    case Pong => s.(wire := s.wire + [Frame(OP_PONG, [])])
  }

  predicate Legal(s: State, steps: seq<Step>)
    decreases |steps|
  {
    steps == [] || (Enabled(s, steps[0]) && Legal(Take(s, steps[0]), steps[1..]))
  }

  function Run(s: State, steps: seq<Step>): State
    requires Legal(s, steps)
    decreases |steps|
  {
    if steps == [] then s else Run(Take(s, steps[0]), steps[1..])
  }

  lemma {:induction false} RunConcat(s: State, a: seq<Step>, b: seq<Step>)
    requires Legal(s, a)
    ensures Legal(s, a + b) <==> Legal(Run(s, a), b)
    ensures Legal(s, a + b) ==> Run(s, a + b) == Run(Run(s, a), b)
    decreases |a|
  {
    hide Enabled, Take;
    if a == [] {
      assert a + b == b;
    } else {
      assert (a + b)[1..] == a[1..] + b;
      RunConcat(Take(s, a[0]), a[1..], b);
    }
  }

  lemma NothingRuns(s: State)
    ensures Legal(s, []) && Run(s, []) == s
  {
  }

  // ---- What every run keeps ------------------------------------------------------------------

  /** Payloads of the data frames; pongs carry none. */
  function Written(wire: seq<Frame>): seq<bytes> {
    if wire == [] then []
    else
      var front := Written(wire[..|wire| - 1]);
      if wire[|wire| - 1].opcode == OP_BINARY then front + [wire[|wire| - 1].payload] else front
  }

  function InHand(s: State): seq<bytes> {
    if Holding(s.writer) then [s.writer.payload] else []
  }

  /** How many receives the writer has committed itself to. */
  function Owed(w: Writer): nat {
    match w
    case Batch(left) => left
    case Further(_, left) => left
    case _ => 0
  }

  /** Conservation, as a sequence: frames leave in the order the payloads were accepted. */
  ghost predicate Conserved(s: State) {
    && s.accepted == Written(s.wire) + InHand(s) + s.lost + s.queue
    && (s.lost != [] <==> s.writer.StoppedByError?)
    && |s.lost| <= 1
  }

  /** A batch never waits: what it still wants is in the queue, since nobody else receives. */
  ghost predicate Supplied(s: State) {
    && Owed(s.writer) <= |s.queue| <= CAPACITY
    && (s.writer.Batch? ==> s.writer.left > 0)
    && (s.writer.StoppedByClose? ==> s.fired)
  }

  ghost predicate Inv(s: State) {
    Conserved(s) && Supplied(s)
  }

  lemma WriteConserves(s: State)
    requires Enabled(s, WriteOk) && Conserved(s)
    ensures Conserved(Take(s, WriteOk))
  {
    hide Written;
    var s' := Take(s, WriteOk);
    WrittenGrows(s.wire, Frame(OP_BINARY, s.writer.payload));
    assert s.lost == [] && InHand(s') == [];
    assert Written(s'.wire) + [] + [] + s.queue == Written(s.wire) + InHand(s) + [] + s.queue;
  }

  lemma PongConserves(s: State)
    requires Conserved(s)
    ensures Conserved(Take(s, Pong))
  {
    hide Written;
    WrittenGrows(s.wire, Frame(OP_PONG, []));
    assert Written(s.wire) + [] == Written(s.wire);
  }

  lemma SendConserves(s: State, p: nat)
    requires Enabled(s, PushSend(p)) && Conserved(s)
    ensures Conserved(Take(s, PushSend(p)))
  {
    hide Written;
    var before, sent := Written(s.wire) + InHand(s) + s.lost, [s.pushing[p]];
    assert before + s.queue + sent == before + (s.queue + sent);
  }

  lemma ReceiveConserves(s: State)
    requires Enabled(s, Receive) && Conserved(s)
    ensures Conserved(Take(s, Receive))
  {
    hide Written;
    assert s.lost == [] && InHand(s) == [];
    assert s.queue == [s.queue[0]] + s.queue[1..];
    assert Written(s.wire) + [] + [] + s.queue == Written(s.wire) + [s.queue[0]] + [] + s.queue[1..];
  }

  lemma StepConserves(s: State, step: Step)
    requires Enabled(s, step) && Conserved(s)
    ensures Conserved(Take(s, step))
  {
    hide Written;
    match step
    case WriteOk => WriteConserves(s);
    case Pong => PongConserves(s);
    case PushSend(p) => SendConserves(s, p);
    case Receive => ReceiveConserves(s);
    case _ =>
  }

  lemma StepSupplies(s: State, step: Step)
    requires Enabled(s, step) && Supplied(s)
    ensures Supplied(Take(s, step))
  {
  }

  lemma StepKeepsInv(s: State, step: Step)
    requires Enabled(s, step) && Inv(s)
    ensures Inv(Take(s, step))
  {
    hide Conserved, Supplied, Enabled;
    StepConserves(s, step);
    StepSupplies(s, step);
  }

  lemma WrittenGrows(wire: seq<Frame>, f: Frame)
    ensures Written(wire + [f]) == Written(wire) + (if f.opcode == OP_BINARY then [f.payload] else [])
  {
    assert (wire + [f])[..|wire|] == wire;
  }

  lemma {:induction false} RunKeepsInv(s: State, steps: seq<Step>)
    requires Legal(s, steps) && Inv(s)
    ensures Inv(Run(s, steps))
    decreases |steps|
  {
    hide Inv, Take, Enabled;
    if steps != [] {
      StepKeepsInv(s, steps[0]);
      RunKeepsInv(Take(s, steps[0]), steps[1..]);
    }
  }

  /**
   * In every reachable state the payloads accepted are those written, the one in hand, the one a
   * failed write lost and those queued, in this order; at most six of them are not written.
   */
  lemma Conservation(steps: seq<Step>)
    requires Legal(START, steps)
    ensures var s := Run(START, steps);
            && s.accepted == Written(s.wire) + InHand(s) + s.lost + s.queue
            && |s.accepted| - |Written(s.wire)| <= 6
            && (s.lost == [] || (s.writer.StoppedByError? && InHand(s) == []))
  {
    hide Written;
    assert Written([]) == [] by { WrittenEmpty(); }
    RunKeepsInv(START, steps);
  }

  lemma WrittenEmpty()
    ensures Written([]) == []
  {
  }

  /** One payload goes all the way into the queue. */
  lemma PushOne(s: State, x: bytes)
    requires !s.fired && 0 !in s.pushing && |s.queue| < CAPACITY
    ensures Legal(s, [PushCheck(0, x), PushSend(0)])
    ensures Run(s, [PushCheck(0, x), PushSend(0)]) == s.(queue := s.queue + [x], accepted := s.accepted + [x])
  {
    var s1 := Take(s, PushCheck(0, x));
    var s2 := Take(s1, PushSend(0));
    assert [PushCheck(0, x), PushSend(0)][1..] == [PushSend(0)] && [PushSend(0)][1..] == [];
    assert s2.pushing == s.pushing;
    NothingRuns(s2);
    assert Legal(s1, [PushSend(0)]) && Run(s1, [PushSend(0)]) == Run(s2, []);
  }

  lemma {:induction false} Fill(s: State, x: bytes, n: nat) returns (steps: seq<Step>)
    requires !s.fired && 0 !in s.pushing && |s.queue| + n <= CAPACITY
    ensures Legal(s, steps)
    ensures var t := Run(s, steps);
            && t == s.(queue := t.queue, accepted := t.accepted)
            && |t.queue| == |s.queue| + n && |t.accepted| == |s.accepted| + n
    decreases n
  {
    if n == 0 {
      steps := [];
    } else {
      var one := [PushCheck(0, x), PushSend(0)];
      PushOne(s, x);
      var more := Fill(Run(s, one), x, n - 1);
      RunConcat(s, one, more);
      steps := one + more;
    }
  }

  /** Six is the best bound: one payload in hand and a full queue behind it. */
  lemma SixUnwritten(x: bytes) returns (steps: seq<Step>)
    ensures Legal(START, steps)
    ensures |Run(START, steps).accepted| == 6 && Written(Run(START, steps).wire) == []
  {
    var one := [PushCheck(0, x), PushSend(0)];
    PushOne(START, x);
    var s1 := Run(START, one);
    var s2 := Take(s1, Receive);
    NothingRuns(s2);
    assert [Receive][1..] == [];
    assert Legal(s1, [Receive]) && Run(s1, [Receive]) == Run(s2, []) == s2;
    RunConcat(START, one, [Receive]);
    var more := Fill(s2, x, 5);
    RunConcat(START, one + [Receive], more);
    steps := one + [Receive] + more;
    WrittenEmpty();
  }

  function Waiting(pushing: map<nat, bytes>, x: bytes): set<nat> {
    set p | p in pushing && pushing[p] == x
  }

  /** How often a payload has come in: it was accepted or refused, or its pusher still waits for room. */
  function CameIn(s: State, x: bytes): nat {
    multiset(s.accepted)[x] + multiset(s.refused)[x] + |Waiting(s.pushing, x)|
  }

  lemma CountAppend(a: seq<bytes>, y: bytes, x: bytes)
    ensures multiset(a + [y])[x] == multiset(a)[x] + if y == x then 1 else 0
  {
  }

  lemma WaitingGrows(pushing: map<nat, bytes>, p: nat, y: bytes, x: bytes)
    requires p !in pushing
    ensures |Waiting(pushing[p := y], x)| == |Waiting(pushing, x)| + if y == x then 1 else 0
  {
    var before := Waiting(pushing, x);
    assert p !in before;
    assert Waiting(pushing[p := y], x) == if y == x then before + {p} else before;
  }

  lemma WaitingShrinks(pushing: map<nat, bytes>, p: nat, x: bytes)
    requires p in pushing
    ensures |Waiting(pushing, x)| == |Waiting(pushing - {p}, x)| + if pushing[p] == x then 1 else 0
  {
    var after := Waiting(pushing - {p}, x);
    assert p !in after;
    assert Waiting(pushing, x) == if pushing[p] == x then after + {p} else after;
  }

  /** A payload comes in with the check of its pusher, and nothing else makes or loses one. */
  lemma StepBalances(s: State, step: Step, x: bytes)
    requires Enabled(s, step)
    ensures CameIn(Take(s, step), x) == CameIn(s, x) + if step.PushCheck? && step.payload == x then 1 else 0
  {
    hide Waiting;
    match step
    case PushCheck(p, payload) =>
      CountAppend(s.refused, payload, x);
      WaitingGrows(s.pushing, p, payload, x);
    case PushSend(p) =>
      CountAppend(s.accepted, s.pushing[p], x);
      WaitingShrinks(s.pushing, p, x);
    case _ =>
      var t := Take(s, step);
      assert t.accepted == s.accepted && t.refused == s.refused && t.pushing == s.pushing;
  }

  /** The inner loop can always receive: a batch in progress finds the queue not empty. */
  lemma BatchNeverBlocks(steps: seq<Step>)
    requires Legal(START, steps)
    ensures var s := Run(START, steps);
            s.writer.Batch? ==> Enabled(s, Receive) && s.writer.left <= |s.queue|
  {
    WrittenEmpty();
    RunKeepsInv(START, steps);
  }

  /** A close ends the writer only between batches: nothing in hand, everything else written or queued. */
  lemma CloseBetweenBatches(s: State, step: Step)
    requires Enabled(s, step) && Inv(s)
    requires !s.writer.StoppedByClose? && Take(s, step).writer.StoppedByClose?
    ensures s.fired && Owed(s.writer) == 0 && InHand(s) == []
    ensures s.accepted == Written(s.wire) + s.queue
  {
    assert s.lost == [];
    assert Written(s.wire) + [] + [] + s.queue == Written(s.wire) + s.queue;
  }

  // ---- A batch, and a close ------------------------------------------------------------------

  ghost predicate InBatch(w: Writer) {
    w.Batch? || w.Further?
  }

  /** Every state of the run but the last is inside the batch. */
  ghost predicate StaysInBatch(s: State, steps: seq<Step>)
    requires Legal(s, steps)
    decreases |steps|
  {
    steps != [] ==> InBatch(s.writer) && StaysInBatch(Take(s, steps[0]), steps[1..])
  }

  lemma {:induction false} BatchGoesOn(s: State, steps: seq<Step>)
    requires Legal(s, steps) && Inv(s) && StaysInBatch(s, steps)
    requires InBatch(s.writer) && Run(s, steps).writer.Selecting?
    ensures |Written(Run(s, steps).wire)| == |Written(s.wire)| + |InHand(s)| + Owed(s.writer)
    decreases |steps|
  {
    hide Written, Conserved;
    var t := Take(s, steps[0]);
    StepKeepsInv(s, steps[0]);
    if steps[0].WriteOk? || steps[0].Pong? {
      WrittenGrows(s.wire, t.wire[|s.wire|]);
      assert t.wire == s.wire + [t.wire[|s.wire|]];
    }
    if InBatch(t.writer) {
      BatchGoesOn(t, steps[1..]);
    } else {
      assert steps[1..] == [];
    }
  }

  /**
   * A batch is everything that was queued when its length was measured: back at the select, exactly that
   * many payloads more are written, whatever pushers and reader did meanwhile.
   */
  lemma BatchDrains(s: State, steps: seq<Step>)
    requires s.writer.Measuring? && Inv(s) && Legal(Take(s, Measure), steps)
    requires StaysInBatch(Take(s, Measure), steps) && Run(Take(s, Measure), steps).writer.Selecting?
    ensures |Written(Run(Take(s, Measure), steps).wire)| == |Written(s.wire)| + |s.queue|
  {
    hide Written;
    StepKeepsInv(s, Measure);
    if steps != [] {
      BatchGoesOn(Take(s, Measure), steps);
    }
  }

  lemma ClosedStep(s: State, step: Step, x: bytes)
    requires Enabled(s, step) && s.fired
    ensures var t := Take(s, step);
            && t.fired && s.accepted <= t.accepted && t.pushing.Keys <= s.pushing.Keys
            && multiset(t.accepted)[x] + |Waiting(t.pushing, x)|
               == multiset(s.accepted)[x] + |Waiting(s.pushing, x)|
  {
    hide Waiting;
    if step.PushSend? {
      var p := step.pusher;
      WaitingShrinks(s.pushing, p, x);
      CountAppend(s.accepted, s.pushing[p], x);
    }
  }

  /** Once a close has fired no further payload comes in: only pushers past the check may still send. */
  lemma {:induction false} NothingNewAfterClose(s: State, steps: seq<Step>, x: bytes)
    requires Legal(s, steps) && s.fired
    ensures var t := Run(s, steps);
            && s.accepted <= t.accepted && t.pushing.Keys <= s.pushing.Keys
            && multiset(t.accepted)[x] + |Waiting(t.pushing, x)|
               == multiset(s.accepted)[x] + |Waiting(s.pushing, x)|
    decreases |steps|
  {
    hide Waiting, Take, Enabled;
    if steps != [] {
      ClosedStep(s, steps[0], x);
      NothingNewAfterClose(Take(s, steps[0]), steps[1..], x);
    }
  }

  ghost predicate Stopped(w: Writer) {
    w.StoppedByClose? || w.StoppedByError?
  }

  /**
   * Once the writer has stopped no payload is written any more, and the queue takes at most as many
   * further payloads as it has room for; after that no push can complete.
   */
  lemma {:induction false} StoppedForGood(s: State, steps: seq<Step>)
    requires Legal(s, steps) && Inv(s) && Stopped(s.writer)
    ensures var t := Run(s, steps);
            && t.writer == s.writer && Written(t.wire) == Written(s.wire) && s.queue <= t.queue
            && |t.accepted| - |s.accepted| == |t.queue| - |s.queue| <= CAPACITY - |s.queue|
    decreases |steps|
  {
    hide Written;
    if steps != [] {
      var t := Take(s, steps[0]);
      StepKeepsInv(s, steps[0]);
      if steps[0].Pong? {
        WrittenGrows(s.wire, Frame(OP_PONG, []));
        assert Written(s.wire) + [] == Written(s.wire);
      }
      StoppedForGood(t, steps[1..]);
    }
  }

  // ---- Bytes on the wire ---------------------------------------------------------------------

  ghost predicate FramesSized(s: State) {
    forall i :: 0 <= i < |s.wire| ==> Sized(s.wire[i])
  }

  /** The peer reads the frames back whole, whatever stands behind the cut. */
  lemma PeerReads(s: State, cut: bytes)
    requires FramesSized(s) && DecodeFrame(cut).Err?
    ensures DecodeAll(EncodeAll(s.wire) + cut) == (s.wire, cut)
  {
    StreamRoundTrip(s.wire, cut);
  }

  /**
   * A write that fails may leave a part of its frame behind. Until something else is written the peer
   * still reads the frames before it whole, and nothing of that part.
   */
  lemma PeerReadsTorn(s: State, k: nat)
    requires FramesSized(s) && Enabled(s, WriteFails) && |s.writer.payload| < TWO_32
    requires k < |EncodeFrame(Frame(OP_BINARY, s.writer.payload))|
    ensures var torn := EncodeFrame(Frame(OP_BINARY, s.writer.payload))[..k];
            DecodeAll(EncodeAll(Take(s, WriteFails).wire) + torn) == (Take(s, WriteFails).wire, torn)
  {
    hide EncodeFrame, DecodeFrame, EncodeAll, DecodeAll;
    FramePrefixRejected(Frame(OP_BINARY, s.writer.payload), k);
    PeerReads(s, EncodeFrame(Frame(OP_BINARY, s.writer.payload))[..k]);
  }

  // ---- The loop as the source writes it ------------------------------------------------------

  /** Whether a step is taken by writeLoop; pushers, the closer and the reader take the others. */
  predicate OfWriter(step: Step) {
    step.Receive? || step.WriteOk? || step.WriteFails? || step.Measure? || step.SelectDone?
  }

  predicate Others(steps: seq<Step>) {
    forall i :: 0 <= i < |steps| ==> !OfWriter(steps[i])
  }

  lemma WriterStep(s: State, steps: seq<Step>, step: Step)
    requires Legal(s, steps) && Enabled(Run(s, steps), step) && OfWriter(step)
    ensures Legal(s, steps + [step]) && Run(s, steps + [step]) == Take(Run(s, steps), step)
    ensures Filter(steps + [step], OfWriter) == Filter(steps, OfWriter) + [step]
  {
    hide Take, Enabled, OfWriter;
    RunConcat(s, steps, [step]);
    assert [step][1..] == [];
    NothingRuns(Take(Run(s, steps), step));
    assert Run(Run(s, steps), [step]) == Run(Take(Run(s, steps), step), []);
    FilterConcat(steps, [step], OfWriter);
    FilterOne(step, OfWriter);
  }

  /** Nobody else takes payloads out or moves the writer. */
  lemma {:induction false} OthersKeep(s: State, steps: seq<Step>)
    requires Legal(s, steps) && Others(steps)
    ensures var t := Run(s, steps);
            && t.writer == s.writer && (s.fired ==> t.fired)
            && s.queue <= t.queue && |t.queue| <= |s.queue| + |steps|
    decreases |steps|
  {
    if steps != [] {
      OthersKeep(Take(s, steps[0]), steps[1..]);
    }
  }

  /** The writer's own steps for one payload. */
  function Wrote(ok: bool): seq<Step> {
    [Receive, if ok then WriteOk else WriteFails]
  }

  lemma SelectStops(s: State)
    requires Enabled(s, SelectDone)
    ensures Take(s, SelectDone) == s.(writer := StoppedByClose)
  {
  }

  /** The writer's own steps when the inner loop has written `n` payloads. */
  function Rounds(n: nat): seq<Step> {
    if n == 0 then Wrote(true) + [Measure] else Rounds(n - 1) + Wrote(true)
  }

  /** The channel object with the run so far, and what others do next, finite as it is. */
  class Channel {
    var queue: seq<bytes>
    var state: State
    var pending: seq<Step>

    ghost predicate Valid()
      reads this
    {
      queue == state.queue && Inv(state)
    }

    constructor (pending: seq<Step>)
      ensures Valid() && state == START && this.pending == pending
    {
      queue, state, this.pending := [], START, pending;
      new;
      WrittenEmpty();
    }

    /** Others take any number of their next steps. */
    method Interfere(ghost start: State, ghost before: seq<Step>) returns (ghost steps: seq<Step>)
      requires Valid() && Legal(start, before) && state == Run(start, before)
      modifies this
      ensures Valid() && Legal(start, steps) && state == Run(start, steps)
      ensures Filter(steps, OfWriter) == Filter(before, OfWriter)
      ensures state.writer == old(state.writer) && (old(state.fired) ==> state.fired) && old(queue) <= queue
      ensures |pending| + |queue| <= |old(pending)| + |old(queue)| && |pending| <= |old(pending)|
    {
      hide Inv, Run, Legal, Take, OfWriter;
      var n: int := *;
      if 0 <= n <= |pending| && Others(pending[..n]) && Legal(state, pending[..n]) {
        var more := pending[..n];
        FilterNone(more, OfWriter);
        FilterConcat(before, more, OfWriter);
        RunConcat(start, before, more);
        RunKeepsInv(state, more);
        OthersKeep(state, more);
        steps := before + more;
        state, pending := Run(state, more), pending[n..];
        queue := state.queue;
      } else {
        steps := before;
      }
    }

    /** The writer takes a payload out of the queue, at the select or in a batch. */
    method Receive(ghost start: State, ghost before: seq<Step>) returns (payload: bytes, ghost steps: seq<Step>)
      requires Valid() && Legal(start, before) && state == Run(start, before)
      requires state.writer.Selecting? || (state.writer.Batch? && state.writer.left > 0)
      requires queue != []
      modifies this`queue, this`state
      ensures Valid() && Legal(start, steps) && state == Run(start, steps)
      ensures Filter(steps, OfWriter) == Filter(before, OfWriter) + [Step.Receive]
      ensures old(queue) == [payload] + queue
      ensures state.writer == if old(state.writer).Selecting? then First(payload)
                              else Further(payload, old(state.writer).left - 1)
    {
      hide Inv, Run, Legal;
      WriterStep(start, before, Step.Receive);
      StepKeepsInv(state, Step.Receive);
      payload := queue[0];
      queue := queue[1..];
      state := Take(state, Step.Receive);
      steps := before + [Step.Receive];
    }

    /** The outcome of a write is the connection's. */
    method WriteFrame(payload: bytes, ghost start: State, ghost before: seq<Step>)
        returns (ok: bool, ghost steps: seq<Step>)
      requires Valid() && Legal(start, before) && state == Run(start, before)
      requires Holding(state.writer) && state.writer.payload == payload
      modifies this`state
      ensures Valid() && Legal(start, steps) && state == Run(start, steps)
      ensures Filter(steps, OfWriter) == Filter(before, OfWriter) + [if ok then WriteOk else WriteFails]
      ensures state.wire == old(state.wire) + if ok then [Frame(OP_BINARY, payload)] else []
      ensures state.writer == if !ok then StoppedByError
                              else if old(state.writer).First? then Measuring
                              else Continue(old(state.writer).left)
    {
      hide Inv, Run, Legal;
      ok := *;
      var step := if ok then WriteOk else WriteFails;
      WriterStep(start, before, step);
      StepKeepsInv(state, step);
      state := Take(state, step);
      steps := before + [step];
    }

    /** The writer measures how much of the queue it will write before it looks for a close again. */
    method Measure(ghost start: State, ghost before: seq<Step>) returns (chanLen: nat, ghost steps: seq<Step>)
      requires Valid() && Legal(start, before) && state == Run(start, before) && state.writer.Measuring?
      modifies this`state
      ensures Valid() && Legal(start, steps) && state == Run(start, steps)
      ensures Filter(steps, OfWriter) == Filter(before, OfWriter) + [Step.Measure]
      ensures chanLen == |queue| && state.writer == Continue(chanLen)
    {
      hide Inv, Run, Legal;
      WriterStep(start, before, Step.Measure);
      StepKeepsInv(state, Step.Measure);
      chanLen := |queue|;
      state := Take(state, Step.Measure);
      steps := before + [Step.Measure];
    }

    /** One payload out of the queue and onto the connection. */
    method WriteNext(ghost start: State, ghost before: seq<Step>) returns (ok: bool, ghost steps: seq<Step>)
      requires Valid() && Legal(start, before) && state == Run(start, before)
      requires state.writer.Selecting? || (state.writer.Batch? && state.writer.left > 0)
      requires queue != []
      modifies this
      ensures Valid() && Legal(start, steps) && state == Run(start, steps)
      ensures Filter(steps, OfWriter) == Filter(before, OfWriter) + Wrote(ok)
      ensures state.writer == if !ok then StoppedByError
                              else if old(state.writer).Selecting? then Measuring
                              else Continue(old(state.writer).left - 1)
      ensures |pending| + |queue| < |old(pending)| + |old(queue)|
    {
      hide Inv, Run, Legal, Take, Filter, OfWriter;
      var payload;
      payload, steps := Receive(start, before);
      steps := Interfere(start, steps);
      ok, steps := WriteFrame(payload, start, steps);
    }

    /**
     * The receive case of writeLoop. No receive in it ever finds the queue empty, since the writer
     * always has what the length it measured promised; a failed write ends it at once.
     */
    method WriteBatch(ghost start: State, ghost before: seq<Step>)
        returns (ok: bool, ghost steps: seq<Step>, ghost n: nat)
      requires Valid() && Legal(start, before) && state == Run(start, before)
      requires state.writer.Selecting? && queue != []
      modifies this
      ensures Valid() && Legal(start, steps) && state == Run(start, steps)
      ensures state.writer == if ok then Selecting else StoppedByError
      ensures ok ==> Filter(steps, OfWriter) == Filter(before, OfWriter) + Rounds(n)
      ensures !ok ==>
                || Filter(steps, OfWriter) == Filter(before, OfWriter) + Wrote(false)
                || Filter(steps, OfWriter) == Filter(before, OfWriter) + Rounds(n) + Wrote(false)
      ensures |pending| + |queue| < |old(pending)| + |old(queue)|
    {
      hide Run, Legal, Take, Filter, OfWriter, Conserved;
      n := 0;
      ok, steps := WriteNext(start, before);
      if !ok {
        return;
      }
      steps := Interfere(start, steps);
      var chanLen;
      chanLen, steps := Measure(start, steps);
      var i := 0;
      assert Filter(steps, OfWriter) == Filter(before, OfWriter) + Rounds(0);
      while i < chanLen
        invariant 0 <= i <= chanLen && n == i
        invariant Valid() && Legal(start, steps) && state == Run(start, steps)
        invariant state.writer == Continue(chanLen - i)
        invariant Filter(steps, OfWriter) == Filter(before, OfWriter) + Rounds(i)
        invariant |pending| + |queue| < |old(pending)| + |old(queue)|
      {
        steps := Interfere(start, steps);
        ok, steps := WriteNext(start, steps);
        if !ok {
          return;
        }
        i, n := i + 1, n + 1;
        assert Filter(steps, OfWriter) == Filter(before, OfWriter) + Rounds(i);
      }
    }

    /** Nothing in the queue and no close: the select waits for somebody else's next step. */
    method Wait(ghost start: State, ghost before: seq<Step>) returns (ghost steps: seq<Step>)
      requires Valid() && Legal(start, before) && state == Run(start, before) && pending != []
      modifies this
      ensures Valid() && Legal(start, steps) && state == Run(start, steps)
      ensures state.writer == old(state.writer)
      ensures |pending| < |old(pending)| && |pending| + |queue| <= |old(pending)| + |old(queue)|
    {
      hide Run, Legal, Take, Inv, OfWriter;
      steps := before;
      var step := pending[0];
      if !OfWriter(step) && Legal(state, [step]) {
        RunConcat(start, before, [step]);
        RunKeepsInv(state, [step]);
        OthersKeep(state, [step]);
        steps := before + [step];
        state := Run(state, [step]);
        queue := state.queue;
      }
      pending := pending[1..];
    }

    /**
     * writeLoop. What happens is a run of the state machine, so everything said of runs holds of the
     * loop. It ends by a failed write, by a close, or waits for good, and then only with an empty queue.
     */
    method WriteLoop() returns (ghost steps: seq<Step>)
      requires Valid() && state.writer.Selecting?
      modifies this
      ensures Valid() && Legal(old(state), steps) && state == Run(old(state), steps)
      ensures Stopped(state.writer) || (state.writer.Selecting? && queue == [] && !state.fired && pending == [])
      ensures state.writer.StoppedByClose? ==> state.fired
    {
      hide Run, Legal, Take, Conserved, Filter;
      ghost var start := state;
      NothingRuns(start);
      steps := [];
      while true
        invariant Valid() && Legal(start, steps) && state == Run(start, steps) && state.writer.Selecting?
        decreases |pending| + |queue|, |pending|
      {
        steps := Interfere(start, steps);
        var receive: bool := *;
        if queue != [] && (receive || !state.fired) {
          var ok;
          ghost var n;
          ok, steps, n := WriteBatch(start, steps);
          if !ok {
            return;
          }
        } else if state.fired {
          WriterStep(start, steps, SelectDone);
          StepKeepsInv(state, SelectDone);
          SelectStops(state);
          state := Take(state, SelectDone);
          steps := steps + [SelectDone];
          return;
        } else if pending == [] {
          return;
        } else {
          steps := Wait(start, steps);
        }
      }
    }
  }
}
