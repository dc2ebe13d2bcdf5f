/** wxf/router.go: middlewares, handlers by command, and serving a packet on a recycled context. */
module Router {
  import opened Bytes
  import opened Packets
  import opened HandlerChain

  /** The handler put in for a command nobody registered. */
  const NOT_FOUND: Handler := Func(0, 0)

  // ---- Registration --------------------------------------------------------------------------

  datatype Op = Use(handlers: seq<Handler>) | Handle(command: GoString, handlers: seq<Handler>)

  datatype Table = Table(middlewares: seq<Handler>, nodes: map<GoString, seq<Handler>>)

  const NO_ROUTES := Table([], map[])

  function NodeOf(nodes: map<GoString, seq<Handler>>, command: GoString): seq<Handler> {
    if command in nodes then nodes[command] else []
  }

  function Register(t: Table, op: Op): Table {
    match op
    case Use(hs) => t.(middlewares := t.middlewares + hs)
    case Handle(command, hs) =>
      t.(nodes := t.nodes[command := NodeOf(t.nodes, command) + t.middlewares + hs])
  }

  function RegisterAll(t: Table, ops: seq<Op>): Table
    decreases |ops|
  {
    if ops == [] then t else RegisterAll(Register(t, ops[0]), ops[1..])
  }

  // ---- What a registration means, read off the list of calls ---------------------------------

  ghost predicate Names(ops: seq<Op>, command: GoString) {
    exists k :: 0 <= k < |ops| && ops[k].Handle? && ops[k].command == command
  }

  /** The middlewares in force after the calls. */
  function InForce(ops: seq<Op>): seq<Handler> {
    if ops == [] then []
    else
      var last := |ops| - 1;
      if ops[last].Use? then InForce(ops[..last]) + ops[last].handlers else InForce(ops[..last])
  }

  /** For every Handle of the command: the middlewares in force at that call, then its handlers. */
  function ChainFor(ops: seq<Op>, command: GoString): seq<Handler> {
    if ops == [] then []
    else
      var last := |ops| - 1;
      if ops[last].Handle? && ops[last].command == command
      then ChainFor(ops[..last], command) + InForce(ops[..last]) + ops[last].handlers
      else ChainFor(ops[..last], command)
  }

  lemma {:induction false} RegisterLast(t: Table, ops: seq<Op>, op: Op)
    ensures RegisterAll(t, ops + [op]) == Register(RegisterAll(t, ops), op)
    decreases |ops|
  {
    hide Register;
    if ops == [] {
      assert (ops + [op])[0] == op && (ops + [op])[1..] == [];
    } else {
      assert (ops + [op])[0] == ops[0] && (ops + [op])[1..] == ops[1..] + [op];
      RegisterLast(Register(t, ops[0]), ops[1..], op);
    }
  }

  /** The table the calls build is the one they mean, for every list of Use and Handle calls. */
  lemma {:induction false} TableMeaning(ops: seq<Op>)
    ensures var t := RegisterAll(NO_ROUTES, ops);
            && t.middlewares == InForce(ops)
            && forall c :: (c in t.nodes <==> Names(ops, c)) && NodeOf(t.nodes, c) == ChainFor(ops, c)
    decreases |ops|
  {
    if ops != [] {
      var front, op := ops[..|ops| - 1], ops[|ops| - 1];
      assert ops == front + [op];
      TableMeaning(front);
      RegisterLast(NO_ROUTES, front, op);
      var t, u := RegisterAll(NO_ROUTES, front), RegisterAll(NO_ROUTES, ops);
      assert u == Register(t, op);
      forall c
        ensures (c in u.nodes <==> Names(ops, c)) && NodeOf(u.nodes, c) == ChainFor(ops, c)
      {
        NamesLast(front, op, c);
        assert (c in t.nodes <==> Names(front, c)) && NodeOf(t.nodes, c) == ChainFor(front, c);
      }
    }
  }

  lemma NamesLast(front: seq<Op>, op: Op, c: GoString)
    ensures Names(front + [op], c) <==> Names(front, c) || (op.Handle? && op.command == c)
  {
    var ops := front + [op];
    if Names(front, c) {
      var k :| 0 <= k < |front| && front[k].Handle? && front[k].command == c;
      assert ops[k] == front[k];
    }
    if op.Handle? && op.command == c {
      assert ops[|front|] == op;
    }
  }

  lemma ChainMore(ops: seq<Op>, op: Op, command: GoString)
    ensures InForce(ops + [op]) == InForce(ops) + if op.Use? then op.handlers else []
    ensures ChainFor(ops + [op], command)
         == if op.Handle? && op.command == command then ChainFor(ops, command) + InForce(ops) + op.handlers
            else ChainFor(ops, command)
  {
    assert (ops + [op])[..|ops|] == ops;
  }

  /** Use(m), Handle(c, h), Use(n), Handle(c, g): the chain of c is m, h, m, n, g. */
  lemma ChainExample(c: GoString, m: Handler, n: Handler, h: Handler, g: Handler)
    ensures ChainFor([] + [Use([m])] + [Handle(c, [h])] + [Use([n])] + [Handle(c, [g])], c) == [m, h, m, n, g]
  {
    NothingNamed(c);
    hide ChainFor, InForce;
    ChainMore([], Use([m]), c);
    ChainMore([] + [Use([m])], Handle(c, [h]), c);
    ChainMore([] + [Use([m])] + [Handle(c, [h])], Use([n]), c);
    ChainMore([] + [Use([m])] + [Handle(c, [h])] + [Use([n])], Handle(c, [g]), c);
  }

  lemma NothingNamed(c: GoString)
    ensures ChainFor([], c) == [] && InForce([]) == []
  {
  }

  // ---- Serving -------------------------------------------------------------------------------

  /** How serving a packet ends: with an error, normally, or in a panic. */
  datatype End = Refused | Served | Panicked

  /** FuncTree.Get. */
  function Lookup(t: Table, command: GoString): Option<seq<Handler>> {
    if command in t.nodes then Some(t.nodes[command]) else None
  }

  /**
   * What lookup finds for a command, said of the registration calls: nothing exactly when no Handle
   * named the command, and otherwise its chain.
   */
  lemma ServedMeaning(ops: seq<Op>, command: GoString)
    ensures Lookup(RegisterAll(NO_ROUTES, ops), command)
         == if Names(ops, command) then Some(ChainFor(ops, command)) else None
  {
    TableMeaning(ops);
  }

  /** With no nil registered, every handler of the served chain starts exactly once, in order. */
  lemma ServedRunsAll(ops: seq<Op>, command: GoString)
    requires NilFree(ChainFor(ops, command))
    ensures var found := Lookup(RegisterAll(NO_ROUTES, ops), command);
            found.Some? ==>
              && RunNext(found.value, 0) == (|found.value|, Onion(found.value, 0))
              && Enters(RunNext(found.value, 0).1) == seq(|found.value|, i => i)
  {
    ServedMeaning(ops, command);
    var ch := ChainFor(ops, command);
    NextIsOnion(ch, 0);
    NextEnters(ch, 0);
    AllHandlers(ch, 0);
  }

  lemma {:induction false} AllHandlers(ch: seq<Handler>, a: nat)
    requires a <= |ch| && NilFree(ch)
    ensures Handlers(ch, a, |ch|) == seq(|ch| - a, i => a + i)
    decreases |ch| - a
  {
    if a < |ch| {
      AllHandlers(ch, a + 1);
      assert [a] + seq(|ch| - a - 1, i => a + 1 + i) == seq(|ch| - a, i => a + i);
    }
  }

  lemma Regroup(s: seq<Event>, a: seq<Event>, b: seq<Event>, c: seq<Event>, d: seq<Event>)
    ensures s + a + b + c + d == s + (a + b + c + d)
  {
  }

  /** A context, taken from a pool in whatever state the last request left it. */
  class ContextImpl {
    var handlers: seq<Handler>
    var index: nat
    var request: Option<LogicPacket>
    var session: Option<GoString>
    var dispatcher: Option<nat>
    var cache: Option<nat>
    ghost var trace: seq<Event>

    constructor ()
      ensures trace == []
    {
      handlers, index, request, session := [], 0, None, None;
      dispatcher, cache, trace := None, None, [];
    }

    method Next()
      requires index <= |handlers|
      modifies this`index, this`trace
      ensures index == RunNext(handlers, old(index)).0
      ensures trace == old(trace) + RunNext(handlers, old(index)).1
      decreases |handlers| - index, 0
    {
      assert trace + [] == trace;
      if index >= |handlers| {
        return;
      }
      ghost var i, start := index, trace;
      var f := handlers[index];
      index := index + 1;
      if f.Nil? {
        return;
      }
      ghost var body := RunCalls(handlers, i + 1, f.calls);
      NextUnfold(handlers, i);
      trace := trace + [Enter(i)];
      Invoke(f.calls);
      trace := trace + [Exit(i)];
      Next();
      Regroup(start, [Enter(i)], body.1, [Exit(i)], RunNext(handlers, body.0).1);
    }

    /** The body of a handler that calls Next `calls` times. */
    method Invoke(calls: nat)
      requires index <= |handlers|
      modifies this`index, this`trace
      ensures index == RunCalls(handlers, old(index), calls).0
      ensures trace == old(trace) + RunCalls(handlers, old(index), calls).1
      decreases |handlers| - index, 1
    {
      ghost var all := RunCalls(handlers, index, calls);
      ghost var start := trace;
      var j := 0;
      assert trace + all.1 == start + all.1;
      while j < calls
        invariant 0 <= j <= calls && old(index) <= index <= |handlers|
        invariant all.0 == RunCalls(handlers, index, calls - j).0
        invariant start + all.1 == trace + RunCalls(handlers, index, calls - j).1
      {
        ghost var first := RunNext(handlers, index);
        ghost var rest := RunCalls(handlers, first.0, calls - j - 1).1;
        assert trace + (first.1 + rest) == trace + first.1 + rest;
        Next();
        j := j + 1;
      }
      assert trace + [] == trace;
    }

    /**
     * Next on the not-found handler alone. It starts, and its answer needs the session of the context,
     * a stub that panics.
     */
    method NotFound()
      requires index == 0 && handlers == [NOT_FOUND]
      modifies this`index, this`trace
      ensures index == 1 && trace == old(trace) + [Enter(0)]
    {
      index := 1;
      trace := trace + [Enter(0)];
    }

    method Reset()
      modifies this
      ensures request == None && index == 0 && handlers == [] && session == None && trace == old(trace)
    {
      request, index, handlers, session := None, 0, [], None;
    }
  }

  class Router {
    var table: Table

    constructor ()
      ensures table == NO_ROUTES
    {
      table := NO_ROUTES;
    }

    method Use(handlers: seq<Handler>)
      modifies this
      ensures table == Register(old(table), Op.Use(handlers))
    {
      table := table.(middlewares := table.middlewares + handlers);
    }

    /** FuncTree.Add. */
    method Add(command: GoString, handlers: seq<Handler>)
      modifies this
      ensures table == old(table).(nodes := old(table).nodes[command := NodeOf(old(table).nodes, command) + handlers])
    {
      if command !in table.nodes {
        table := table.(nodes := table.nodes[command := []]);
      }
      table := table.(nodes := table.nodes[command := table.nodes[command] + handlers]);
    }

    method Handle(command: GoString, handlers: seq<Handler>)
      modifies this
      ensures table == Register(old(table), Op.Handle(command, handlers))
    {
      Add(command, table.middlewares);
      Add(command, handlers);
    }

    method Get(command: GoString) returns (r: Option<seq<Handler>>)
      ensures r == Lookup(table, command)
    {
      r := if command in table.nodes then Some(table.nodes[command]) else None;
    }

    /**
     * Serve on the context the pool gives out: a missing dispatcher or cache is an error, and what
     * runs depends on the table and the packet alone, not on the state the context came in. For a
     * command nobody registered it panics in the not-found handler.
     */
    method Serve(ctx: ContextImpl, packet: LogicPacket, dispatcher: Option<nat>, cache: Option<nat>,
                 session: Option<GoString>) returns (end: End)
      modifies ctx
      ensures end.Refused? <==> dispatcher.None? || cache.None?
      ensures end.Refused? ==> ctx.trace == old(ctx.trace)
      ensures !end.Refused? ==>
                && ctx.request == Some(packet) && ctx.session == session
                && ctx.dispatcher == dispatcher && ctx.cache == cache
                && match Lookup(table, packet.header.command)
                   case None =>
                     && end == Panicked && ctx.handlers == [NOT_FOUND] && ctx.index == 1
                     && ctx.trace == old(ctx.trace) + [Enter(0)]
                   case Some(ch) =>
                     && end == Served && ctx.handlers == ch && ctx.index == RunNext(ch, 0).0
                     && ctx.trace == old(ctx.trace) + RunNext(ch, 0).1
    {
      if dispatcher.None? || cache.None? {
        return Refused;
      }
      ctx.Reset();
      ctx.request := Some(packet);
      ctx.dispatcher := dispatcher;
      ctx.cache := cache;
      ctx.session := session;
      var chain := Get(packet.header.command);
      if chain.None? {
        ctx.handlers := [NOT_FOUND];
        ctx.NotFound();
        return Panicked;
      }
      ctx.handlers := chain.value;
      ctx.Next();
      end := Served;
    }
  }
}
