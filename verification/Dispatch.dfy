/**
 * ContextImpl.Dispatch of wxf/context.go: the receivers are grouped by gateway, and one group is
 * pushed. The sender's channel id is a parameter, since the context's session is a stub.
 */
module Dispatch {
  import opened Bytes
  import opened HeaderCodec
  import opened Packets
  import opened PacketObjects
  import opened Routing
  import opened Container

  const FLAG_PUSH: int32 := 2

  datatype Location = Location(channelId: GoString, gateId: GoString)

  // ---- Grouping ------------------------------------------------------------------------------

  function Others(recvs: seq<Location>, self: GoString): seq<Location> {
    if recvs == [] then []
    else
      var last := recvs[|recvs| - 1];
      var front := Others(recvs[..|recvs| - 1], self);
      if last.channelId == self then front else front + [last]
  }

  /** The channel ids at one gateway, in argument order. */
  function ChannelsAt(locs: seq<Location>, gate: GoString): seq<GoString> {
    if locs == [] then []
    else
      var last := locs[|locs| - 1];
      var front := ChannelsAt(locs[..|locs| - 1], gate);
      if last.gateId == gate then front + [last.channelId] else front
  }

  function Ids(locs: seq<Location>): seq<GoString> {
    seq(|locs|, i requires 0 <= i < |locs| => locs[i].channelId)
  }

  /** A map of groups is right when it has one group for each gateway that has receivers. */
  ghost predicate Grouped(group: map<GoString, seq<GoString>>, locs: seq<Location>) {
    forall g :: (g in group <==> ChannelsAt(locs, g) != []) && (g in group ==> group[g] == ChannelsAt(locs, g))
  }

  lemma {:induction false} OthersAreNotSelf(recvs: seq<Location>, self: GoString)
    ensures forall l :: l in Others(recvs, self) <==> l in recvs && l.channelId != self
  {
    if recvs != [] {
      OthersAreNotSelf(recvs[..|recvs| - 1], self);
      assert recvs == recvs[..|recvs| - 1] + [recvs[|recvs| - 1]];
    }
  }

  lemma {:induction false} OthersCount(recvs: seq<Location>, self: GoString, l: Location)
    ensures multiset(Others(recvs, self))[l] == if l.channelId == self then 0 else multiset(recvs)[l]
  {
    if recvs != [] {
      OthersCount(recvs[..|recvs| - 1], self, l);
      assert recvs == recvs[..|recvs| - 1] + [recvs[|recvs| - 1]];
    }
  }

  function NotFrom(self: GoString): Location -> bool {
    (l: Location) => l.channelId != self
  }

  function AtGate(gate: GoString): Location -> bool {
    (l: Location) => l.gateId == gate
  }

  /** The others are the receivers that are not the sender, in argument order. */
  lemma {:induction false} OthersFilter(recvs: seq<Location>, self: GoString)
    ensures Others(recvs, self) == Filter(recvs, NotFrom(self))
  {
    if recvs != [] {
      var front, last := recvs[..|recvs| - 1], recvs[|recvs| - 1];
      assert recvs == front + [last];
      OthersFilter(front, self);
      FilterConcat(front, [last], NotFrom(self));
      FilterOne(last, NotFrom(self));
    }
  }

  lemma {:induction false} ChannelsAtFilter(locs: seq<Location>, gate: GoString)
    ensures ChannelsAt(locs, gate) == Ids(Filter(locs, AtGate(gate)))
  {
    if locs != [] {
      var front, last := locs[..|locs| - 1], locs[|locs| - 1];
      assert locs == front + [last];
      ChannelsAtFilter(front, gate);
      FilterConcat(front, [last], AtGate(gate));
      FilterOne(last, AtGate(gate));
    }
  }

  /** The ids to be reached at one gateway, read off the arguments. */
  function Receivers(recvs: seq<Location>, self: GoString, gate: GoString): seq<GoString> {
    Ids(Filter(Filter(recvs, NotFrom(self)), AtGate(gate)))
  }

  lemma ReceiversAre(recvs: seq<Location>, self: GoString, gate: GoString)
    ensures ChannelsAt(Others(recvs, self), gate) == Receivers(recvs, self, gate)
  {
    OthersFilter(recvs, self);
    ChannelsAtFilter(Others(recvs, self), gate);
  }

  /** An instance: b and c at one gateway, a the sender, d elsewhere. */
  lemma OrderExample(a: GoString, b: GoString, c: GoString, d: GoString, g: GoString, h: GoString)
    requires a != b && a != c && a != d && g != h
    ensures Receivers([Location(b, g), Location(a, g), Location(d, h), Location(c, g)], a, g) == [b, c]
  {
    hide Filter;
    var recvs := [Location(b, g), Location(a, g), Location(d, h), Location(c, g)];
    var first, second := [Location(b, g), Location(a, g)], [Location(d, h), Location(c, g)];
    assert recvs == first + second;
    assert first == [first[0]] + [first[1]] && second == [second[0]] + [second[1]];
    var keep := NotFrom(a);
    FilterConcat(first, second, keep);
    FilterConcat([first[0]], [first[1]], keep);
    FilterConcat([second[0]], [second[1]], keep);
    FilterOne(first[0], keep);
    FilterOne(first[1], keep);
    FilterOne(second[0], keep);
    FilterOne(second[1], keep);
    assert Filter(recvs, keep) == [first[0]] + [second[0]] + [second[1]];
    FilterConcat([first[0]] + [second[0]], [second[1]], AtGate(g));
    FilterConcat([first[0]], [second[0]], AtGate(g));
    FilterOne(first[0], AtGate(g));
    FilterOne(second[0], AtGate(g));
    FilterOne(second[1], AtGate(g));
  }

  /** Nobody is lost, added or moved: an id is in a gateway's group as often as it was named there. */
  lemma {:induction false} GroupCount(locs: seq<Location>, gate: GoString, id: GoString)
    ensures multiset(ChannelsAt(locs, gate))[id] == multiset(locs)[Location(id, gate)]
  {
    if locs != [] {
      GroupCount(locs[..|locs| - 1], gate, id);
      assert locs == locs[..|locs| - 1] + [locs[|locs| - 1]];
    }
  }

  /** The groups partition the receivers other than the sender; no group is empty. */
  lemma GroupsConserve(group: map<GoString, seq<GoString>>, recvs: seq<Location>, self: GoString)
    requires Grouped(group, Others(recvs, self))
    ensures forall g :: g in group ==> group[g] != []
    ensures forall g, id :: multiset(if g in group then group[g] else [])[id]
                         == if id == self then 0 else multiset(recvs)[Location(id, g)]
  {
    forall g, id
      ensures multiset(if g in group then group[g] else [])[id]
           == if id == self then 0 else multiset(recvs)[Location(id, g)]
    {
      GroupCount(Others(recvs, self), g, id);
      OthersCount(recvs, self, Location(id, g));
    }
  }

  lemma {:induction false} ChannelsAtLength(locs: seq<Location>, gate: GoString)
    ensures |ChannelsAt(locs, gate)| <= |locs|
    ensures ChannelsAt(locs, gate) == Ids(locs) <==> forall i :: 0 <= i < |locs| ==> locs[i].gateId == gate
  {
    if locs != [] {
      var front, last := locs[..|locs| - 1], locs[|locs| - 1];
      ChannelsAtLength(front, gate);
      assert Ids(locs) == Ids(front) + [last.channelId];
      assert forall i :: 0 <= i < |front| ==> front[i] == locs[i];
      if last.gateId == gate {
        if ChannelsAt(locs, gate) == Ids(locs) {
          assert ChannelsAt(locs, gate)[..|Ids(front)|] == Ids(front);
        }
      } else {
        assert |ChannelsAt(locs, gate)| < |Ids(locs)|;
      }
    }
  }

  /** The one group that is pushed names every other receiver exactly when all are at its gateway. */
  lemma OneGroupIsAll(recvs: seq<Location>, self: GoString, gate: GoString)
    ensures ChannelsAt(Others(recvs, self), gate) == Ids(Others(recvs, self))
       <==> forall l :: l in recvs && l.channelId != self ==> l.gateId == gate
  {
    ChannelsAtLength(Others(recvs, self), gate);
    OthersAreNotSelf(recvs, self);
    var os := Others(recvs, self);
    assert (forall i :: 0 <= i < |os| ==> os[i].gateId == gate) <==> (forall l :: l in os ==> l.gateId == gate);
  }

  // ---- The method ----------------------------------------------------------------------------

  /** The packet pushed: the request's header fields, the push flag, the new body. */
  function Notice(request: Header, body: bytes): LogicPacket {
    var p := Answer(request);
    p.(header := p.header.(flag := FLAG_PUSH), body := body)
  }

  method Group(recvs: seq<Location>, self: GoString) returns (group: map<GoString, seq<GoString>>)
    ensures Grouped(group, Others(recvs, self))
    ensures forall g :: (g in group <==> Receivers(recvs, self, g) != [])
                     && (g in group ==> group[g] == Receivers(recvs, self, g))
  {
    group := map[];
    var i := 0;
    assert recvs[..0] == [];
    while i < |recvs|
      invariant 0 <= i <= |recvs|
      invariant Grouped(group, Others(recvs[..i], self))
    {
      ghost var before := Others(recvs[..i], self);
      var recv := recvs[i];
      assert recvs[..i + 1][..i] == recvs[..i] && recvs[..i + 1][i] == recv;
      i := i + 1;
      if recv.channelId == self {
        continue;
      }
      ghost var now := Others(recvs[..i], self);
      assert now == before + [recv] && now[..|now| - 1] == before;
      if recv.gateId !in group {
        group := group[recv.gateId := []];
      }
      group := group[recv.gateId := group[recv.gateId] + [recv.channelId]];
    }
    assert recvs[..|recvs|] == recvs;
    forall g {
      ReceiversAre(recvs, self, g);
    }
  }

  /** The packet on the wire, field by field: the flag is Push, the envelope is all its meta. */
  function Sent(request: Header, body: bytes, ids: seq<GoString>, gate: GoString): LogicPacket {
    LogicPacket(
      Header(request.command, request.channelId, request.sequence, 2, request.status, request.dest,
             [Meta(DEST_CHANNELS, Join(ids), 1, []), Meta(DEST_SERVER, gate, 1, [])], []),
      body)
  }

  lemma SentIsEnvelope(request: Header, body: bytes, ids: seq<GoString>, gate: GoString)
    ensures Envelope(Notice(request, body), ids, gate) == Sent(request, body, ids, gate)
  {
  }

  /**
   * Which group is pushed depends on the iteration order of a Go map, so any may be; the answer to the
   * one push is the result.
   */
  method DispatchTo(srv: Srv, request: Header, body: bytes, recvs: seq<Location>, self: GoString)
      returns (gate: Option<GoString>, ok: bool)
    modifies srv
    ensures gate == None <==> Filter(recvs, NotFrom(self)) == []
    ensures match gate
            case None => srv.pushed == old(srv.pushed) && ok
            case Some(g) =>
              var ids := Receivers(recvs, self, g);
              && ids != [] && srv.answers == old(srv.answers) + [ok]
              && srv.pushed == old(srv.pushed) + [Push(g, Packets.Marshal(Logic(Sent(request, body, ids, g))))]
  {
    OthersFilter(recvs, self);
    if recvs == [] {
      return None, true;
    }
    var packet := new LogicPkt.NewFrom(request);
    packet.header := packet.header.(flag := FLAG_PUSH);
    packet.body := body;
    assert packet.Value() == Notice(request, body);
    var group := Group(recvs, self);
    NoGroups(group, Others(recvs, self));
    if group == map[] {
      return None, true;
    }
    assert group.Keys != {};
    var g :| g in group.Keys;
    SentIsEnvelope(request, body, group[g], g);
    ok := DispatcherPush(srv, g, group[g], packet);
    gate := Some(g);
  }

  lemma NoGroups(group: map<GoString, seq<GoString>>, locs: seq<Location>)
    requires Grouped(group, locs)
    ensures group == map[] <==> locs == []
  {
    if locs != [] {
      var last := locs[|locs| - 1];
      assert ChannelsAt(locs, last.gateId) != [];
      assert last.gateId in group;
    }
  }
}
