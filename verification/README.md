# wxf instant messaging: verified model

wxf is an instant-messaging server in Go. Clients hold connections to gateways, gateways hold TCP
connections to logic servers, and a logic server reaches a client by pushing a packet to the client's
gateway inside a routing envelope. This project models the parts where that can go wrong and proves,
for all inputs and all runs, what they do.

`dafny verify dfyconfig.toml` checks everything.

| file | what it models |
|---|---|
| `Bytes.dfy`, `Endian.dfy` | bytes, errors, big-endian integers, length-prefixed strings, the reader and the buffer |
| `Utf8.dfy`, `ProtoWire.dfy`, `HeaderCodec.dfy` | UTF-8 (section 4 of RFC 3629), the Protocol Buffers record layer with varints, groups and unknown fields, and the Header and Meta messages |
| `MetaList.dfy` | lookup, append and the deletion loop that shifts the slice it ranges over |
| `Packets.dfy`, `PacketObjects.dfy` | logic and basic packets as values, and as objects that are decoded, edited and encoded in place |
| `Frames.dfy` | TCP frames and streams of frames |
| `Routing.dfy`, `Container.dfy` | the envelope, `pushMessage`, and the gateway's `readLoop` |
| `Sequence.dfy`, `ChannelIds.dfy` | the lock-free counter under any interleaving, and the ids built from it |
| `Registry.dfy` | the servers' connection map under any interleaving of accepts, pushes and disconnects |
| `Gateway.dfy` | counter, ids and registry of a gateway in one run |
| `Delivery.dfy` | a gateway's registry and the channels of its clients in one run |
| `ChannelWriter.dfy`, `ChannelReader.dfy` | concurrent `Push`, the queue of five and the batching `writeLoop`; the `Readloop` that answers pings |
| `HandlerChain.dfy`, `Router.dfy` | re-entrant `Next`, registration and serving |
| `Dispatch.dfy` | grouping receivers by gateway |
| `EndToEnd.dfy`, `WireExample.dfy` | the components put together, and one push byte by byte |

Sequential code is a class or method with loops, proved against a specification function; concurrent
code is a state machine whose steps are the atomic actions of the source, and the methods of the source
are proved to be runs of it with other goroutines at work before each of their actions. A Go string is
a sequence of bytes.

## What came out

- A packet pushed for a non-empty list of channels, in a frame whose length fits its field, reaches
  exactly these, once each, in order and unchanged, if and only if it carried neither routing key before, no id holds a comma, and its own
  strings, the ids and the gateway name are UTF-8 (`EndToEnd.PushEndToEnd`). An account name with a
  comma therefore makes an id that cannot be reached (`EndToEnd.GeneratedIdDelivered`), and a packet
  with a string that is not UTF-8 never arrives, since its encoding error is dropped
  (`EndToEnd.NotUtf8Example`).
- At the gateway the pushes of such a packet for different ids, made one after the other, are accepted
  by exactly the channels of the connections with these ids, if these are between `Add` and `Remove`,
  not closed, and have room (`EndToEnd.PacketReachesClients`). In every run, whatever interferes, a
  client is written only what was pushed for its id, and no more often (`Delivery.OnlyTheirs`).
- `DelMeta` deletes what its name says if and only if the entries with the key stand together at the
  end of the list, or each has an entry with another key right behind it; on key, other, key it removes
  all three (`MetaList.DelMetaExact`, `MetaList.DelMetaLosesEntry`).
- `readLoop` ends in a failed type assertion, not an error, exactly when a handled packet is addressed
  to this gateway and its first "dest.channels" entry is an int or a float (`Container.Resync`,
  `Routing.PanicExactly`). A packet does this to the gateway it is pushed to exactly when it already
  carried such an entry as its first "dest.channels", carried no "dest.server" entry or first one with
  that gateway's name, and its strings, the ids and the gateway name are UTF-8
  (`EndToEnd.PushPanics`, `EndToEnd.PanicExample`).
- The counter never returns its maximum, and equal results are at least 2^32 - 2 results apart in
  every interleaving. It returns 0 exactly when a second thread adds between the first one's add and
  its compare-and-swap (`Sequence.DistinctWindow`, `Sequence.ZeroReturned`). A swap fails only after
  another thread added and returned 0 or swapped and returned 1 (`Sequence.FailedSwap`), so a call
  starts over at most once for every step of the others (`Sequence.SharedCounter.Next`).
- A push reaches only a connection that was issued its id, in every run. The registry's map is exact
  throughout a run if and only if no `Add` finds its id in the map (`Registry.RegistryExact`). That is
  so when no two connections with one id are between `Get` and `Add` together
  (`Registry.RegistrySafe`); such a pair can still end well or badly, as the goroutines are scheduled
  (`Registry.RaceEndsWell`, `Registry.RaceEndsBadly`). With the gateway's ids no such pair arises as
  long as connections check their id, and wait behind the check, while theirs is one of the last
  2^32 - 2 numbers drawn (`Gateway.GatewayRegistrySafe`); with one number more the map can become wrong
  (`Gateway.WindowNeeded`).
- A handler chain with nil entries stops at the first place where nils outnumber the calls of `Next`
  made so far (`HandlerChain.ChainReach`).
- `Dispatch` returns inside its loop, so it pushes one group only; it reaches every receiver exactly
  when they share a gateway (`Dispatch.OneGroupIsAll`). What a receiver then reads has the request's
  fields, the push flag and the given body (`EndToEnd.DispatchEndToEnd`). Pushing the same packet object to a second
  gateway would be turned away there (`EndToEnd.SecondPushRejected`).

## Assumptions

- protobuf's Go library is not part of the repository. It is modelled from the sections "Base 128
  Varints", "Message Structure", "Length-Delimited Records", "Submessages" and "Groups" of the
  Protocol Buffers Encoding specification: proto3 defaults are omitted, fields are written in number
  order, strings must be UTF-8, the last scalar wins, unknown fields are kept and written last, and
  field numbers are 1 to 2^29 - 1.
- `ChannelImpl.WriteFrame` takes no lock. The writer model takes a frame as one step. A write that
  fails is one that leaves nothing, or a part of its frame with nothing written behind it
  (`ChannelWriter.PeerReadsTorn`): that a later pong runs into such a part is not modelled.
- `ContextImpl.Session()` is a stub that panics. The sender's channel id is a parameter of Dispatch,
  and the not-found handler, whose answer needs the session, panics (`Router.Router.Serve`). What else
  registered handlers do besides calling `Next` is left out.
- A packet's unknown protobuf fields are as a decoder leaves them, or none.
- `Event.Fire` has no caller in the repository. It is a step the environment may take.
- Whether a write or a push succeeds, what a connection receives, and in which order goroutines run
  is left open.

## Model

| member | source | states |
|---|---|---|
| Endian.Reader.ReadFull | wxf/wire/endian/helper.go:69-76 | takes exactly the bytes asked for, or fails with EOF when there were none and with unexpected EOF when there were too few |
| Endian.Reader.ReadUint | wxf/wire/endian/helper.go:11-43 | reads the big-endian value of the next 1, 2, 4 or 8 bytes and nothing else |
| Endian.Reader.ReadBytes | wxf/wire/endian/helper.go:55-66 | reads as many bytes as the length field says, or fails |
| Endian.Buffer.WriteUint | wxf/wire/endian/helper.go:79-115 | appends the big-endian bytes of a value |
| Endian.Buffer.WriteBytes | wxf/wire/endian/helper.go:126-136 | appends the length, truncated to its width, and the data |
| Endian.BigEndianDigits | wxf/wire/endian/helper.go:98-105 | every byte written is the digit of its weight, most significant first |
| Endian.UintRoundTrip | wxf/wire/endian/helper.go:19-25 | an integer that fits its width is read back from what was written |
| Endian.PutUintOfUint | wxf/wire/endian/helper.go:19-25 | any bytes are the ones written for the integer they read as |
| Endian.BytesRoundTrip | wxf/wire/endian/helper.go:126-161 | a byte string comes back with its tail untouched if and only if its length fits the length field |
| Endian.TakeBytesExtend | wxf/wire/endian/helper.go:55-66 | reading a byte string never depends on the bytes behind it |
| Endian.BytesReencode | wxf/wire/endian/helper.go:55-66 | writing what was read reproduces the bytes consumed |
| Endian.BytesPrefixRejected | wxf/wire/endian/helper.go:55-66 | every strict prefix of a written byte string is rejected |
| Endian.SmallBytes | wxf/wire/endian/helper.go:126-136 | the layout: four bytes of length, most significant first, then the data |
| Utf8.ValidExactly | wxf/wire/pkt/packet.go:35-39 | a string can be marshalled as text if and only if it is the concatenated UTF-8 bytes of Unicode scalar values |
| ProtoWire.VarintRoundTrip | wxf/wire/proto/common.proto:44-54 | every 64-bit value is read back from its varint, whatever follows |
| ProtoWire.VarintMeaning | wxf/wire/pkt/packet.go:24 | a varint is read, overlong or not, if and only if it ends within ten bytes and 64 bits, as the number of its seven-bit groups |
| ProtoWire.WireTypes | wxf/wire/pkt/packet.go:24 | the wire types by their numbers and the lengths of their values |
| ProtoWire.GroupExample | wxf/wire/pkt/packet.go:24 | a group ends at its own end tag and at no other |
| ProtoWire.FieldNumbers | wxf/wire/pkt/packet.go:24 | a tag is accepted if and only if its field number is from 1 to 2^29 - 1 |
| ProtoWire.ValueStable | wxf/wire/proto/common.proto:44-54 | a field value of any wire type, nested groups included, is delimited by its own bytes alone |
| ProtoWire.RecordsRoundTrip | wxf/wire/proto/common.proto:44-54 | a message of well-formed records splits into exactly these records |
| ProtoWire.ParsedWellFormed | wxf/wire/proto/common.proto:44-54 | whatever parses, canonical or not, is a list of well-formed records |
| ProtoWire.ParseAppend | wxf/wire/proto/common.proto:44-54 | messages that parse concatenate to the concatenation of their records |
| HeaderCodec.MetaRoundTrip | wxf/wire/proto/common.proto:22-26 | decoding the encoding of any valid meta entry returns it |
| HeaderCodec.HeaderRoundTrip | wxf/wire/proto/common.proto:44-54 | decoding the encoding of any valid header returns it: defaults, negative enums, meta order and unknown fields included |
| HeaderCodec.DecodedHeaderValid | wxf/wire/pkt/packet.go:19-33 | every header a decoder can return can be written again |
| HeaderCodec.FoldMeaning | wxf/wire/pkt/packet.go:24 | which record lists decode and to what: the last scalar of each field by number, entries in order, all else kept |
| HeaderCodec.DecodeEncodeDecode | wxf/wire/pkt/packet.go:19-47 | re-encoding any decoded header, canonical or not, decodes to the same header |
| HeaderCodec.HeaderPrefixDiffers | wxf/wire/pkt/packet.go:19-33 | no strict prefix of the encoding of a header decodes to that header |
| HeaderCodec.ReferenceBytes | wxf/wire/proto/common.proto:22-54 | field numbers and wire types give the bytes the schema prescribes |
| HeaderCodec.HeaderBytes | wxf/wire/proto/common.proto:44-54 | the bytes of a header are its fields in number order behind their tags, negative enums as 64-bit numbers |
| HeaderCodec.ReferenceHeader | wxf/wire/proto/common.proto:22-54 | the bytes of a header with all seven fields set, one enum negative |
| MetaList.RunState | wxf/wire/pkt/packet.go:70-80 | the loop invariant of the deletion: what is settled, what is still read, and what the stale tail does |
| MetaList.DelMetaClosedForm | wxf/wire/pkt/packet.go:70-80 | the result of the deletion loop on every list, duplicates included; no index or slice bound is ever out of range |
| MetaList.DelMetaExact | wxf/wire/pkt/packet.go:70-80 | the loop deletes exactly the entries with the key if and only if they stand together at the end or each has an entry with another key right behind it |
| MetaList.WithoutFilters | wxf/wire/pkt/packet.go:70-80 | the exact deletion keeps the entries with other keys, in order, and no others |
| MetaList.DelMetaOnce | wxf/wire/pkt/packet.go:70-80 | with the key at most once the result is the list without that entry, order kept |
| MetaList.DelMetaLosesEntry | wxf/wire/pkt/packet.go:70-80 | on key, other, key the loop removes the other entry too |
| MetaList.AddThenDelete | wxf/wire/pkt/packet.go:70-92 | appending an entry and deleting its key restores the list if and only if the key was absent |
| MetaList.FindAbsent | wxf/wire/pkt/packet.go:53-68 | lookup fails exactly when no entry has the key |
| MetaList.FindByKind | wxf/wire/pkt/packet.go:53-68 | lookup answers by the type of the first entry: 0 int, 2 float, else text |
| MetaList.FindConcat | wxf/wire/pkt/packet.go:53-68 | lookup takes the first match, so later entries matter only for absent keys |
| MetaList.MetaRunRefines | wxf/wire/pkt/packet.go:49-92 | over every run that adds no key twice, the list behaves as a plain map under add, delete and lookup |
| Packets.LogicRoundTrip | wxf/wire/pkt/packet.go:19-47 | Read on Marshal of a logic packet and any tail gives both back if and only if its strings are UTF-8 and header and body lengths fit |
| Packets.ReadLogicCanonical | wxf/wire/pkt/common.go:38-73 | whatever was read as a logic packet is read again from its own Marshal |
| Packets.BasicRoundTrip | wxf/wire/pkt/basic_pkt.go:19-48 | Read on Marshal of a basic packet and any tail gives both back if and only if Length is the length of Body |
| Packets.BasicReencode | wxf/wire/pkt/basic_pkt.go:19-48 | writing a basic packet that was read reproduces the bytes consumed |
| Packets.OtherKindRejected | wxf/wire/pkt/common.go:16-36 | each Must-reader rejects every encoding of the other kind |
| Packets.OtherKindNamed | wxf/wire/pkt/common.go:16-36 | a well-formed packet of the other kind gives the error for its kind |
| Packets.ReadErrors | wxf/wire/pkt/common.go:38-60 | too few bytes give an EOF error, an unknown magic its own, and the Must-readers pass errors on |
| Packets.ReadExtend | wxf/wire/pkt/common.go:38-60 | reading a packet never depends on the bytes behind it |
| Packets.PacketPrefixRejected | wxf/wire/pkt/common.go:38-60 | every strict prefix of a written packet is rejected |
| Packets.PacketsUnique | wxf/wire/pkt/common.go:62-73 | equal bytes start with equal packets and leave equal rests |
| Packets.PingBytes | wxf/wire/pkt/basic_pkt.go:35-48 | the bytes of the heartbeat packet |
| PacketObjects.LogicPkt.NewFrom | wxf/wire/pkt/packet.go:115-125 | an answer has the request's command, channelId, sequence, status and dest, flag 0, no meta and no body |
| PacketObjects.LogicPkt.GetMeta | wxf/wire/pkt/packet.go:49-68 | the loop finds the first entry with the key, read by its type, or nothing |
| PacketObjects.LogicPkt.AddMeta | wxf/wire/pkt/packet.go:90-92 | the entry is appended, in place or in a larger array, and all else is kept |
| PacketObjects.LogicPkt.AddStringMeta | wxf/wire/pkt/packet.go:82-88 | a string-typed entry is appended |
| PacketObjects.CopyDown | wxf/wire/pkt/packet.go:75 | the in-place copy moves the entries behind the hole up by one and leaves a stale last one |
| PacketObjects.LogicPkt.DelMeta | wxf/wire/pkt/packet.go:70-80 | the in-place loop over the backing array computes the specified result and keeps all other fields |
| PacketObjects.LogicPkt.Decode | wxf/wire/pkt/packet.go:19-33 | the object becomes the decoded packet and the reader is left behind it, or the error is returned |
| PacketObjects.LogicPkt.Encode | wxf/wire/pkt/packet.go:35-47 | the encoding is appended, nothing at all when the header cannot be written |
| PacketObjects.BasicPkt.Decode | wxf/wire/pkt/basic_pkt.go:19-33 | the object becomes the decoded packet, its old body staying when the length is 0, and the reader is left behind it, or the error is returned |
| PacketObjects.BasicPkt.Encode | wxf/wire/pkt/basic_pkt.go:35-48 | the encoding is appended |
| PacketObjects.Read | wxf/wire/pkt/common.go:38-60 | the magic decides which packet a new object is decoded as |
| PacketObjects.MustReadLogicPkt | wxf/wire/pkt/common.go:16-25 | a logic packet, or an error on anything else |
| PacketObjects.MustReadBasicPkt | wxf/wire/pkt/common.go:27-36 | a basic packet, or an error on anything else |
| PacketObjects.MarshalLogic | wxf/wire/pkt/common.go:62-73 | the bytes of a logic packet behind its magic |
| PacketObjects.MarshalBasic | wxf/wire/pkt/common.go:62-73 | the bytes of a basic packet behind its magic |
| Frames.FrameRoundTrip | wxf/tcp/connection.go:39-71 | a frame comes back with its tail untouched if and only if its payload length fits |
| Frames.FrameBytes | wxf/constants.go:8-11 | the bytes of a binary frame and of the close, ping and pong frames |
| Frames.FrameReencode | wxf/tcp/connection.go:39-71 | writing a frame that was read reproduces the bytes consumed |
| Frames.FramePrefixRejected | wxf/tcp/connection.go:39-52 | every strict prefix of a written frame is rejected |
| Frames.StreamRoundTrip | wxf/tcp/connection.go:39-71 | a stream of frames cut anywhere is read back frame by frame up to the cut |
| Frames.StreamUnique | wxf/tcp/connection.go:39-71 | frames and a cut-off one split in exactly one way |
| Frames.StreamReencode | wxf/tcp/connection.go:39-71 | on any bytes, the frames read account for everything before the first error |
| Container.ReadFrame | wxf/tcp/connection.go:39-52 | one frame off the connection, or the read error |
| Container.WriteFrame | wxf/tcp/connection.go:63-71 | the frame is appended to the connection |
| Container.Client.Read | wxf/tcp/client.go:104-119 | without a connection an error, a close frame is an error, any other frame is handed on |
| Routing.SplitJoin | wxf/services/server/serv/handler.go:99 | a list of ids survives the comma-separated form if and only if it is not empty and no id has a comma |
| Routing.JoinSplit | wxf/container/container.go:176 | splitting loses nothing: joining the pieces gives the text back |
| Routing.JoinText | wxf/services/server/serv/handler.go:99 | the joined text is UTF-8 if and only if every id is |
| Routing.EnvelopeOpens | wxf/container/container.go:166-189 | with the routing keys absent at first, the gateway accepts the envelope and restores the packet |
| Routing.EnvelopeLeavesTrace | wxf/container/container.go:166-189 | with a routing key present at first, the packet is not restored |
| Routing.MarshalInjective | wxf/wire/pkt/common.go:62-73 | packets have the same bytes if and only if they are the same, even when only one is known to be writable |
| Routing.EnvelopeDelivers | wxf/container/container.go:166-189 | the unchanged packet is pushed once to each id in order if and only if no routing key was present and no id has a comma |
| Routing.EmptyListPushesOnce | wxf/container/container.go:176-187 | an empty id list makes the gateway push once, to the empty id |
| Routing.PanicExactly | wxf/container/container.go:166-176 | the type assertion of pushMessage fails if and only if the first server entry is this gateway's name and the first channels entry is an int or float |
| Routing.VerdictMeaning | wxf/container/container.go:166-189 | each way pushMessage can end, if and only if the first server and channels entries are of its kind |
| Routing.StripOrder | wxf/container/container.go:177-178 | the server entries are deleted first, which on a list with duplicates matters |
| Container.DispatcherPush | wxf/services/server/serv/handler.go:98-101 | the packet gains the envelope, its bytes go to the gateway's channel, and the answer is passed on |
| Container.Push | wxf/container/container.go:119-122 | the packet gains its server entry, its bytes go to that server, and the answer is passed on |
| Container.PushMessage | wxf/container/container.go:166-189 | the verdict on the packet, and one push per channel id in order with the stripped packet's bytes |
| Container.ReadLoop | wxf/container/container.go:291-316 | the loop over the connection makes exactly the specified pushes and ends as specified |
| Container.HandleFrame | wxf/container/container.go:302-314 | one frame causes the pushes of its logic packet, or none |
| Container.Resync | wxf/container/container.go:297-315 | of any frames and a cut, exactly the logic packets in binary frames before the first close are handled, in order; the loop ends with an error if and only if none of them is addressed to this gateway with its first channels entry an int or float |
| Sequence.StepKeepsInv | wxf/wire/seq.go:12-21 | every atomic action continues the chain of results |
| Sequence.DistinctWindow | wxf/wire/seq.go:12-21 | in every interleaving the maximum is never returned and equal results are at least max - 1 results apart |
| Sequence.WindowDistinct | wxf/wire/seq.go:12-21 | any max - 1 results in a row are pairwise different |
| Sequence.ZeroReturned | wxf/wire/seq.go:12-21 | 0 is returned if and only if one thread adds while the counter holds the maximum and another thread is between its add and its swap |
| Sequence.ZeroHappens | wxf/wire/seq.go:12-21 | two threads suffice for a 0, for every maximum |
| Sequence.FailedSwap | wxf/wire/seq.go:15-18 | between a thread's add and its swap it takes no step, and if the swap fails another thread meanwhile added and returned 0, or swapped and returned 1 |
| Sequence.SwapAfterMoves | wxf/wire/seq.go:15-18 | the converse is false: the counter may be back at the maximum and the swap succeed |
| Sequence.SequentialCycle | wxf/wire/seq.go:12-21 | undisturbed calls walk the cycle 1 to max - 1 |
| Sequence.Counter.Next | wxf/wire/seq.go:12-21 | the method on the 32-bit word returns the next value of the cycle and never has to start over |
| Sequence.SharedCounter.Next | wxf/wire/seq.go:12-21 | with other threads at work before each action the call is a run of the protocol, returns what its last step decided, and starts over at most once for every step of the others |
| Sequence.CallIsNext | wxf/wire/seq.go:12-21 | the steps of one undisturbed call have the result of the method |
| ChannelIds.GenerateChannelId | wxf/services/gateway/serv/handler.go:143-145 | the id holds the next number of the counter |
| ChannelIds.IdExample | wxf/services/gateway/serv/handler.go:144 | gate, bob and 120 make gate_bob_120 |
| ChannelIds.DecimalRoundTrip | wxf/services/gateway/serv/handler.go:144 | decimal text stands for one number |
| ChannelIds.IdEquality | wxf/services/gateway/serv/handler.go:143-145 | ids are equal if and only if the numbers and the texts before them are |
| ChannelIds.IdInjective | wxf/services/gateway/serv/handler.go:143-145 | one service never repeats an id for another account or number, for arbitrary account strings |
| ChannelIds.ServicesCollide | wxf/services/gateway/serv/handler.go:143-145 | two services with an underscore in their names can make one id |
| ChannelIds.IdsInWindowDistinct | wxf/services/gateway/serv/handler.go:116 | ids from fewer than max results in a row differ, in every interleaving of callers |
| ChannelIds.IdCommaFree | wxf/services/gateway/serv/handler.go:143-145 | an id has no comma if and only if service and account have none |
| ChannelIds.IdText | wxf/services/gateway/serv/handler.go:143-145 | an id is UTF-8 if and only if service and account are |
| Registry.PushStep | wxf/tcp/server.go:147-153 | entries, pushes under way and pushes made are bound to the connection that was issued their id |
| Registry.LogGrows | wxf/tcp/server.go:134-142 | each connection has Add, Remove, Disconnect and Close at most once, in this order |
| Registry.RunKeepsSound | wxf/websocket/server.go:72-101 | both hold in every run, races included |
| Registry.MapStep | wxf/tcp/server.go:117-153 | a step that is not an Add of a taken id keeps the map exact: it holds an id for a connection exactly while that is between Add and Remove |
| Registry.MapBreaks | wxf/tcp/server.go:134 | an Add that finds its id taken makes the map wrong |
| Registry.RegistryExact | wxf/tcp/server.go:117-153 | every state of a run is exact if and only if no Add finds its id taken |
| Registry.CheckStep | wxf/tcp/server.go:125-134 | without a race, a connection past the check has an id that is neither in the map nor waited for |
| Registry.RegistrySafe | wxf/websocket/server.go:72-101 | in a run without a race between Get and Add no Add finds its id taken, and all invariants hold |
| Registry.RaceEndsWell | wxf/websocket/server.go:79-88 | from the start, two connections with one id race and the map is exact throughout |
| Registry.RaceEndsBadly | wxf/websocket/server.go:79-98 | from the start, two connections with one id race, the second takes the first one's entry, and the first one's Remove deletes it while the second is served |
| Registry.RaceIsFatal | wxf/websocket/server.go:79-88 | every run with a race has a prefix that can go on to a wrong map |
| Registry.Server.HandleConn | wxf/tcp/server.go:117-142 | with anybody else at work before each action, the goroutine of a connection is a run in which it fails to be accepted, is refused, or goes from Add through Remove and Disconnect to Close |
| Registry.Server.Push | wxf/tcp/server.go:147-153 | the channel the map holds for the id, or none; the payload goes to a connection that was issued the id |
| Gateway.StepKeepsOwned | wxf/services/gateway/serv/handler.go:143-145 | in a joint run of counter and registry no result belongs to two goroutines, and no two connections have one ticket |
| Gateway.StepKeepsMade | wxf/services/gateway/serv/handler.go:116-145 | every id issued is made of the number its connection drew |
| Gateway.GatewayRegistrySafe | wxf/websocket/server.go:72-101 | in every joint run in which connections check and wait while their number is among the last max - 1, the registry is safe |
| Gateway.WindowNeeded | wxf/websocket/server.go:79-88 | with a window of max, for every maximum and account, a run makes the map wrong |
| ChannelWriter.StepKeepsInv | wxf/channel.go:42-66 | every step of pushers, writer and reader conserves payloads and keeps the batch supplied |
| ChannelWriter.Conservation | wxf/channel.go:42-66 | accepted payloads are those written, in hand, lost to a failed write and queued, as one sequence; at most six are not written |
| ChannelWriter.SixUnwritten | wxf/channel.go:29 | six unwritten payloads are reached |
| ChannelWriter.BatchNeverBlocks | wxf/channel.go:50-57 | a receive in the inner loop always finds a payload |
| ChannelWriter.CloseBetweenBatches | wxf/channel.go:44-64 | a close stops the writer only with nothing in hand and no batch begun |
| ChannelWriter.BatchDrains | wxf/channel.go:50-57 | back at the select, exactly the payloads queued when the length was measured have been written |
| ChannelWriter.NothingNewAfterClose | wxf/channel.go:111-117 | after a close no further payload comes in; only pushers past the check may still send |
| ChannelWriter.StoppedForGood | wxf/channel.go:54-63 | after the writer has stopped nothing is written and the queue takes no more than its room |
| ChannelWriter.PeerReads | wxf/channel.go:102-105 | the peer reads back the frames written, data and pongs, whole and in order |
| ChannelWriter.PeerReadsTorn | wxf/channel.go:47-49 | after a failed write that left a part of its frame, the peer still reads the frames before it and nothing of that part |
| ChannelWriter.StepBalances | wxf/channel.go:111-117 | a payload comes in with the check of its pusher and is then accepted, refused or waiting, exactly once |
| ChannelWriter.Channel.WriteBatch | wxf/channel.go:45-61 | with others at work before each action, the receive case is a run of the state machine: one payload, the measured number of further ones, never a receive from an empty queue, and a failed write ends it |
| ChannelWriter.Channel.WriteLoop | wxf/channel.go:42-66 | the whole loop is such a run; it ends by a failed write or a close, and otherwise waits only with an empty queue |
| Delivery.StepKeepsBalance | wxf/tcp/server.go:147-153 | every channel has each payload handed to it by a push exactly once: accepted, refused or waiting |
| Delivery.OnlyTheirs | wxf/tcp/server.go:117-153 | in every run a payload is written to a connection no more often than it was handed to it by pushes for the id issued to it |
| Delivery.PushArrives | wxf/tcp/server.go:147-153 | a push for the id of a connection between Add and Remove with an open channel is accepted there, and nothing else changes |
| Delivery.AllArrive | wxf/container/container.go:182-187 | so are the pushes of a whole list for different ids |
| ChannelReader.ReadsUntilClose | wxf/channel.go:78-97 | of any frames and a cut, every nonempty payload before the first close that is not a ping's is handed on, in order, and each ping is answered once; the error is that of the close or else of the cut |
| ChannelReader.ReadExample | wxf/channel.go:78-97 | literal bytes of a ping, a payload, an empty frame, a close and more |
| ChannelReader.Readloop | wxf/channel.go:70-98 | the loop over the connection hands on and answers exactly that, but for pongs whose write fails, and returns that error |
| HandlerChain.NextConsumes | wxf/context.go:109-121 | the recursion consumes as many entries as a flat budget of Next calls |
| HandlerChain.ChainReach | wxf/context.go:109-121 | a chain stops at the first place where nils outnumber the calls of Next, and runs to its end if and only if there is none |
| HandlerChain.NextEnters | wxf/context.go:109-121 | every index passed is consumed once and its handler starts once, in chain order |
| HandlerChain.NextNests | wxf/context.go:109-121 | handler activations are properly nested |
| HandlerChain.NextIsOnion | wxf/context.go:109-121 | without nils every handler runs, and only whether it calls Next matters, not how often |
| HandlerChain.OnionOrder | wxf/context.go:109-121 | a handler that calls Next exits after every later one; one that does not exits before any later one starts |
| Router.ContextImpl.Next | wxf/context.go:109-121 | the re-entrant method terminates and does what the specification says |
| Router.ContextImpl.Reset | wxf/context.go:127-132 | request, index, handlers and session are cleared |
| Router.Router.Use | wxf/router.go:91-93 | the middlewares grow by the handlers |
| Router.Router.Add | wxf/router.go:74-79 | the node of the path grows by the handlers and exists afterwards |
| Router.Router.Handle | wxf/router.go:86-89 | the command gets the middlewares registered so far and then its handlers |
| Router.TableMeaning | wxf/router.go:74-93 | for every list of Use and Handle calls, the table holds for each command the concatenation over its Handle calls of the middlewares before the call and the call's handlers |
| Router.ChainExample | wxf/router.go:86-93 | Use m, Handle h, Use n, Handle g makes the chain m, h, m, n, g |
| Router.ServedMeaning | wxf/router.go:55-64 | lookup finds that chain for a command, and nothing, so that the not-found handler is put in, if and only if no Handle named it |
| Router.ServedRunsAll | wxf/router.go:55-64 | every handler of a served chain without nils starts exactly once, in order |
| Router.Router.Serve | wxf/router.go:35-64 | what runs depends on the table and the packet, not on the recycled context; a missing dispatcher or cache is an error; for a command nobody registered the not-found handler starts and panics |
| Dispatch.OthersFilter | wxf/context.go:89-93 | the others are the receivers that are not the sender, in argument order |
| Dispatch.ChannelsAtFilter | wxf/context.go:94-97 | a gateway's group is the ids of the receivers there, in argument order |
| Dispatch.OrderExample | wxf/context.go:88-98 | an instance with the sender and another gateway in between |
| Dispatch.Group | wxf/context.go:88-98 | the loop builds one group for each gateway with receivers: their ids in argument order, the sender's left out |
| Dispatch.GroupsConserve | wxf/context.go:88-98 | the groups partition the receivers other than the sender, as multisets; no group is empty |
| Dispatch.OneGroupIsAll | wxf/context.go:99-105 | the one group pushed names every other receiver if and only if all share its gateway |
| Dispatch.DispatchTo | wxf/context.go:78-107 | at most one push is made, for one whole group in argument order, of a packet given field by field: the request's fields, flag 2, the envelope as its meta, the given body; its answer is the result |
| EndToEnd.EnvelopeArrives | wxf/container/container.go:305-306 | the gateway reads the envelope as it was sent, or rejects it when a string of packet, ids or gateway was not UTF-8 |
| EndToEnd.PushEndToEnd | wxf/services/server/serv/handler.go:98-101 | from the dispatcher to the gateway's pushes: once per id, in order, the original bytes, if and only if the routing keys are absent, no id has a comma, and packet, ids and gateway are UTF-8 |
| EndToEnd.PushedPieces | wxf/container/container.go:176-187 | whether or not ids hold commas, the original bytes go once to each piece of the joined text |
| EndToEnd.NotUtf8Example | wxf/wire/pkt/packet.go:35-39 | an instance that never arrives: the command is the byte FF |
| EndToEnd.PushPanics | wxf/container/container.go:166-176 | a pushed packet makes the gateway's loop panic if and only if its first channels entry was an int or float before, it had no other server's name first, and packet, ids and gateway are UTF-8 |
| EndToEnd.PanicExample | wxf/container/container.go:176 | an instance: the channels entry is the int 7 |
| EndToEnd.Transmit | wxf/services/server/serv/handler.go:98-101 | the methods in a row, from the dispatcher through the frame to the gateway's loop, under the same exact condition |
| EndToEnd.EnvelopeFits | wxf/services/server/serv/handler.go:98-101 | a bound on header, body, ids and gateway name that makes the frame of a push fit |
| EndToEnd.PushExample | wxf/container/container.go:166-189 | an instance with two channels |
| EndToEnd.PushAmongFrames | wxf/container/container.go:291-316 | the same in the middle of any other frames |
| EndToEnd.HandledIsWritten | wxf/channel.go:87-91 | pongs between data frames do not change what the gateway handles |
| EndToEnd.WriterToGateway | wxf/channel.go:42-66 | the gateway handles the packets of a prefix of the accepted payloads, in order, all but at most six |
| EndToEnd.EnvelopesThroughWriter | wxf/channel.go:42-66 | when the payloads accepted by the gateway's channel are envelopes that can travel, the gateway makes exactly the pushes meant by the first of them, in order, once each, all but at most six |
| EndToEnd.PacketReachesClients | wxf/websocket/server.go:127-133 | from the dispatcher to the clients' channels: the pushes for different ids, made in a row, are accepted by each connection meant, if live and open, with the original bytes and once, and no other channel changes |
| EndToEnd.SentRead | wxf/context.go:82-84 | what is pushed is read at the gateway with the fields it was sent with, if and only if all strings are UTF-8 |
| EndToEnd.NoticeDelivered | wxf/context.go:82-104 | a notice for some ids is pushed once to each, in order, and each reads the request's fields, flag 2, the body and no meta, if and only if no id has a comma and all strings are UTF-8 |
| EndToEnd.DispatchEndToEnd | wxf/context.go:78-107 | so does a Dispatch whose receivers share a gateway for all of them in argument order, the sender never |
| EndToEnd.GeneratedIdDelivered | wxf/services/gateway/serv/handler.go:143-145 | over the wire, a generated id is reached if and only if the packet has no routing key, service and account have no comma, and they, the packet and the gateway's name are UTF-8 |
| EndToEnd.SecondPushRejected | wxf/container/container.go:166-171 | a packet pushed before to one gateway is turned away at another |
| WireExample.InstanceBytes | wxf/services/server/serv/handler.go:98-101 | the bytes of a packet and of its frame to the gateway, from opcode to body |
| WireExample.LiteralStream | wxf/container/container.go:297-315 | what the gateway pushes for literal bytes: a ping, junk, that frame, a close, the frame again |

## Left out

- Packets.LogicRoundTrip: assumes a header encoding below 2^64 bytes, which every Go slice satisfies.
- EndToEnd.PushEndToEnd: assumes a frame payload below 2^32 bytes; a longer one has a truncated length field (`Frames.FrameRoundTrip` says what that breaks).
- Sequence.Counter.Next: models calls that do not overlap, on the 32-bit word; overlapping calls are `Sequence.SharedCounter.Next`, where the other threads take finitely many steps.
- EndToEnd.Transmit: puts the frame on the connection itself; the lookup of the gateway's channel is `Registry.Server.Push` and its queue is in `EndToEnd.EnvelopesThroughWriter`.
- ChannelWriter.Channel.WriteLoop: others take finitely many steps, so waiting for good is an end of the method.
- Dispatch.DispatchTo: the group is chosen freely, as Go leaves the order of a map open.
- The int and float values `FindMeta` parses: their text is kept, since the routing keys are compared as strings only.
- The recursion limit the protobuf library sets on nested unknown groups.
- ChannelReader.Readloop: records the order in which the listener is started; each call runs in its own goroutine, so handlers may overlap.
- Read and write deadlines, heartbeats.
- `ChannelsImpl.All` and `Shutdown`: an order over a concurrent map and closing each channel.
- The websocket frame format: the library that writes it is not part of this model.
- Forwarding upstream: `Forward`, service lookup and selection, dialling, naming, container lifecycle.
- Login: tokens, sessions, `RespErr` and `RespWithError`, which build one packet and push another or are stubs.
- `pkt.New` with its options, `Header.ServiceName`, `getIP`, logging, configuration: only easy members.
