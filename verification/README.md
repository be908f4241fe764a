# libbtcnet, modelled and proved in Dafny

This project models the four parts of libbtcnet that carry logic of their own on
top of libevent, and proves what they are for:

- the connection handler (`HandlerModel`, `HandlerInvariant`, `HandlerRuns`,
  `HandlerEvents`, `HandlerTheorems`, `HandlerReports`, `HandlerPromises`,
  `HandlerIndependence`, `HandlerFollow`, `HandlerBudgets`, `HandlerWalk`,
  `HandlerResolving`, `HandlerProxied`, `HandlerExamples`, `Protocol`, `Connections`,
  `Maps`, and the objects in `Handler`): connections move between connecting,
  connected, retried under a fresh id and gone, under an interface that answers as it
  likes;
- message framing over a fragmented stream (`Framing`, `FramingRuns`, `FramingWire`,
  and the buffer and callbacks in `EvBuffers` and `MessageReaders`), and the output
  side, with closing once everything is sent (`OutputSide`);
- the base32 codec (`Bits`, `Base32`, `Base32Numbers`), section 6 of RFC 4648;
- the SOCKS5 client (`Socks5`, `Handshake`, the callbacks in `BareProxies`, and the
  server's end in `SocksServer`), RFC 1928 and RFC 1929; and the parsing of host and
  port (`HostPort`, `HostPortPromises`).

`Widths` and `Wrappers` hold the integer widths and the option type they share.

## How it is built

Each part has a specification on values and, where the source updates state step
by step, classes and loops proved to compute it. The handler's specification is a
state machine: one function per operation, composed as the source composes them,
with the calls into the interface recorded in a trace. `Handler.ConnectionHandler`
has the source's maps and counters; its ghost field `abs` is the machine's state,
`Valid()` ties the fields and the connection objects to it, and `Dispatch` shows
that every event does to the objects what the machine's step does to `abs`, `Pump`
that any list of armed events takes them through the machine's run. The theorems
about runs are about the machine, from its boot state, over every sequence of events;
an event that is not armed does nothing (`OnlyArmedCount`).

What becomes of one connection over many events is stated by following it
(`HandlerFollow`): the id it is held by changes with every retry, and the events of
everything else come in between as they like. What is followed is the run itself
(`FollowsEveryRun`).

Where a specification function could be wrong together with what computes it, its
results are also stated from outside, without its name: what a sender put on the wire
(`FramingWire`), what a server reads (`SocksServer`), the numbers that bytes and
characters make up (`Base32Numbers`), the text of a host and port
(`HostPortPromises`), what each event does and what the caller of the handler asked
for (`HandlerEvents`, `HandlerPromises`).

Events are atomic: an external call and an event callback are one step each, and a
callback that re-enters the handler (an incoming connection, an attempt that fails
on the spot, a DNS address that is refused) is part of its step. The interface's
answers are part of the events. `issued` and `placed` count the ids handed out and
name the outgoing attempts, and a failure report is recorded with the number of the
attempt and what it was made for; the handler keeps none of these.

Where a documented or expected property does not hold as stated, the exact
condition is proved:

- Encoding a decoded base32 string does not give every accepted string back:
  after a whole number of groups the decoder does not look further
  (`SurplusPaddingAccepted`). It does exactly for strings that end with their last
  group (`InverseRoundTripExact`).
- A SOCKS5 reply is taken out exactly unless a name of 128 bytes or more meets a
  signed `char`, or a seven-byte reply is not followed by anything
  (`ReplyTransparent`). Whether `char` is signed is a parameter.
- An answer to SOCKS5 credentials is a refusal only if version and status are both
  wrong (`AuthAnswer`).
- Any SOCKS5 method but username and password is taken for none. The client goes on
  as it should exactly for no authentication, and for username and password if
  credentials are set (`MethodAnswer`); it goes on also when the server accepts none
  (`NoMethodIsTakenForNone`).
- A connection that is to be closed once everything is sent, and is written to no
  more, is certain to be closed then exactly if no check of its buffer that could
  find it full was due when it was asked (`ClosesWhenFinished`, `ClosingForgotten`).
- Room in the write buffer is reported when no more than the maximum is left
  (`RoomIsReported`), where the documentation has it below (`RoomAtTheMaximum`).
- Printing a name and reading it back gives it back exactly if it has no colon
  (`TwoColonsStay`) and what is printed is not read as an address
  (`AddressWithNoPort`; `NamedRoundTrip`). How addresses are read is a parameter;
  libevent's reader takes an IPv4 address with a port and refuses an empty port.
- The number of candidates taken is right exactly while free slots are not negative,
  that is, under a limit that is not (`NeedIsCappedFreeSlots`, `EveryRunKeepsSlots`,
  `NegativeLimit`).
- A retry budget bounds the attempts of direct and proxied connections and of lookups
  (`AttemptBudget`, `QueryBudget`). A failed connect of a DNS connection does not use
  it up: with a zero budget it is gone after one response (`WalkInOrder`), with any
  other it can fail any number of times (`BudgetDoesNotBoundIt`). Only failures to
  resolve use it up (`ResolveBudget`, `UnresolvedBudget`).
- A success restores the budget of direct and DNS connections (`EveryRunKeepsBudgets`),
  but not of proxied ones: these have left what they started with less all their
  failures (`ProxiedBudget`, `EstablishedWithLess`).
- The interface's documentation says OnConnectionFailure gets the original and the
  resolved address (include/libbtcnet/handler.h:183-190); the code passes the failed
  one twice (src/handler.cpp:271). It is the original exactly if the connection is not
  a DNS one or the handler is going down (`EveryReportKeepsTheRules`,
  `EveryCallIsExact`, `DnsNamesTheAddress`).

Ids are considered while fewer than 2^63 have been issued: an event that could need
an id more is not enabled. A DNS response is never empty. A network configuration
is well formed when the size field has four bytes that lie within the header, the
message start lies within the bytes read first, and the maximum size is zero or at
least a header's. Sizes are those of a platform with 64-bit `size_t` and `unsigned
long`. Calls that only enqueue an event are the event's later arrival.

## Model

| member | source | states |
|---|---|---|
| `Handler.Connection.Retry` | src/connectionbase.cpp:81-92 | A requeued object carries its new id and waits for its timer; its kind, target and budget are kept |
| `Handler.Connection.SpendRetry` | src/directconn.cpp:56-59 | A failure takes one from a positive budget; a retry is offered exactly when the budget was not zero, so a negative one never runs out |
| `Handler.Connection.Restore` | src/dnsconn.cpp:81-93 | A success restores the budget; a DNS connection also lets its response go |
| `Handler.Connection.NextAddress` | src/dnsconn.cpp:101-102 | The iterator moves to the next address; past the last one the response is emptied, so the two still agree |
| `Handler.ConnectionHandler.constructor` | src/handler.cpp:31-39 | A new handler holds nothing, has issued no id and made no call |
| `Handler.ConnectionHandler.GetNextConnectionIndex` | src/handler.cpp:360-367 | The next id, and the allocator's wrap to zero after the largest 64-bit id |
| `Handler.ConnectionHandler.Requeue` | src/handler.cpp:272-276 | The object is held under the freshly allocated id, and is the same object otherwise |
| `Handler.ConnectionHandler.OnConnectionFailure` | src/handler.cpp:257-279 | The lookup finds the object; it leaves the connecting map, exactly one failure call of the right sort is made, retry is withdrawn during shutdown, and only an agreed retry comes back under a new id |
| `Handler.ConnectionHandler.OnDisconnected` | src/handler.cpp:209-235 | The lookup finds the object; it leaves the connected map, the matching counter drops by one, one OnDisconnected is made, and only an agreed reconnect is queued under a new id |
| `Handler.ConnectionHandler.DisconnectInt` | src/connectionbase.cpp:115-131 | Only a persistent outgoing connection asks to come back |
| `Handler.ConnectionHandler.OnOutgoingConnected` | src/handler.cpp:302-322 | Accepted: the object moves to the connected map, the outgoing count rises and OnReadyForFirstSend follows; refused: the object is gone and nothing else changes |
| `Handler.ConnectionHandler.OnIncomingConnected` | src/handler.cpp:281-300 | Accepted: the object moves to the connected map and the incoming count rises; refused: it is gone |
| `Handler.ConnectionHandler.OnIncomingConnection` | src/handler.cpp:237-247 | An accepted socket passes through the connecting map and connects at once, re-entering the handler |
| `Handler.ConnectionHandler.Connect` | src/directconn.cpp:28-48 | An eligible direct or proxied target starts to connect; one that is not fails on the spot without a retry, re-entering the handler; a DNS object resolves or tries its next address; an incoming one connects |
| `Handler.ConnectionHandler.DoResolve` | src/dnsconn.cpp:41-59 | A target that can resolve starts a lookup; one that cannot is reported as a resolve failure |
| `Handler.ConnectionHandler.OnResolveFailure` | src/dnsconn.cpp:61-68 | One failure is taken off the budget and reported as a resolve failure of the original target |
| `Handler.ConnectionHandler.OnResolveSuccess` | src/dnsconn.cpp:70-79 | The response is stored and its first address tried at once |
| `Handler.ConnectionHandler.ConnectResolved` | src/dnsconn.cpp:106-119 | The address under the iterator is connected to if its family is allowed, and fails at once if not |
| `Handler.ConnectionHandler.OnAddressFailure` | src/dnsconn.cpp:94-104 | The failed address is reported, the iterator moves on, and a retry is offered exactly when addresses are left or the budget is not zero; the budget is not touched |
| `Handler.ConnectionHandler.OnConnectSuccess` | src/directconn.cpp:50-54 | A direct or DNS connection restores its budget and is offered to the interface; a proxied one starts its handshake |
| `Handler.ConnectionHandler.OnConnectFailure` | src/directconn.cpp:56-59 | A direct connection reports its target, a proxied one a proxy failure, each after spending one retry; a DNS connection reports its address |
| `Handler.ConnectionHandler.OnProxyFailure` | src/proxyconn.cpp:60-63 | A failed handshake is reported as a connection failure after spending one retry |
| `Handler.ConnectionHandler.Resolve` | src/resolveonly.cpp:20-37 | A pure lookup that can resolve queries; one that cannot fails at once |
| `Handler.ConnectionHandler.OnLookupFailed` | src/handler.cpp:188-201 | One report; an agreed retry keeps the lookup, queued, with one retry less; otherwise it is erased |
| `Handler.ConnectionHandler.OnResolveComplete` | src/handler.cpp:181-186 | The results are handed over once and the lookup is erased |
| `Handler.ConnectionHandler.StartConnection` | src/handler.cpp:369-392 | One id is used; a pure lookup, a proxied, a DNS or a direct connection is made by the target's settings and started at once; a pure lookup through a proxy does nothing |
| `Handler.ConnectionHandler.Need` | src/handler.cpp:403-403 | The number asked for: the lesser of eight and the free slots, as a size_t |
| `Handler.ConnectionHandler.RequestOutgoingInt` | src/handler.cpp:400-413 | The interface is asked once, and the first candidates up to that number are started in order, unset ones skipped |
| `Handler.ConnectionHandler.Bind` | src/handler.cpp:346-358 | A listener that binds is kept under a fresh id; one that does not is reported and not kept |
| `Handler.ConnectionHandler.OnListenFailure` | src/handler.cpp:249-255 | One OnBindFailure, and the listener is gone |
| `Handler.ConnectionHandler.ReadMessages` | src/connectionbase.cpp:407-415 | Messages are delivered before a malformed one is reported, and the report is followed at once by the disconnection |
| `Handler.ConnectionHandler.Start` | src/handler.cpp:43-99 | The asserts on the counters and the event base hold, whatever the limit; OnStartup is the first call |
| `Handler.ConnectionHandler.ShutdownInt` | src/handler.cpp:101-158 | Connections are told in key order that they are gone, outgoing attempts that they failed, everything is dropped, and the asserts at the end hold; a second call does nothing |
| `Handler.ConnectionHandler.FinishPump` | src/handler.cpp:423-427 | OnShutdown is made and the handler is down |
| `Handler.ConnectionHandler.Dispatch` | src/handler.cpp:415-429 | Whatever armed event the loop runs, the objects take exactly the machine's step and keep its invariant |
| `Handler.ConnectionHandler.Pump` | src/handler.cpp:415-429 | Any list of events that are armed when they come takes the objects through the machine's run |
| `Handler.RunHandler` | src/handler.cpp:31-39 | So a new handler ends in the state of the machine's run, and in its fields a key is in one map, objects carry their keys, only outgoing ones are connecting, the counters are the numbers of connections and a limit that is not negative is kept |
| `Handler.OnlyArmedCount` | src/handler.cpp:415-429 | Every run of the machine is one of armed events: the others do nothing, so what is proved of every run holds of the objects |
| `Protocol.AutomatonMeansProtocol` | include/libbtcnet/handler.h:199-247 | A trace the automaton of an id accepts obeys the interface's rules: offered once and first, nothing after a refusal or disconnection, first-send notice right after an accepted outgoing offer, a malformed message followed at once by the disconnection |
| `Protocol.ProtocolMeansAutomaton` | include/libbtcnet/handler.h:199-247 | And conversely: a trace that obeys those rules is accepted by the automaton |
| `HandlerInvariant.FailConnectionKeeps` | src/handler.cpp:257-279 | A failure, with or without a retry, keeps the handler's invariant |
| `HandlerInvariant.DisconnectIntKeeps` | src/connectionbase.cpp:115-131 | So does a disconnection, also right after a malformed message |
| `HandlerInvariant.OutgoingConnectedKeeps` | src/handler.cpp:302-322 | So does an outgoing connection, accepted or refused |
| `HandlerInvariant.AcceptIncomingKeeps` | src/handler.cpp:237-247 | So does an incoming one, through its stay in the connecting map |
| `HandlerInvariant.ConnectKeeps` | src/dnsconn.cpp:31-39 | So does the start of an attempt of any kind, with all failures on the spot |
| `HandlerInvariant.ConnectDoneKeeps` | src/directconn.cpp:50-59 | So does the end of a pending connect of any kind |
| `HandlerInvariant.ConnectResolvedKeeps` | src/dnsconn.cpp:94-119 | So does every step of the walk over a DNS response, with response and iterator in agreement |
| `HandlerInvariant.LookupResolveKeeps` | src/resolveonly.cpp:20-37 | So does the start or immediate failure of a pure lookup |
| `HandlerInvariant.ReadMessagesKeeps` | src/connectionbase.cpp:407-415 | So does a read callback that delivers, reports and disconnects |
| `HandlerRuns.NeedIsCappedFreeSlots` | src/handler.cpp:403-403 | The number of candidates taken is the free slots capped at eight if and only if the free slots are not negative; the interface is told the capped number in any case |
| `HandlerRuns.StartConnectionKeeps` | src/handler.cpp:369-392 | Starting one connection keeps the invariant, takes at most one slot and uses at most two ids |
| `HandlerRuns.StartAllKeeps` | src/handler.cpp:407-411 | Starting a list of candidates never takes more slots than candidates, through any failures on the spot |
| `HandlerRuns.RequestOutgoingKeeps` | src/handler.cpp:400-413 | A request keeps the invariant; under a limit that is not negative it starts at most the number asked for, at most eight |
| `HandlerRuns.ShutdownIntKeeps` | src/handler.cpp:101-158 | After a shutdown all maps are empty and both counters zero: the closing asserts hold |
| `HandlerRuns.StartKeeps` | src/handler.cpp:53-57 | At a start both counters are zero, whatever went before: the opening asserts hold |
| `HandlerRuns.StepKeeps` | src/handler.cpp:415-429 | Every event keeps the invariant, for any peers and any answers of the interface |
| `HandlerTheorems.EveryRunObeysProtocol` | include/libbtcnet/handler.h:199-247 | In every run the calls with an id obey the interface's rules |
| `HandlerTheorems.EveryRunKeepsBooks` | src/handler.cpp:209-322 | At every event boundary the four key sets are disjoint and issued, objects carry their keys, only outgoing ones are connecting, a DNS object's response is empty exactly when its iterator is at the end, and the counters are the numbers of outgoing and incoming connections |
| `HandlerTheorems.EveryRunKeepsSlots` | src/handler.cpp:400-413 | Under any limit that is not negative, and under no other: established and attempted outgoing connections never exceed it, so the subtraction is never negative, and a request takes at most min(8, free) slots however many candidates come back |
| `HandlerTheorems.NegativeLimit` | src/handler.cpp:400-413 | A run in which it fails: with a limit of -1 the interface is asked for -1 connections, and every candidate is started |
| `HandlerTheorems.EveryAttemptEndsOnce` | src/handler.cpp:257-322 | Every outgoing attempt has been reported connected or failed exactly once, unless it is still connecting |
| `HandlerTheorems.LifeMeansBracketed` | include/libbtcnet/handler.h:288-299 | A trace with a proper life has OnStartup exactly at its start and after each OnShutdown |
| `HandlerTheorems.EveryRunIsBracketed` | include/libbtcnet/handler.h:288-299 | In every run OnStartup comes first and OnShutdown last, and the handler is down exactly then |
| `HandlerTheorems.ShutdownGivesEverythingBack` | src/handler.cpp:101-158 | When the handler is down, accepted connections equal disconnections, each acceptance has a later disconnection, and each outgoing attempt has ended once |
| `HandlerTheorems.ShutdownCompletes` | src/handler.cpp:415-429 | From any running state a shutdown request leads to OnShutdown as the last call, with every map empty |
| `HandlerTheorems.EveryRunKeepsBudgets` | src/directconn.cpp:50-59 | In every run a negative budget of a connection or lookup is never used up, any other stays within its bounds, and an established direct or DNS connection has all of it |
| `HandlerFollow.FailAndRequeue` | src/handler.cpp:257-279 | An agreed retry moves the object to the next id and nothing else; without one it is gone |
| `HandlerBudgets.AttemptBudget` | src/directconn.cpp:50-59 | A direct or proxied connection that is eligible and keeps failing, at the socket or in the handshake, followed through any other events short of a shutdown: each attempt is reported once, as a proxy or connection failure by where it failed; while it is there attempts made and retries left add up to its budget n, and it is gone exactly after n + 1 attempts, only the last of which offers no retry; with a negative budget it is never gone and always offers one |
| `HandlerBudgets.AttemptsEnd` | src/directconn.cpp:50-59 | And it does get there: while ids remain there are events that use the budget up |
| `HandlerBudgets.QueryBudget` | src/resolveonly.cpp:39-58 | The same for a pure lookup, eligible or not: n + 1 queries, each reported, and gone exactly then, whatever happens in between |
| `HandlerBudgets.QueriesEnd` | src/resolveonly.cpp:39-58 | And there are events that use its budget up |
| `HandlerWalk.WalkInOrder` | src/dnsconn.cpp:70-119 | A response whose addresses fail, whatever other events come in between: report i names address i and offers a retry unless it is the last with a zero budget; until all are reported the object is at the first that was not, its budget untouched, and resolves nothing; with a zero budget it is gone exactly after the last |
| `HandlerWalk.WalkEnds` | src/dnsconn.cpp:94-119 | And all of them do get reported: while ids remain there are events that use the response up |
| `HandlerWalk.BudgetDoesNotBoundIt` | src/dnsconn.cpp:94-119 | With any budget but zero a DNS connection that resolves can fail any number of times and is still trying, its budget untouched |
| `HandlerWalk.ConnectFails` | src/dnsconn.cpp:94-104 | A failed connect reports the address under the iterator and moves the object past it, or ends it after the last one without a budget |
| `HandlerReports.EveryCallIsExact` | src/handler.cpp:181-322 | Every call of every run was made at some event and is what that event calls for in the state before it. A failure call is exact in terms of the object just before it (with the response that event brings), which is proxied, DNS or direct by its target's settings: a DNS failure names the request and offers a retry exactly if retries are left; a connection failure of a DNS connection names the address under the iterator and offers one exactly if more addresses or retries are left; the others name the request, by where the attempt failed, and offer one exactly if it is eligible and retries are left; a shutdown reports every attempt by its request, without a retry |
| `HandlerReports.EveryReportKeepsTheRules` | include/libbtcnet/handler.h:176-197 | So by what the attempt was made for alone: DNS and proxy failures name the request; a connection failure names the request for all but DNS connections, and for these an address until the handler goes down; with a negative budget a retry is offered exactly to attempts that are eligible, with a zero one never but by a connection failure of a DNS connection, and none in a shutdown |
| `HandlerExamples.DnsNamesTheAddress` | src/handler.cpp:257-279 | A run in which a connection failure names an address of the response and not the request |
| `HandlerResolving.ResolveBudget` | src/dnsconn.cpp:61-68 | A DNS connection none of whose connects succeeds, followed through any other events: while it is there its retries left and its failures to resolve add up to its budget, however many addresses failed; it is gone with the failure that finds nothing left; a negative budget is not used up |
| `HandlerResolving.UnresolvedBudget` | src/dnsconn.cpp:61-68 | With lookups that all fail it makes exactly n + 1 of them, each reported once and with a retry for all but the last, and is gone exactly then, whatever happens in between |
| `HandlerResolving.UnresolvedEnds` | src/dnsconn.cpp:61-68 | And there are events that use the budget up, while ids remain |
| `HandlerProxied.ProxiedBudget` | src/proxyconn.cpp:50-68 | A proxied connection, through any events but a shutdown, its own successes, disconnections and reconnections among them: what it has left is its budget less all its failures; no success gives anything back |
| `HandlerExamples.EstablishedWithLess` | src/proxyconn.cpp:65-68 | A run in which an established proxied connection has nothing left of a budget of one |
| `HandlerIndependence.OthersUntouched` | src/handler.cpp:209-358 | Short of a shutdown, an event changes nothing that is held under another id, be it a connection, a lookup or a listener, and puts nothing under an id given out before |
| `HandlerEvents.StartupDone` | src/handler.cpp:43-99 | A start takes effect only on a handler that is down, keeps the limit it is given and makes one OnStartup |
| `HandlerEvents.PumpEndDone` | src/handler.cpp:415-429 | The loop ends only after a shutdown, with one OnShutdown |
| `HandlerEvents.BindDone` | src/handler.cpp:346-358 | A listener that binds is kept under the next id and nothing is told; one that does not is told and not kept |
| `HandlerEvents.ListenFailedDone` | src/handler.cpp:249-255 | A listener that fails is told of once and gone |
| `HandlerEvents.LookupDoneDone` | src/handler.cpp:181-186 | The results that came are handed over with the lookup's target, and the lookup is gone |
| `HandlerEvents.AcceptedDone` | src/handler.cpp:237-300 | An accepted socket is offered under the next id, and held and counted there exactly with the interface's agreement |
| `HandlerEvents.DisconnectDone` | src/handler.cpp:209-235 | A connection that ends is told of once and out of its count; it waits by the next id exactly if it is outgoing and persistent and the interface agrees |
| `HandlerEvents.ReadMessagesDone` | src/connectionbase.cpp:407-415 | Messages are told of whenever there are some, also in front of a malformed one, which is reported and then disconnected |
| `HandlerEvents.ConnectDoneDone` | src/directconn.cpp:50-54 | A connect that succeeds starts the handshake of a proxied connection; any other is offered, and with the interface's agreement established with all of its budget, counted and told to send |
| `HandlerEvents.ProxyDoneDone` | src/proxyconn.cpp:65-68 | A handshake that succeeds offers the connection, established with what is left of its budget |
| `HandlerEvents.TimerDone` | src/directconn.cpp:28-48 | A reconnect timer starts a connect exactly for a target that may be connected to in its way (an address of an allowed family; through a proxy also an onion name the proxy may have, or a name to be resolved and connected to), a lookup exactly for a name that may be looked up, and the address under the iterator if its family is allowed; if not it fails at once |
| `HandlerEvents.ResolveDoneDone` | src/dnsconn.cpp:70-119 | A response is stored and its first address connected to if its family is allowed; if not the attempt fails at once |
| `HandlerEvents.AttemptFailed` | src/handler.cpp:257-279 | A failed connect, handshake or lookup is reported once for what it was made for, and waits by the next id exactly if a retry is offered and agreed to |
| `HandlerEvents.LookupFailedDone` | src/handler.cpp:188-201 | A failed query is reported with a retry exactly if one is left, and queued with one less exactly if that is agreed to |
| `HandlerEvents.LookupAgainDone` | src/resolveonly.cpp:20-37 | A queued lookup queries if its name may be looked up, and fails at once if not |
| `HandlerEvents.RequestDone` | src/handler.cpp:400-413 | Under a limit that is not negative a request asks for the lesser of eight and the free slots, and starts the first so many candidates in order, unset ones left out, each under one id after the other and as what its target asks for; without a free slot it does nothing |
| `HandlerPromises.StartGivesTheLimit` | src/handler.cpp:43-99 | After a start that takes effect, and as long as no other one does, the limit in force is the number the caller gave, and established and attempted outgoing connections stay within it if it is not negative |
| `HandlerPromises.SlotsOfTheCaller` | src/handler.cpp:400-413 | In every run they stay within the limit of the last start that took effect |
| `HandlerPromises.EveryRequestCounts` | src/handler.cpp:400-413 | Every request for connections in every run asks for the lesser of eight and that limit less the established and attempted connections just before it, and for at least one |
| `HandlerPromises.EveryObjectIsOfItsKind` | src/handler.cpp:369-392 | In every run an outgoing object is proxied exactly if its target has a proxy, DNS exactly if it has none and is a name, direct exactly if neither; a pure lookup has no proxy |
| `HandlerPromises.EveryAttemptIsAllowed` | src/directconn.cpp:28-48 | In every run nothing is connected to directly but an address of an allowed family, nothing asked of a proxy or a resolver that it may not be asked for |
| `HandlerPromises.ShutdownTells` | src/handler.cpp:101-158 | A shutdown tells of every connection that it is gone and of every attempt that it failed, each once, the connections first, both in the order of their ids, and of nothing else |
| `FramingWire.MessageIsDelivered` | src/message.cpp:26-61 | A header with the message start and any size n in its four bytes, n more bytes, and both within the maximum: delivered as one message, whatever follows, which is parsed by itself |
| `FramingWire.PartIsWaitedFor` | src/message.cpp:26-61 | Fewer bytes than that are waited for |
| `FramingWire.TooMuchIsMalformed` | src/connectionbase.cpp:373-392 | A size above the maximum, which is itself allowed and counts the header, is malformed; the message is thrown away if it is there in full |
| `FramingWire.WrongStartIsMalformed` | src/message.cpp:37-55 | Any byte that differs from the message start is malformed as soon as the size field is there |
| `FramingWire.SomethingIsAnnounced` | src/message.cpp:17-23 | And these are all the cases |
| `FramingWire.WireMessages` | src/message.cpp:26-61 | What the parser takes for a message is exactly what is sent as one |
| `FramingWire.EveryRunDelivers` | src/connectionbase.cpp:359-416 | Every run that received any such messages in a row, cut and timed in any way: all of them are delivered, whole and in order, once no callback is due |
| `FramingWire.MarksOnTheWire` | src/connectionbase.cpp:394-404 | After a callback the marks are the end of the size field, or of the message announced, and the maximum after it |
| `FramingWire.FirstMarks` | src/connectionbase.cpp:205-222 | The first marks of a reader of messages and of chunks |
| `FramingWire.VerackThenPing` | src/message.cpp:46-56 | Two messages of the Bitcoin network: one without a payload is 24 bytes, and the next is left whole |
| `Framing.FourBytes` | src/message.cpp:17-23 | Four bytes are read least significant first and stay below 2^32 |
| `Framing.LookStays` | src/message.cpp:26-61 | Once the header is there, later bytes do not change what it says |
| `Framing.ParseIsSound` | src/connectionbase.cpp:373-392 | A stream is the delivered messages, all in the wire format, and a remainder without a whole message in front that decides the verdict |
| `Framing.ParseIsComplete` | src/connectionbase.cpp:373-392 | Any messages of the wire format put in a row, with any such remainder, are taken apart into exactly those messages |
| `Framing.ParseGoesOn` | src/connectionbase.cpp:373-392 | What arrives later is parsed with what was left over; a wrong stream stays wrong with the same messages |
| `FramingRuns.NothingBelowTheMark` | src/connectionbase.cpp:394-404 | Below the low watermark there is nothing to deliver or report, and a callback would change nothing |
| `FramingRuns.MarksAreExact` | src/connectionbase.cpp:394-404 | After a callback the low mark is above what is buffered; bytes that stay below it yield nothing; at it the callback delivers, reports or raises it; the high mark is zero or no lower |
| `FramingRuns.EveryRunParses` | src/connectionbase.cpp:359-416 | For every stream, every split into arrivals and every timing of callbacks: what was delivered and the verdict are those of parsing all bytes received, whenever no callback is due |
| `FramingRuns.CutsDoNotMatter` | src/connectionbase.cpp:359-416 | Two ways of cutting the same bytes deliver the same |
| `FramingRuns.EveryRunConserves` | src/connectionbase.cpp:373-392 | Delivered messages, the oversize message thrown away if any, and the buffer are exactly what was received |
| `FramingRuns.ChunksPartition` | src/connectionbase.cpp:330-356 | Chunks have the exact size, less than one is left, and together they are the input; the reported total is their length |
| `FramingRuns.ChunksGoOn` | src/connectionbase.cpp:330-356 | Chunks do not depend on how the stream arrived |
| `MessageReaders.GetMessageLength` | src/message.cpp:17-23 | The four shifted and or-ed bytes are the little-endian number |
| `MessageReaders.FirstCompleteMessageSize` | src/message.cpp:26-61 | Size, completeness and bad start as the contents say, the same for a header in one segment and for one copied out of several |
| `MessageReaders.ReadCbChunk` | src/connectionbase.cpp:330-356 | The callback's loop takes out exactly the chunks and leaves the rest |
| `MessageReaders.MessageReader.constructor` | src/connectionbase.cpp:205-222 | The reader for messages is chosen when there is no chunk size, with the header's marks |
| `MessageReaders.MessageReader.TakeMessages` | src/connectionbase.cpp:373-392 | The loop ends, delivers what the parser delivers, counts their bytes, and leaves what the parser leaves; the buffer shrinks in every turn that continues |
| `MessageReaders.MessageReader.ReadCbMessage` | src/connectionbase.cpp:359-416 | Messages, total size, marks and verdict of one callback, for any segments |
| `OutputSide.EveryRunReports` | src/connectionbase.cpp:265-291 | In every run, with errors, ends of data and immediate disconnections at any point: a buffer is reported full only when it is, reported to have room only right after a full report and with no more in it than allowed, and nothing follows the disconnection |
| `OutputSide.RoomIsReported` | src/connectionbase.cpp:418-426 | After a full report, bytes sent lead to a report of room exactly if no more than allowed is left, unless closing was asked for |
| `OutputSide.RoomAtTheMaximum` | include/libbtcnet/handler.h:256-262 | A run in which room is reported at the maximum and not below it |
| `OutputSide.ClosesWhenFinished` | src/connectionbase.cpp:133-154 | A connection asked to close with bytes still to send, and written to no more, is certain to be disconnected once they are all sent if and only if no check of its buffer that could find it full was due when it was asked |
| `OutputSide.ClosingForgotten` | src/connectionbase.cpp:273-291 | If one was, here are the events after which all is sent and the connection still there |
| `OutputSide.NothingIsCutOff` | src/connectionbase.cpp:133-154 | In every run without an abort a connection that is closed has sent everything that was written to it |
| `OutputSide.WritingForgets` | src/connectionbase.cpp:265-291 | Bytes written after the request can make it forget as well |
| `OutputSide.ClosesAtOnce` | src/connectionbase.cpp:147-153 | With nothing to send it is disconnected at once |
| `OutputSide.ConnectionOutput.Write` | src/connectionbase.cpp:265-271 | Bytes are buffered and a check of the buffer is armed |
| `OutputSide.ConnectionOutput.CheckWriteBufferInt` | src/connectionbase.cpp:273-291 | A buffer of at least the allowed size is reported and its callback set |
| `OutputSide.ConnectionOutput.DisconnectInt` | src/connectionbase.cpp:115-131 | The callbacks are taken off and the disconnection is told |
| `OutputSide.ConnectionOutput.DisconnectWhenFinishedInt` | src/connectionbase.cpp:133-154 | Bytes left: the closing callback is set for when none are; none left: the connection is closed |
| `OutputSide.ConnectionOutput.OnSent` | src/connectionbase.cpp:418-433 | At or below the low watermark the callback that is set runs, once |
| `OutputSide.WrittenIsChecked` | src/connectionbase.cpp:265-291 | After a write, and whatever was sent since, the check reports the buffer exactly if its size as an int is at least the maximum, and is made once |
| `OutputSide.BytesAddUp` | src/connectionbase.cpp:265-271 | As long as a connection is there, what is buffered and what was sent add up to what was written |
| `OutputSide.ClosesOnlyIfAsked` | src/connectionbase.cpp:115-154 | Without a request or an abort a connection is never closed; an abort closes it at once, and nothing follows |
| `Widths.SizesAndInts` | src/connectionbase.cpp:273-291 | A size becomes the int it agrees with modulo 2^32, and an int a 64-bit size |
| `Base32.LetterOfAlphabet` | src/base32.cpp:16-16 | The alphabet has 32 characters and position q is the letter used for q |
| `Base32.EncodeBase32` | src/base32.cpp:14-68 | The encoder is the regrouping into zero-filled quintets and the padding of section 6 of RFC 4648; every table index is a quintet, below 32 |
| `Base32.EncodedLength` | src/base32.cpp:21-21 | The encoding has 8 * ceil(n / 5) characters |
| `Base32.PaddingOfMode` | src/base32.cpp:60-65 | The padding table fills the last group of eight |
| `Base32.DecodePrefix` | src/base32.cpp:89-143 | The eight-mode loop stops at the end of the longest alphabet prefix, with the whole bytes out and the rest of the bits kept |
| `Base32.BadPadding` | src/base32.cpp:155-170 | The padding tests are those for the padding due, and no index passes the terminator |
| `Base32.DecodeBase32` | src/base32.cpp:75-174 | Bytes and validity of the decoder on any terminated string, with every read within the string |
| `Base32.AcceptsByCount` | src/base32.cpp:145-171 | Valid if and only if the alphabet prefix has n characters with n mod 8 = 0, or 2, 4, 5, 7 with no bits left over and 6, 4, 3, 1 padding characters not followed by the alphabet |
| `Base32.RoundTrip` | src/base32.cpp:14-174 | Decoding undoes encoding and calls it valid, for all bytes |
| `Base32.InverseRoundTrip` | src/base32.cpp:14-174 | Encoding undoes decoding, in lower case, up to the end of the last whole group, for every accepted string |
| `Base32.InverseRoundTripExact` | src/base32.cpp:14-174 | The whole string comes back if and only if it ends with its last whole group |
| `Base32.SurplusPaddingAccepted` | src/base32.cpp:146-148 | A string for which it does not: one padding character is accepted and decodes to nothing |
| `Base32.SameBytesSameText` | src/base32.cpp:75-174 | Two accepted strings decode to the same bytes if and only if they agree in lower case up to their last whole group |
| `Base32Numbers.EncodedNumber` | src/base32.cpp:14-68 | The encoding spells, in the alphabet and in base 32, the number that the bytes make up in base 256, with 0, 2, 4, 1 or 3 zero bits added by the number of bytes modulo five, and 0, 6, 4, 3 or 1 padding characters |
| `Base32Numbers.SameDigits` | src/base32.cpp:14-68 | This determines the encoding: so many digits of a number are determined by it |
| `Base32Numbers.ValueIsThePlace` | src/base32.cpp:77-78 | The decoding table has the places of the alphabet, in either case |
| `Base32Numbers.OutsideTheAlphabet` | src/base32.cpp:77-78 | And nothing else in it has a value |
| `Base32Numbers.DecodedNumber` | src/base32.cpp:75-174 | What is decoded, valid or not, spells in base 256 the number of the alphabet prefix without the bits that fill no byte; it is valid exactly if the prefix is whole groups, or these bits are zero and the padding that is due follows |
| `Base32Numbers.PaddingSpelled` | src/base32.cpp:145-171 | The padding that is due: so many padding characters, and nothing of the alphabet right after them |
| `Base32Numbers.Foo` | src/base32.cpp:14-174 | The bytes of "foo" and "mzxw6===", of section 10 of RFC 4648 |
| `Socks5.RequestRoundTrip` | src/bareproxy.cpp:60-111 | A server that reads section 4 of RFC 1928 gets back every request: 0xf0 exactly for a name that is only to be resolved and 1 otherwise, the name and port for a name or a proxy to be given names, the address and its port otherwise, and whatever follows it |
| `Socks5.RequestRefused` | src/bareproxy.cpp:73-107 | A request is refused if and only if its name is over 255 bytes, or it goes by address without one the proxy type takes |
| `Socks5.AuthRoundTrip` | src/bareproxy.cpp:113-129 | A server that reads section 2 of RFC 1929 gets back username and password; over 255 bytes they are refused, never cut |
| `Socks5.ReplyTransparent` | src/bareproxy.cpp:131-209 | For every granted reply of section 6 of RFC 1928 and any bytes after it: exactly the reply is consumed and the rest left, if and only if eight bytes are there and no name of 128 bytes or more meets a signed char; an address is taken from it exactly if it was asked for |
| `Socks5.LongNameMeetsSignedChar` | src/bareproxy.cpp:169-180 | What the size becomes when it does: enormous, or less than the reply |
| `Socks5.LongNameIsWaitedFor` | src/bareproxy.cpp:169-185 | A reply in which it does: a name of 128 bytes makes the client wait for nearly 2^64 bytes |
| `Socks5.ShortReplyWaits` | src/bareproxy.cpp:131-138 | A reply of seven bytes is not looked at until an eighth is there |
| `Socks5.ReplyResolves` | src/bareproxy.cpp:187-208 | A resolve request gets the address of the reply |
| `Socks5.ReplyOutcomeStays` | src/bareproxy.cpp:131-209 | A verdict on a reply stands; more bytes only add to the rest |
| `Handshake.EveryRunNegotiates` | src/bareproxy.cpp:27-262 | However the server's bytes are cut and callbacks timed: when none is due, what was written and decided is what the whole of the server's bytes call for, the owner was told once, and on success the rest is in the input |
| `Handshake.UndecidedBelowTheMark` | src/bareproxy.cpp:182-185 | Below the low watermark nothing is decided yet |
| `Handshake.MarksCoverReads` | src/bareproxy.cpp:138-138 | The assert on eight bytes holds, and no two-byte read comes back short |
| `Handshake.NegotiatedStays` | src/bareproxy.cpp:27-262 | Whatever else the server sends does not change a decision |
| `Handshake.GrantedWithoutAuth` | src/bareproxy.cpp:235-262 | A grant without credentials: greeting and request are written and exactly the bytes after the reply are left |
| `Handshake.GrantedWithAuth` | src/bareproxy.cpp:211-233 | The same with credentials |
| `Handshake.GrantedRunWithoutAuth` | src/bareproxy.cpp:131-262 | In every run that received such a grant and whatever follows it, cut and timed in any way and not lost: once no callback is due the owner was told of the success once, and exactly the bytes after the reply are in the input |
| `Handshake.GrantedRunWithAuth` | src/bareproxy.cpp:131-262 | The same with credentials |
| `Handshake.MethodAnswer` | src/bareproxy.cpp:250-261 | The client goes on whatever method the server picks; that is what section 3 of RFC 1928 has it do, going on only with one it offered, exactly for no authentication, and for username and password if credentials are set |
| `Handshake.NoMethodIsTakenForNone` | src/bareproxy.cpp:250-261 | To a server that accepts none of its methods the client sends its request all the same |
| `Handshake.AuthAnswer` | src/bareproxy.cpp:222-225 | The answer to credentials counts as a refusal only if version and status are both wrong; this is section 2 of RFC 1929 except for a right version with a bad status |
| `BareProxies.BareProxy.constructor` | src/bareproxy.cpp:27-52 | The greeting of two or one methods, and a low mark of two |
| `BareProxies.BareProxy.WriteProto` | src/bareproxy.cpp:60-111 | The bytes pushed one after the other are the request; nothing is written when it is refused |
| `BareProxies.BareProxy.WriteAuth` | src/bareproxy.cpp:113-129 | The same for the credentials |
| `BareProxies.BareProxy.ReceiveInitCallback` | src/bareproxy.cpp:235-262 | Two bytes are taken; version 5 with method 2 sends credentials, with any other method the request |
| `BareProxies.BareProxy.CheckAuthResponse` | src/bareproxy.cpp:211-233 | Two bytes are taken and the request sent unless both are wrong |
| `BareProxies.BareProxy.ReadFinalCallback` | src/bareproxy.cpp:131-209 | The reply is waited for in full, then taken out and nothing after it, or the handshake fails |
| `BareProxies.BareProxy.Fire` | src/bareproxy.cpp:131-262 | The callback that is due takes the machine's step and keeps its invariant |
| `BareProxies.BareProxy.EventCallback` | src/bareproxy.cpp:264-270 | An error, end of file or timeout ends the handshake with one failure |
| `SocksServer.GreetingRoundTrip` | src/bareproxy.cpp:32-49 | A server that reads section 3 of RFC 1928 gets the methods 2 and 0 with credentials, 0 without, and whatever follows |
| `SocksServer.GrantedRunIsHeard` | src/bareproxy.cpp:27-262 | In every granted run without credentials a server reading greeting and request in turn has read all that was written: the methods, the command, the address and the port asked for; the client ends with what follows the reply, and the address if it asked for one |
| `SocksServer.GrantedRunIsHeardWithAuth` | src/bareproxy.cpp:27-262 | The same with username and password, read in between |
| `SocksServer.LostIsToldOnce` | src/bareproxy.cpp:264-270 | A connection lost at any point is told as one failure |
| `SocksServer.WrongVersionFails` | src/bareproxy.cpp:245-248 | Every run whose server answers with another version ends in one failure, with no more than the greeting written |
| `SocksServer.UnwritableRequestFails` | src/bareproxy.cpp:258-261 | So does one whose request cannot be written |
| `SocksServer.LongCredentialsFail` | src/bareproxy.cpp:251-256 | And one whose server asks for credentials that are too long |
| `SocksServer.RefusedCredentialsFail` | src/bareproxy.cpp:222-232 | Refused credentials, or a request that cannot be written after them, end in one failure with greeting and credentials written |
| `SocksServer.RefusalFails` | src/bareproxy.cpp:138-180 | A refused request, or a reply of another version or address type, ends in one failure with the request written |
| `SocksServer.RefusalFailsWithAuth` | src/bareproxy.cpp:138-180 | The same after credentials |
| `SocksServer.PartOfReplyIsWaitedFor` | src/bareproxy.cpp:182-185 | Part of a reply raises the low mark to exactly the length of the whole |
| `SocksServer.GreetingAndAuth` | src/bareproxy.cpp:32-33 | Greetings and credentials byte by byte |
| `SocksServer.NameRequest` | src/bareproxy.cpp:60-81 | Requests for a name byte by byte, to be connected to and to be resolved |
| `SocksServer.AddressRequests` | src/bareproxy.cpp:82-104 | Requests for an IPv4 and an IPv6 address byte by byte |
| `SocksServer.Replies` | src/bareproxy.cpp:149-172 | The server's replies byte by byte |
| `HostPortPromises.NoColon` | src/connection.cpp:72-113 | A name without a colon is all host and has the port given |
| `HostPortPromises.ManyColons` | src/connection.cpp:98-101 | So has one with two or more |
| `HostPortPromises.ColonAtTheEnd` | src/connection.cpp:101-113 | A single colon at the end is dropped and the port is the one given |
| `HostPortPromises.FiveDigitPort` | src/connection.cpp:103-111 | Five digits after a single colon are the port, most significant first, if they are at most 65535, and else the port is 0; the one given is not used |
| `HostPortPromises.PortAmongOthers` | src/connection.cpp:103-111 | Zeros in front of the digits and anything behind them make no difference |
| `HostPortPromises.TooManyDigits` | src/connection.cpp:103-111 | Six digits or more that do not start with a zero give port 0 |
| `HostPortPromises.SignedPort` | src/connection.cpp:106-108 | White space and a plus sign may stand in front; a minus sign in front of five digits gives port 0 |
| `HostPortPromises.NoNumber` | src/connection.cpp:105-111 | Without a digit the port is 0 |
| `HostPortPromises.NumberComesFirst` | src/connection.cpp:105-111 | Also if the digits come after something else than white space and a sign |
| `HostPortPromises.LiteralPort` | src/connection.cpp:83-96 | A port in an address literal is kept, a missing one is the port given, in both IP families; a literal without a port is kept as it is |
| `HostPortPromises.LiteralEnds` | src/connection.cpp:83-83 | The literal is looked for up to the first terminator |
| `HostPortPromises.OnionEnds` | src/connection.cpp:115-122 | An onion name ends in .onion and has something in front of it |
| `HostPortPromises.SeedKeepsThePort` | src/connection.cpp:72-113 | seed.example.org with default port 8333 has port 8333 |
| `HostPort.ConnectionBase.constructor` | src/connection.cpp:72-124 | Nothing, an address with its default port filled in, or a name with its port and kind |
| `HostPort.ColonTest` | src/connection.cpp:98-101 | The test on the last colons holds if and only if there is exactly one colon |
| `HostPort.ConnectionBase.TakePort` | src/connection.cpp:98-113 | The name is cut at its only colon and the port read from what follows, zero if that is not a number of 16 bits |
| `HostPort.ConnectionBase.Classify` | src/connection.cpp:115-122 | An onion name ends in .onion after something the base32 decoder calls valid; any other name is DNS |
| `HostPort.ConnectionBase.ToString` | src/connection.cpp:194-223 | A name is printed as host, colon and decimal port |
| `HostPort.StoulOfDecimal` | src/connection.cpp:106-108 | A decimal number is read back as itself |
| `HostPort.HostPortRoundTrip` | src/connection.cpp:72-124 | A name without colons and a port, joined, come apart again, whatever the default port |
| `HostPort.PrintedRoundTrip` | src/connection.cpp:194-197 | For every name a string was read as: what is printed gives the same host, port and kind back if and only if the host has no colon and what is printed is not read as an address |
| `HostPort.NamedRoundTrip` | src/connection.cpp:194-197 | The same for every name and port |
| `HostPort.AddressWithNoPort` | src/connection.cpp:98-113 | A name without a colon that does not come back: 1.2.3.4 with a colon and nothing after it is a name with the default port, and is printed as an address with a port |
| `HostPort.TwoColonsStay` | src/connection.cpp:98-101 | A string with two colons is read as all host, and not read back as printed |
| `HostPort.OneKind` | src/connection.cpp:72-129 | Every string is exactly one of unset, address, DNS name and onion name |
| `HostPort.WholeGroupsAreOnion` | src/connection.cpp:115-122 | A label of whole base32 groups makes an onion name |

## Left out

- Handler.ConnectionHandler.Resolve: a pure lookup is a value in its map, not an object of its own; its fields are updated by storing it again.
- Handler.ConnectionHandler.Dispatch: the trace, the issued ids and the placed attempts are ghost; the calls into the interface are recorded there and their answers come with the event.
- Handler.ConnectionHandler.ShutdownInt: answers of the interface that the code ignores are recorded as false; a listener bound from inside a shutdown callback is not considered.
- Handler.ConnectionHandler.Connect: one class with a kind stands for the five connection classes; virtual calls are a match on the kind.
- EvBuffers.EvBuffer.CopyOut: libevent's buffer is a list of segments; only what the callbacks use of it is there.
- HostPort.ConnectionBase.ToString: how an address literal is read and printed are parameters; getnameinfo and the address families' byte layouts are not modelled.
- libevent itself, sockets, timers, DNS queries, and a lookup that calls back before it returns.
- Threads: another thread could arm an event between the steps of one callback; only atomic steps are modelled.
- Byte totals, rate limits, pausing, timeouts, socket options and logging.
- Handler.ConnectionHandler.DisconnectInt: closing when finished reaches the handler as a later disconnection; when it does is the subject of OutputSide.
- A pure lookup through a proxy: an empty branch in the source, which only uses up an id.
- Forwarding in the public interface, event and object ownership wrappers, listener plumbing, the Makefile and the sample program.
