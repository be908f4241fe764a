/** The connection handler as a state machine on values: one function per
    operation of the handler, composed as the handler composes them. */
module HandlerModel {
  import opened Connections
  import opened Protocol
  import opened Maps
  import opened Widths

  /** Connection ids are non-negative 64-bit numbers; the allocator starts over after the last. */
  const ID_MAX: int := 0x7fff_ffff_ffff_ffff
  const ID_SPAN: int := ID_MAX + 1

  const MAX_SIMULTANEOUS_CONNECTING: int := 8

  /** issued counts the ids handed out so far and placed remembers which of them
      were outgoing attempts; the handler itself keeps neither. */
  datatype State = State(
    connected: map<int, Conn>,
    connecting: map<int, Conn>,
    resolves: map<int, Lookup>,
    binds: set<int>,
    index: int,
    outgoing: int,
    incoming: int,
    limit: int,
    running: bool,
    shutdown: bool,
    trace: seq<Callback>,
    issued: nat,
    placed: set<int>)

  const BOOT := State(map[], map[], map[], {}, 0, 0, 0, 0, false, false, [], 0, {})

  function Log(s: State, cb: Callback): State {
    s.(trace := s.trace + [cb])
  }

  function GetNextConnectionIndex(s: State): (State, int) {
    if s.index != ID_MAX then (s.(index := s.index + 1, issued := s.issued + 1), s.index)
    else (s.(index := 0, issued := s.issued + 1), ID_MAX)
  }

  /** Put an outgoing connection object into the connecting map under its id. */
  function Place(s: State, c: Conn): State {
    s.(connecting := s.connecting[c.id := c], placed := s.placed + {c.id})
  }

  /** Out of the connecting map. */
  function Remove(s: State, c: Conn): State {
    s.(connecting := s.connecting - {c.id})
  }

  // ----- failures and reconnects -----

  datatype FailureType = CONNECT | RESOLVE | PROXY

  function FailureReport(t: FailureType, failed: Endpoint, retry: bool, answer: bool): FailureCall {
    match t
    case PROXY => OnProxyFailure(failed, retry, answer)
    case RESOLVE => OnDnsFailure(failed, retry, answer)
    case CONNECT => OnConnectionFailure(failed, failed, retry, answer)
  }

  /** Queue the object for another attempt under a fresh id. */
  function Requeue(s: State, c: Conn): State {
    var (s1, newId) := GetNextConnectionIndex(s);
    Place(s1, c.(id := newId, stage := Waiting))
  }

  function FailConnection(s: State, c: Conn, t: FailureType, failed: Endpoint, mayRetry: bool, answer: bool): State
    requires c.id in s.connecting
  {
    var retry := mayRetry && !s.shutdown;
    var s2 := Log(Remove(s, c), Failed(c.id, c.From(), FailureReport(t, failed, retry, answer)));
    if retry && answer then Requeue(s2, c) else s2
  }

  /** Out of the connected map, and out of the count. */
  function Leave(s: State, c: Conn): State
    requires c.id in s.connected
  {
    var s1 := s.(connected := s.connected - {c.id});
    if c.IsOutgoing() then s1.(outgoing := s1.outgoing - 1) else s1.(incoming := s1.incoming - 1)
  }

  function Disconnected(s: State, c: Conn, mayReconnect: bool, answer: bool): State
    requires c.id in s.connected
  {
    var reconnect := mayReconnect && !s.shutdown;
    var s1 := Log(Leave(s, c), Of(c.id, OnDisconnected(reconnect, answer)));
    if reconnect && answer then Requeue(s1, c) else s1
  }

  /** DisconnectInt: only a persistent outgoing connection asks to come back. */
  function DisconnectInt(s: State, c: Conn, answer: bool): State
    requires c.id in s.connected
  {
    Disconnected(s, c, c.target.persistent && c.IsOutgoing(), answer)
  }

  // ----- successful connections -----

  /** Into the connected map, enabled. */
  function Enter(s: State, c: Conn): State {
    s.(connected := s.connected[c.id := c.(stage := Up)])
  }

  function OutgoingConnected(s: State, c: Conn, answer: bool): State
    requires c.id in s.connecting
  {
    var s2 := Log(Remove(s, c), Of(c.id, OnOutgoingConnection(answer)));
    if !answer then s2
    else
      var s3 := Enter(s2, c);
      Log(s3.(outgoing := s3.outgoing + 1), Of(c.id, OnReadyForFirstSend))
  }

  function IncomingConnected(s: State, c: Conn, answer: bool): State
    requires c.id in s.connecting
  {
    var s2 := Log(Remove(s, c), Of(c.id, OnIncomingConnection(answer)));
    if !answer then s2
    else
      var s3 := Enter(s2, c);
      s3.(incoming := s3.incoming + 1)
  }

  /** The object of an accepted socket, made under an id: it passes through the
      connecting map and connects at once. */
  function AcceptAs(s: State, id: int, bind: Target, answer: bool): State {
    var c := NewConn(id, Incoming, bind);
    IncomingConnected(s.(connecting := s.connecting[id := c]), c, answer)
  }

  /** A listener accepted a socket. */
  function AcceptIncoming(s: State, bind: Target, answer: bool): State {
    var (s1, id) := GetNextConnectionIndex(s);
    AcceptAs(s1, id, bind, answer)
  }

  // ----- connection attempts, by kind of connection -----

  /** Store the object back under its id after it changed. */
  function Update(s: State, c: Conn): State {
    s.(connecting := s.connecting[c.id := c])
  }

  function Advance(c: Conn): Conn
    requires c.WalkOk() && c.iter != End
  {
    if c.iter.pos + 1 == |c.resolved| then c.(iter := End, resolved := [])
    else c.(iter := At(c.iter.pos + 1))
  }

  function DnsConnectFailure(s: State, c: Conn, answer: bool): State
    requires c.id in s.connecting
    requires c.WalkOk() && c.iter != End
  {
    var failed := Resolved(c.resolved[c.iter.pos]);
    var next := Advance(c);
    FailConnection(s, next, CONNECT, failed, next.iter != End || next.retries != 0, answer)
  }

  /** Try the address under the iterator; one of a family that is not allowed
      fails on the spot. */
  function ConnectResolved(s: State, c: Conn, answer: bool): State
    requires c.id in s.connecting
    requires c.WalkOk() && c.iter != End
  {
    if SockAllowed(c.resolved[c.iter.pos].sock, c.target.family) then Update(s, c.(stage := Connecting))
    else DnsConnectFailure(s, c, answer)
  }

  function DnsResolveFailure(s: State, c: Conn, answer: bool): State
    requires c.id in s.connecting
    requires c.resolved == [] && c.iter == End
  {
    var (left, retry) := Spend(c.retries);
    FailConnection(s, c.(retries := left), RESOLVE, Original(c.target), retry, answer)
  }

  function DoResolve(s: State, c: Conn, answer: bool): State
    requires c.id in s.connecting
    requires c.resolved == [] && c.iter == End
  {
    if c.target.CanResolve() && SetResolveFamily(c.target.family) then Update(s, c.(stage := Resolving))
    else DnsResolveFailure(s, c, answer)
  }

  function Connect(s: State, c: Conn, answer: bool): State
    requires c.id in s.connecting
    requires c.WalkOk()
  {
    match c.kind
    case Incoming => IncomingConnected(s, c, answer)
    case Direct =>
      if c.target.CanConnectDirect() then Update(s, c.(stage := Connecting))
      else FailConnection(s, c, CONNECT, Original(c.target), false, answer)
    case Proxied =>
      if c.target.CanConnectProxy() then Update(s, c.(stage := Connecting))
      else FailConnection(s, c, PROXY, Original(c.target), false, answer)
    case Dns =>
      if c.iter == End then DoResolve(s, c, answer) else ConnectResolved(s, c, answer)
  }

  function DnsResolveSuccess(s: State, c: Conn, response: seq<Addr>, answer: bool): State
    requires c.id in s.connecting
    requires c.resolved == [] && c.iter == End
    requires response != []
  {
    ConnectResolved(s, c.(resolved := response, iter := At(0)), answer)
  }

  /** A success restores the budget and lets a response go. */
  function Restored(c: Conn): Conn {
    if c.kind == Dns then c.(resolved := [], iter := End, retries := c.target.nRetries)
    else c.(retries := c.target.nRetries)
  }

  /** The pending connect of a connection object came back. A direct or DNS
      connection is up; a proxied one starts its handshake. */
  function ConnectSuccess(s: State, c: Conn, answer: bool): State
    requires c.id in s.connecting
    requires c.kind != Incoming
  {
    match c.kind
    case Proxied => Update(s, c.(stage := Handshaking))
    case Direct => OutgoingConnected(s, Restored(c), answer)
    case Dns => OutgoingConnected(s, Restored(c), answer)
  }

  function ConnectFailure(s: State, c: Conn, answer: bool): State
    requires c.id in s.connecting
    requires c.kind != Incoming
    requires c.WalkOk() && (c.kind == Dns ==> c.iter != End)
  {
    match c.kind
    case Dns => DnsConnectFailure(s, c, answer)
    case Direct =>
      var (left, retry) := Spend(c.retries);
      FailConnection(s, c.(retries := left), CONNECT, Original(c.target), retry, answer)
    case Proxied =>
      var (left, retry) := Spend(c.retries);
      FailConnection(s, c.(retries := left), PROXY, Original(c.target), retry, answer)
  }

  function ProxySuccess(s: State, c: Conn, answer: bool): State
    requires c.id in s.connecting
  {
    OutgoingConnected(s, c, answer)
  }

  function ProxyFailure(s: State, c: Conn, answer: bool): State
    requires c.id in s.connecting
  {
    var (left, retry) := Spend(c.retries);
    FailConnection(s, c.(retries := left), CONNECT, Original(c.target), retry, answer)
  }

  /** What was stored under an id does not matter once it is replaced or removed. */
  lemma UpdateForgotten(s: State, c: Conn, d: Conn)
    requires c.id == d.id
    ensures Update(Update(s, c), d) == Update(s, d) && Remove(Update(s, c), d) == Remove(s, d)
  {
    ReplaceTwice(s.connecting, d.id, c, d);
    ReplaceThenRemove(s.connecting, d.id, c);
  }

  lemma ResolvedForgotten(s: State, c: Conn, answer: bool)
    requires c.id in s.connecting && c.WalkOk() && c.iter != End
    ensures ConnectResolved(Update(s, c), c, answer) == ConnectResolved(s, c, answer)
  {
    UpdateForgotten(s, c, c.(stage := Connecting));
    UpdateForgotten(s, c, Advance(c));
  }

  // ----- pure lookups -----

  function LookupFailure(s: State, l: Lookup, answer: bool): State
    requires l.id in s.resolves
  {
    var (left, mayRetry) := Spend(l.retries);
    var retry := mayRetry && !s.shutdown;
    var s1 := Log(s, OnLookupFailure(l.target, retry, answer));
    if retry && answer then s1.(resolves := s1.resolves[l.id := l.(retries := left, stage := Queued)])
    else s1.(resolves := s1.resolves - {l.id})
  }

  function LookupResolve(s: State, l: Lookup, answer: bool): State
    requires l.id in s.resolves
  {
    if l.target.CanResolve() && SetResolveFamily(l.target.family)
    then s.(resolves := s.resolves[l.id := l.(stage := Querying)])
    else LookupFailure(s, l, answer)
  }

  function LookupComplete(s: State, l: Lookup, results: seq<Addr>): State
    requires l.id in s.resolves
  {
    var s1 := Log(s, OnDnsResponse(l.target, results));
    s1.(resolves := s1.resolves - {l.id})
  }

  // ----- new outgoing connections -----

  /** The object for a target, made under an id and started. */
  function StartAs(s: State, id: int, target: Target, answer: bool): State {
    if target.IsLookup() then
      if target.proxySet then s
      else
        var l := Lookup(id, target, target.nRetries, Queued);
        LookupResolve(s.(resolves := s.resolves[id := l]), l, answer)
    else
      var c := NewConn(id, KindFor(target), target);
      Connect(Place(s, c), c, answer)
  }

  function StartConnection(s: State, target: Target, answer: bool): State {
    var (s1, id) := GetNextConnectionIndex(s);
    StartAs(s1, id, target, answer)
  }

  /** One candidate of the interface, with the interface's answer should the
      attempt fail on the spot. */
  datatype Candidate = Candidate(target: Target, answer: bool)

  function StartOne(s: State, first: Candidate): State {
    if first.target.isSet then StartConnection(s, first.target, first.answer) else s
  }

  function StartAll(s: State, candidates: seq<Candidate>): State
    decreases |candidates|
  {
    if candidates == [] then s
    else StartAll(StartOne(s, candidates[0]), candidates[1..])
  }

  function Free(s: State): int {
    s.limit - s.outgoing - |s.connecting|
  }

  /** As many as there are slots, at most eight. */
  function Capped(s: State): int {
    if Free(s) < MAX_SIMULTANEOUS_CONNECTING then Free(s) else MAX_SIMULTANEOUS_CONNECTING
  }

  function Need(s: State): int {
    ToSizeT(Capped(s))
  }

  function Chosen(s: State, candidates: seq<Candidate>): seq<Candidate> {
    if 0 <= Need(s) < |candidates| then candidates[..Need(s)] else candidates
  }

  function RequestOutgoing(s: State, candidates: seq<Candidate>): State {
    if Need(s) > 0 then StartAll(Log(s, OnNeedOutgoingConnections(ToInt(Need(s)))), Chosen(s, candidates))
    else s
  }

  // ----- lifetime of the handler -----

  function Start(s: State, limit: int): State {
    Log(s.(shutdown := false, limit := limit, running := true), OnStartup)
  }

  function DropOne(s: State, id: int, c: Conn): State {
    var s1 := if c.IsOutgoing() then s.(outgoing := s.outgoing - 1) else s.(incoming := s.incoming - 1);
    Log(s1, Of(id, OnDisconnected(false, false)))
  }

  /** Tell the interface about every connection taken down. Its answers are not
      used; they are recorded as false. */
  ghost function DropConnected(s: State, dropping: map<int, Conn>): State
    decreases |dropping|
  {
    if dropping == map[] then s
    else
      var id := Least(dropping.Keys);
      DropConnected(DropOne(s, id, dropping[id]), dropping - {id})
  }

  /** Tell the interface that an outgoing attempt is over. */
  function DropAttempt(s: State, id: int, c: Conn): State {
    var s1 := if c.IsOutgoing()
              then Log(s, Failed(id, c.From(), OnConnectionFailure(Original(c.target), Original(c.target), false, false)))
              else s;
    s1.(connecting := s1.connecting - {id})
  }

  ghost function DropConnecting(s: State): State
    decreases |s.connecting|
  {
    if s.connecting == map[] then s
    else
      var id := Least(s.connecting.Keys);
      DropConnecting(DropAttempt(s, id, s.connecting[id]))
  }

  ghost function ShutdownInt(s: State): State {
    if s.shutdown then s
    else
      var s1 := s.(connected := map[], binds := {}, shutdown := true);
      var s2 := DropConnecting(DropConnected(s1, s.connected));
      s2.(resolves := map[])
  }

  /** The end of PumpEvents after a shutdown. */
  function FinishShutdown(s: State): State {
    Log(s.(running := false), OnShutdown)
  }

  // ----- one step of the event loop -----

  /** What the event loop, the peers and the interface can do. Each event names a
      connection object by the key it is held under. Answers of the interface are
      part of the event. */
  datatype Event =
    | Startup(limit: int)
    | Request(candidates: seq<Candidate>)
    | ConnectDone(key: int, ok: bool, answer: bool)
    | ProxyDone(key: int, ok: bool, answer: bool)
    | ResolveDone(key: int, response: seq<Addr>, answer: bool)
    | ResolveFailed(key: int, answer: bool)
    | ReconnectTimer(key: int, answer: bool)
    | LookupDone(key: int, results: seq<Addr>)
    | LookupFailed(key: int, answer: bool)
    | LookupAgain(key: int, answer: bool)
    | Accepted(bind: Target, answer: bool)
    | ReadMessages(key: int, some: bool, malformed: bool, answer: bool)
    | DataNotice(key: int, notice: ConnCall)
    | Disconnect(key: int, answer: bool)
    | Bind(conn: Target, ok: bool)
    | ListenFailed(key: int)
    | ShutdownRequest
    | PumpEnd
  {
    predicate IsTrying() {
      ConnectDone? || ProxyDone? || ResolveDone? || ResolveFailed? || ReconnectTimer?
    }

    predicate IsLookup() {
      LookupDone? || LookupFailed? || LookupAgain?
    }

    predicate IsServing() {
      ReadMessages? || DataNotice? || Disconnect?
    }
  }

  /** read_cb_message after its buffer work: deliver, then report and disconnect. */
  function ReadMessagesCb(s: State, c: Conn, some: bool, malformed: bool, answer: bool): State
    requires c.id in s.connected
  {
    var s1 := if some then Log(s, Of(c.id, OnReceiveMessages)) else s;
    if malformed then DisconnectInt(Log(s1, Of(c.id, OnMalformedMessage)), c, answer) else s1
  }

  function ListenFailure(s: State, id: int): State {
    Log(s, OnBindFailure).(binds := s.binds - {id})
  }

  /** The listener socket could not be made, or it is now accepting. */
  function BindListener(s: State, ok: bool): State {
    var (s1, id) := GetNextConnectionIndex(s);
    if ok then s1.(binds := s1.binds + {id})
    else ListenFailure(s1, id)
  }

  /** An upper bound on the ids one event can use up. */
  function IdDemand(s: State, e: Event): nat {
    match e
    case Request(candidates) => 2 * |Chosen(s, candidates)|
    case ConnectDone(_, _, _) => 1
    case ProxyDone(_, _, _) => 1
    case ResolveDone(_, _, _) => 1
    case ResolveFailed(_, _) => 1
    case ReconnectTimer(_, _) => 1
    case Accepted(_, _) => 1
    case ReadMessages(_, _, malformed, _) => if malformed then 1 else 0
    case Disconnect(_, _) => 1
    case Bind(_, _) => 1
    case _ => 0
  }

  predicate Trying(s: State, key: int, stage: Stage) {
    key in s.connecting && s.connecting[key].stage == stage
  }

  predicate Armed(s: State, e: Event) {
    match e
    case ConnectDone(key, _, _) => Trying(s, key, Connecting)
    case ProxyDone(key, _, _) => Trying(s, key, Handshaking)
    case ResolveDone(key, response, _) => Trying(s, key, Resolving) && response != []
    case ResolveFailed(key, _) => Trying(s, key, Resolving)
    case ReconnectTimer(key, _) => Trying(s, key, Waiting)
    case LookupDone(key, _) => key in s.resolves && s.resolves[key].stage == Querying
    case LookupFailed(key, _) => key in s.resolves && s.resolves[key].stage == Querying
    case LookupAgain(key, _) => key in s.resolves && s.resolves[key].stage == Queued
    case ReadMessages(key, _, _, _) => key in s.connected
    case DataNotice(key, notice) => key in s.connected && notice.IsData()
    case Disconnect(key, _) => key in s.connected
    case ListenFailed(key) => key in s.binds
    case _ => true
  }

  /** Whether the event loop has this event armed: it belongs to a connection
      object, lookup or listener that is alive and in the stage that armed it.
      Events that need ids are considered while ids last. */
  predicate Enabled(s: State, e: Event) {
    && s.issued + IdDemand(s, e) <= ID_SPAN
    && (e.Startup? ==> !s.running)
    && (!e.Startup? ==> s.running && (s.shutdown <==> e.PumpEnd?) && Armed(s, e))
  }
}
