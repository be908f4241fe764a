/** What each event does to the handler and what the interface is told at it, in
    plain terms: the calls in order, and where the object goes. */
module HandlerEvents {
  import opened Connections
  import opened Maps
  import opened Protocol
  import opened HandlerModel
  import opened HandlerInvariant
  import opened HandlerRuns

  /** The handler is where it was, but for the connections and attempts it holds, the
      counters, the trace and the ids. */
  predicate OnlyConnections(s: State, r: State) {
    && r.resolves == s.resolves && r.binds == s.binds
    && r.limit == s.limit && r.running == s.running && r.shutdown == s.shutdown
  }

  // ----- listeners, lookups and the loop itself -----

  lemma StartupDone(s: State, limit: int)
    requires Inv(s) && Enabled(s, Startup(limit))
    ensures !s.running
    ensures Step(s, Startup(limit)) == s.(running := true, shutdown := false, limit := limit, trace := s.trace + [OnStartup])
  {
  }

  lemma PumpEndDone(s: State)
    requires Inv(s) && Enabled(s, PumpEnd)
    ensures s.running && s.shutdown
    ensures Step(s, PumpEnd) == s.(running := false, trace := s.trace + [OnShutdown])
  {
  }

  /** What a listener under a given id comes to. */
  predicate Bound(s: State, ok: bool, next: int, r: State) {
    && r.binds == (if ok then s.binds + {next} else s.binds)
    && r.trace == (if ok then s.trace else s.trace + [OnBindFailure])
    && r.connecting == s.connecting && r.connected == s.connected && r.resolves == s.resolves && r.limit == s.limit
  }

  lemma NotBound(s: State, s1: State, next: int)
    requires next !in s.binds && s1 == s.(index := s1.index, issued := s1.issued)
    ensures Bound(s, false, next, ListenFailure(s1, next))
  {
    assert s.binds - {next} == s.binds;
  }

  /** A listener is kept under the next id, or reported and not kept. */
  lemma BindDone(s: State, conn: Target, ok: bool)
    requires Inv(s) && Enabled(s, Bind(conn, ok))
    ensures Bound(s, ok, s.issued, Step(s, Bind(conn, ok)))
  {
    ObjectOk(s, s.issued);
    AllocateKeeps(s);
    NotBound(s, GetNextConnectionIndex(s).0, s.issued);
  }

  lemma ListenFailedDone(s: State, key: int)
    requires Inv(s) && Enabled(s, ListenFailed(key))
    ensures key in s.binds
    ensures Step(s, ListenFailed(key)) == s.(binds := s.binds - {key}, trace := s.trace + [OnBindFailure])
  {
  }

  /** The results are handed over, and the lookup is gone. */
  lemma LookupDoneDone(s: State, key: int, results: seq<Addr>)
    requires Inv(s) && Enabled(s, LookupDone(key, results))
    ensures key in s.resolves && s.resolves[key].stage == Querying
    ensures Step(s, LookupDone(key, results)) ==
            s.(resolves := s.resolves - {key}, trace := s.trace + [OnDnsResponse(s.resolves[key].target, results)])
  {
    ObjectOk(s, key);
  }

  // ----- established connections -----

  /** A connection whose peer was accepted: the interface is asked, and with its
      agreement the connection is held under the next id. */
  lemma AcceptedDone(s: State, bind: Target, answer: bool)
    requires Inv(s) && Enabled(s, Accepted(bind, answer))
    ensures var r := Step(s, Accepted(bind, answer));
      && r.trace == s.trace + [Of(s.issued, OnIncomingConnection(answer))]
      && r.connected == (if answer then s.connected[s.issued := Conn(s.issued, Incoming, bind, bind.nRetries, Up, [], End)]
                         else s.connected)
      && r.connecting == s.connecting && OnlyConnections(s, r)
      && r.incoming == s.incoming + (if answer then 1 else 0) && r.outgoing == s.outgoing
  {
    ObjectOk(s, s.issued);
    AcceptIncomingForm(s, bind, answer);
  }

  /** Whether a connection that ends asks to come back. */
  predicate ComesBack(c: Conn) {
    c.kind != Incoming && c.target.persistent
  }

  /** r is s after the connection c ended: it is gone, and waits by the next id if it
      asked to come back and the interface agreed. */
  ghost predicate Ended(s: State, c: Conn, answer: bool, next: int, r: State) {
    && r.connected == s.connected - {c.id}
    && r.connecting == (if ComesBack(c) && answer then s.connecting[next := c.(id := next, stage := Waiting)]
                        else s.connecting)
    && OnlyConnections(s, r)
    && r.outgoing == s.outgoing - (if c.kind != Incoming then 1 else 0)
    && r.incoming == s.incoming - (if c.kind != Incoming then 0 else 1)
  }

  lemma DisconnectIntDone(s: State, c: Conn, answer: bool, next: int)
    requires AllocatorOk(s) && s.issued < ID_SPAN && next == s.issued && !s.shutdown && c.id in s.connected
    ensures var r := DisconnectInt(s, c, answer);
      Ended(s, c, answer, next, r) && r.trace == s.trace + [Of(c.id, OnDisconnected(ComesBack(c), answer))]
  {
  }

  lemma DisconnectDone(s: State, key: int, answer: bool)
    requires Inv(s) && Enabled(s, Disconnect(key, answer))
    ensures key in s.connected
    ensures var c := s.connected[key]; var r := Step(s, Disconnect(key, answer));
      Ended(s, c, answer, s.issued, r) && r.trace == s.trace + [Of(key, OnDisconnected(ComesBack(c), answer))]
  {
    ObjectOk(s, key);
    DisconnectIntDone(s, s.connected[key], answer, s.issued);
  }

  /** Messages are delivered if there are some; a malformed one is then reported, and
      the connection ended at once. */
  lemma ReadMessagesDone(s: State, key: int, some: bool, malformed: bool, answer: bool)
    requires Inv(s) && Enabled(s, ReadMessages(key, some, malformed, answer))
    ensures key in s.connected
    ensures var c := s.connected[key]; var r := Step(s, ReadMessages(key, some, malformed, answer));
      && r.trace == s.trace + (if some then [Of(key, OnReceiveMessages)] else [])
                  + (if malformed then [Of(key, OnMalformedMessage), Of(key, OnDisconnected(ComesBack(c), answer))] else [])
      && if malformed then Ended(s, c, answer, s.issued, r) else r == s.(trace := r.trace)
  {
    ObjectOk(s, key);
    var c := s.connected[key];
    var s1 := if some then Log(s, Of(key, OnReceiveMessages)) else s;
    if malformed {
      DisconnectIntDone(Log(s1, Of(key, OnMalformedMessage)), c, answer, s.issued);
    }
  }

  lemma DataNoticeDone(s: State, key: int, notice: ConnCall)
    requires Inv(s) && Enabled(s, DataNotice(key, notice))
    ensures Step(s, DataNotice(key, notice)) == s.(trace := s.trace + [Of(key, notice)])
  {
    ObjectOk(s, key);
  }

  // ----- attempts that succeed -----

  /** The object as it is once established: with all of its budget, and without a
      response; through a proxy with what is left of the budget. */
  function Established(c: Conn): Conn {
    c.(stage := Up, resolved := [], iter := End, retries := if c.kind == Proxied then c.retries else c.target.nRetries)
  }

  /** The interface is asked; with its agreement the object is established under its
      id and told to be ready, without it is gone. */
  ghost predicate Offered(s: State, c: Conn, answer: bool, r: State) {
    && r.trace == s.trace + [Of(c.id, OnOutgoingConnection(answer))]
                + (if answer then [Of(c.id, OnReadyForFirstSend)] else [])
    && r.connecting == s.connecting - {c.id}
    && r.connected == (if answer then s.connected[c.id := Established(c)] else s.connected)
    && OnlyConnections(s, r) && r.incoming == s.incoming && r.outgoing == s.outgoing + (if answer then 1 else 0)
  }

  lemma OfferDone(s: State, c: Conn, d: Conn, answer: bool)
    requires c.id in s.connecting && d.id == c.id && d.(stage := Up) == Established(c)
    ensures Offered(s, c, answer, OutgoingConnected(s, d, answer))
  {
    var t := s.trace + [Of(c.id, OnOutgoingConnection(answer))];
    assert t + [] == t;
  }

  /** A direct or DNS connection is offered, a proxied one starts its handshake. */
  lemma ConnectDoneDone(s: State, key: int, answer: bool)
    requires Inv(s) && Enabled(s, ConnectDone(key, true, answer))
    ensures Trying(s, key, Connecting)
    ensures var c := s.connecting[key]; var r := Step(s, ConnectDone(key, true, answer));
      if c.kind == Proxied then r == s.(connecting := s.connecting[key := c.(stage := Handshaking)])
      else Offered(s, c, answer, r)
  {
    ObjectOk(s, key);
    var c := s.connecting[key];
    if c.kind != Proxied {
      OfferDone(s, c, Restored(c), answer);
    }
  }

  lemma ProxyDoneDone(s: State, key: int, answer: bool)
    requires Inv(s) && Enabled(s, ProxyDone(key, true, answer))
    ensures Trying(s, key, Handshaking) && s.connecting[key].kind == Proxied
    ensures Offered(s, s.connecting[key], answer, Step(s, ProxyDone(key, true, answer)))
  {
    ObjectOk(s, key);
    OfferDone(s, s.connecting[key], s.connecting[key], answer);
  }

  // ----- attempts that are started -----

  /** The address is of a family that is allowed. */
  predicate FamilyAllowed(sock: Sock, family: Family) {
    (sock == Inet && family.ipv4) || (sock == Inet6 && family.ipv6) || (sock == Unix && family.unix)
  }

  /** What may be connected to directly: an address of an allowed family. */
  predicate DirectAllowed(t: Target) {
    t.isSet && !t.isDns && !t.isOnion && FamilyAllowed(t.sock, t.family)
  }

  /** What may be asked of a proxy: a name that is to be resolved and connected to, an
      onion name if the proxy is allowed it, or an address of an allowed family. */
  predicate ProxyAllowed(t: Target) {
    && t.isSet && t.proxySet
    && (t.isDns ==> t.doResolve == ResolveConnect)
    && (!t.isDns && t.isOnion ==> t.family.onionProxy)
    && (!t.isDns && !t.isOnion ==> FamilyAllowed(t.sock, t.family))
  }

  /** What may be looked up: a name that is not to be kept, for an IP family. */
  predicate ResolveAllowed(t: Target) {
    t.isSet && t.isDns && t.doResolve in {ResolveOnly, ResolveConnect} && (t.family.ipv4 || t.family.ipv6)
  }

  /** The object goes on in its place, in the given stage, and nothing else happens. */
  predicate GoesOn(s: State, key: int, stage: Stage, r: State) {
    key in s.connecting && r == s.(connecting := s.connecting[key := s.connecting[key].(stage := stage)])
  }

  /** One report of the failed attempt. The object waits by the next id if a retry is
      offered and the interface agrees, and is gone if not. */
  ghost predicate FailsAtOnce(s: State, key: int, answer: bool, next: int, r: State) {
    && key in s.connecting
    && |r.trace| == |s.trace| + 1 && r.trace == s.trace + [r.trace[|s.trace|]]
    && var cb := r.trace[|s.trace|];
    && cb.Failed? && cb.attempt == key && cb.from == s.connecting[key].From() && cb.report.answer == answer
    && (if cb.report.retry && answer then
          && next in r.connecting && r.connecting - {next} == s.connecting - {key}
          && r.connecting[next].id == next && r.connecting[next].From() == s.connecting[key].From()
          && r.connecting[next].stage == Waiting
        else r.connecting == s.connecting - {key})
    && r.connected == s.connected && OnlyConnections(s, r) && r.outgoing == s.outgoing && r.incoming == s.incoming
  }

  /** The object failed is the one held, perhaps changed on the way. */
  ghost predicate FreeToFail(s: State, c: Conn, key: int, next: int) {
    && AllocatorOk(s) && s.issued < ID_SPAN && next == s.issued && next != key && next !in s.connecting && !s.shutdown
    && c.id == key && key in s.connecting && s.connecting[key].From() == c.From()
  }

  lemma FailureDone(s: State, c: Conn, t: FailureType, failed: Endpoint, mayRetry: bool, answer: bool, key: int, next: int)
    requires FreeToFail(s, c, key, next)
    ensures FailsAtOnce(s, key, answer, next, FailConnection(s, c, t, failed, mayRetry, answer))
  {
    var cb := Failed(key, c.From(), FailureReport(t, failed, mayRetry, answer));
    var r := FailConnection(s, c, t, failed, mayRetry, answer);
    assert r.trace == s.trace + [cb] && r.trace[|s.trace|] == cb;
    if mayRetry && answer {
      PutThenRemove(s.connecting - {key}, next, c.(id := next, stage := Waiting));
      assert r.connecting == (s.connecting - {key})[next := c.(id := next, stage := Waiting)];
    }
  }

  lemma AddressDone(s: State, c: Conn, answer: bool, key: int, next: int)
    requires FreeToFail(s, c, key, next) && c.WalkOk() && c.iter != End
    ensures FailsAtOnce(s, key, answer, next, DnsConnectFailure(s, c, answer))
  {
    var d := Advance(c);
    FailureDone(s, d, CONNECT, Resolved(c.resolved[c.iter.pos]), d.iter != End || d.retries != 0, answer, key, next);
  }

  lemma NameDone(s: State, c: Conn, answer: bool, key: int, next: int)
    requires FreeToFail(s, c, key, next) && c.resolved == [] && c.iter == End
    ensures FailsAtOnce(s, key, answer, next, DnsResolveFailure(s, c, answer))
  {
    FailureDone(s, c.(retries := Spend(c.retries).0), RESOLVE, Original(c.target), Spend(c.retries).1, answer, key, next);
  }

  lemma DirectStarts(s: State, c: Conn, answer: bool, key: int, next: int)
    requires FreeToFail(s, c, key, next) && s.connecting[key] == c && c.kind in {Direct, Proxied} && c.WalkOk()
    ensures var r := Connect(s, c, answer);
      if (if c.kind == Direct then DirectAllowed(c.target) else ProxyAllowed(c.target)) then GoesOn(s, key, Connecting, r)
      else FailsAtOnce(s, key, answer, next, r)
  {
    FailureDone(s, c, if c.kind == Direct then CONNECT else PROXY, Original(c.target), false, answer, key, next);
  }

  lemma AddressStarts(s: State, c: Conn, answer: bool, key: int, next: int)
    requires FreeToFail(s, c, key, next) && c.WalkOk() && c.iter != End
    ensures var r := ConnectResolved(s, c, answer);
      if FamilyAllowed(c.resolved[c.iter.pos].sock, c.target.family) then
        r == s.(connecting := s.connecting[key := c.(stage := Connecting)])
      else FailsAtOnce(s, key, answer, next, r)
  {
    AddressDone(s, c, answer, key, next);
  }

  lemma NameStarts(s: State, c: Conn, answer: bool, key: int, next: int)
    requires FreeToFail(s, c, key, next) && s.connecting[key] == c && c.resolved == [] && c.iter == End
    ensures var r := DoResolve(s, c, answer);
      if ResolveAllowed(c.target) then GoesOn(s, key, Resolving, r) else FailsAtOnce(s, key, answer, next, r)
  {
    NameDone(s, c, answer, key, next);
  }

  lemma ToFail(s: State, key: int)
    requires Inv(s) && key in s.connecting && s.issued < ID_SPAN
    ensures FreeToFail(s, s.connecting[key], key, s.issued)
  {
    ObjectOk(s, key);
    ObjectOk(s, s.issued);
  }

  /** The timer starts a connect or a lookup, exactly if that is allowed; if not, the
      attempt fails at once. */
  lemma TimerDone(s: State, key: int, answer: bool)
    requires Inv(s) && Enabled(s, ReconnectTimer(key, answer))
    ensures Trying(s, key, Waiting) && s.connecting[key].WalkOk() && s.connecting[key].kind != Incoming
    ensures var c := s.connecting[key]; var r := Step(s, ReconnectTimer(key, answer));
      match c.kind
      case Incoming => false
      case Direct =>
        if DirectAllowed(c.target) then GoesOn(s, key, Connecting, r) else FailsAtOnce(s, key, answer, s.issued, r)
      case Proxied =>
        if ProxyAllowed(c.target) then GoesOn(s, key, Connecting, r) else FailsAtOnce(s, key, answer, s.issued, r)
      case Dns =>
        if c.iter == End then
          if ResolveAllowed(c.target) then GoesOn(s, key, Resolving, r) else FailsAtOnce(s, key, answer, s.issued, r)
        else if FamilyAllowed(c.resolved[c.iter.pos].sock, c.target.family) then GoesOn(s, key, Connecting, r)
        else FailsAtOnce(s, key, answer, s.issued, r)
  {
    ObjectOk(s, key);
    ToFail(s, key);
    var c := s.connecting[key];
    if c.kind != Dns {
      DirectStarts(s, c, answer, key, s.issued);
    } else if c.iter == End {
      NameStarts(s, c, answer, key, s.issued);
    } else {
      AddressStarts(s, c, answer, key, s.issued);
    }
  }

  /** A response is taken in, and its first address connected to if it is of an allowed
      family; if not, the attempt fails at once. */
  lemma ResolveDoneDone(s: State, key: int, response: seq<Addr>, answer: bool)
    requires Inv(s) && Enabled(s, ResolveDone(key, response, answer))
    ensures Trying(s, key, Resolving) && response != []
    ensures var c := s.connecting[key]; var r := Step(s, ResolveDone(key, response, answer));
      if FamilyAllowed(response[0].sock, c.target.family) then
        r == s.(connecting := s.connecting[key := c.(resolved := response, iter := At(0), stage := Connecting)])
      else FailsAtOnce(s, key, answer, s.issued, r)
  {
    ObjectOk(s, key);
    ToFail(s, key);
    AddressStarts(s, s.connecting[key].(resolved := response, iter := At(0)), answer, key, s.issued);
  }

  /** A failed connect, handshake or lookup is reported once. */
  lemma AttemptFailed(s: State, e: Event)
    requires Inv(s) && Enabled(s, e)
    requires e.ResolveFailed? || ((e.ConnectDone? || e.ProxyDone?) && !e.ok)
    ensures FailsAtOnce(s, e.key, e.answer, s.issued, Step(s, e))
  {
    ObjectOk(s, e.key);
    ToFail(s, e.key);
    var c := s.connecting[e.key];
    var d := c.(retries := Spend(c.retries).0);
    FailureDone(s, d, CONNECT, Original(c.target), Spend(c.retries).1, e.answer, e.key, s.issued);
    FailureDone(s, d, PROXY, Original(c.target), Spend(c.retries).1, e.answer, e.key, s.issued);
    if c.iter == End {
      FailureDone(s, d, RESOLVE, Original(c.target), Spend(c.retries).1, e.answer, e.key, s.issued);
    } else {
      AddressDone(s, c, e.answer, e.key, s.issued);
    }
  }

  // ----- lookups that fail or are made again -----

  /** One report of the failed query. The lookup is queued with one retry less if one is
      left and the interface agrees, and gone if not. */
  ghost predicate QueryFailed(s: State, l: Lookup, answer: bool, r: State) {
    r == s.(trace := s.trace + [OnLookupFailure(l.target, l.retries != 0, answer)],
            resolves := if l.retries == 0 || !answer then s.resolves - {l.id}
                        else s.resolves[l.id := l.(stage := Queued,
                                                   retries := if l.retries > 0 then l.retries - 1 else l.retries)])
  }

  lemma QueryFailureIs(s: State, l: Lookup, answer: bool)
    requires l.id in s.resolves && !s.shutdown
    ensures QueryFailed(s, l, answer, LookupFailure(s, l, answer))
  {
  }

  lemma LookupFailedDone(s: State, key: int, answer: bool)
    requires Inv(s) && Enabled(s, LookupFailed(key, answer))
    ensures key in s.resolves
    ensures QueryFailed(s, s.resolves[key], answer, Step(s, LookupFailed(key, answer)))
  {
    ObjectOk(s, key);
    QueryFailureIs(s, s.resolves[key], answer);
  }

  lemma LookupAgainDone(s: State, key: int, answer: bool)
    requires Inv(s) && Enabled(s, LookupAgain(key, answer))
    ensures key in s.resolves
    ensures var l := s.resolves[key]; var r := Step(s, LookupAgain(key, answer));
      if ResolveAllowed(l.target) then r == s.(resolves := s.resolves[key := l.(stage := Querying)])
      else QueryFailed(s, l, answer, r)
  {
    ObjectOk(s, key);
    QueryFailureIs(s, s.resolves[key], answer);
  }

  // ----- requests -----

  /** A target that is connected to, or looked up to be connected to, when it is started. */
  predicate Startable(t: Target) {
    && t.isSet && !(t.isDns && t.doResolve == ResolveOnly)
    && if t.proxySet then ProxyAllowed(t) else if t.isDns then ResolveAllowed(t) else DirectAllowed(t)
  }

  /** Its object: through the proxy if one is set, by name if it is one, or direct; with
      all of its budget. */
  function StartedAs(id: int, t: Target): Conn {
    Conn(id, if t.proxySet then Proxied else if t.isDns then Dns else Direct, t, t.nRetries,
         if !t.proxySet && t.isDns then Resolving else Connecting, [], End)
  }

  predicate AllStartable(candidates: seq<Candidate>) {
    forall c :: c in candidates && c.target.isSet ==> Startable(c.target)
  }

  /** The targets that are set, in order. */
  function SetTargets(candidates: seq<Candidate>): seq<Target> {
    if candidates == [] then []
    else (if candidates[0].target.isSet then [candidates[0].target] else []) + SetTargets(candidates[1..])
  }

  /** r is s with an object for each target, under one id after the other from next on. */
  ghost predicate StartedAll(s: State, targets: seq<Target>, next: int, r: State) {
    && r.issued == next + |targets|
    && (forall id :: 0 <= id < next ==>
          (id in r.connecting <==> id in s.connecting) && (id in s.connecting ==> r.connecting[id] == s.connecting[id]))
    && (forall id :: next <= id < next + |targets| ==>
          id in r.connecting && r.connecting[id] == StartedAs(id, targets[id - next]))
    && r.trace == s.trace && r.connected == s.connected && OnlyConnections(s, r)
    && r.outgoing == s.outgoing && r.incoming == s.incoming
  }

  lemma ConnectStarts(s: State, c: Conn, answer: bool)
    requires c.id in s.connecting && Startable(c.target) && c == NewConn(c.id, KindFor(c.target), c.target)
    ensures Connect(s, c, answer) == Update(s, StartedAs(c.id, c.target))
  {
  }

  /** r is s with the object for a target under the next id. */
  ghost predicate StartedOne(s: State, t: Target, next: int, r: State) {
    && AllocatorOk(r) && r.issued == next + 1
    && r == s.(connecting := s.connecting[next := StartedAs(next, t)],
               issued := r.issued, index := r.index, placed := r.placed)
  }

  lemma PlacedAndStarted(s: State, s1: State, c: Conn, next: int)
    requires AllocatorOk(s) && s.issued < ID_SPAN && next == s.issued && s1 == GetNextConnectionIndex(s).0 && c.id == next
    ensures StartedOne(s, c.target, next, Update(Place(s1, c), StartedAs(next, c.target)))
  {
    ReplaceTwice(s.connecting, next, c, StartedAs(next, c.target));
  }

  lemma StartOneDone(s: State, first: Candidate, next: int)
    requires AllocatorOk(s) && s.issued < ID_SPAN && next == s.issued && Startable(first.target)
    ensures StartedOne(s, first.target, next, StartOne(s, first))
  {
    var t := first.target;
    var (s1, id) := GetNextConnectionIndex(s);
    var c := NewConn(next, KindFor(t), t);
    ConnectStarts(Place(s1, c), c, first.answer);
    PlacedAndStarted(s, s1, c, next);
  }

  lemma StartedFirst(s: State, s1: State, first: Target, targets: seq<Target>, next: int, r: State)
    requires 0 <= next && StartedOne(s, first, next, s1) && StartedAll(s1, targets, next + 1, r)
    ensures StartedAll(s, [first] + targets, next, r)
  {
    var all := [first] + targets;
    forall id | next <= id < next + |all| ensures id in r.connecting && r.connecting[id] == StartedAs(id, all[id - next]) {
      if id > next {
        assert all[id - next] == targets[id - (next + 1)];
      } else {
        assert id in s1.connecting;
      }
    }
  }

  /** One candidate after the other. */
  function AllBy(one: (State, Candidate) -> State, s: State, candidates: seq<Candidate>): State
    decreases |candidates|
  {
    if candidates == [] then s else AllBy(one, one(s, candidates[0]), candidates[1..])
  }

  lemma {:induction false} StartAllIs(s: State, candidates: seq<Candidate>)
    ensures StartAll(s, candidates) == AllBy(StartOne, s, candidates)
    decreases |candidates|
  {
    if candidates != [] {
      StartAllIs(StartOne(s, candidates[0]), candidates[1..]);
    }
  }

  /** This starts one as it should, and ignores a candidate that is not set. */
  ghost predicate Starts(one: (State, Candidate) -> State) {
    && (forall t, c: Candidate, n :: AllocatorOk(t) && t.issued < ID_SPAN && n == t.issued && Startable(c.target) ==>
          StartedOne(t, c.target, n, one(t, c)))
    && (forall t, c: Candidate :: !c.target.isSet ==> one(t, c) == t)
  }

  lemma OneByDone(one: (State, Candidate) -> State, s: State, first: Candidate, next: int)
    requires Starts(one) && AllocatorOk(s) && s.issued < ID_SPAN && next == s.issued
    requires first.target.isSet ==> Startable(first.target)
    ensures if first.target.isSet then StartedOne(s, first.target, next, one(s, first)) else one(s, first) == s
  {
  }

  lemma StartedOnes(s: State, s1: State, candidates: seq<Candidate>, next: int, r: State)
    requires candidates != [] && 0 <= next && StartedAll(s1, SetTargets(candidates[1..]), next + 1, r)
    requires candidates[0].target.isSet && StartedOne(s, candidates[0].target, next, s1)
    ensures StartedAll(s, SetTargets(candidates), next, r)
  {
    StartedFirst(s, s1, candidates[0].target, SetTargets(candidates[1..]), next, r);
  }

  lemma SkippedOne(s: State, candidates: seq<Candidate>, next: int, r: State)
    requires candidates != [] && 0 <= next && StartedAll(s, SetTargets(candidates[1..]), next, r)
    requires !candidates[0].target.isSet
    ensures StartedAll(s, SetTargets(candidates), next, r)
  {
    assert [] + SetTargets(candidates[1..]) == SetTargets(candidates[1..]);
  }

  /** What is started first and what is started after it make up all. */
  lemma FirstAndRest(one: (State, Candidate) -> State, s: State, s1: State, candidates: seq<Candidate>, next: int, r: State)
    requires Starts(one) && AllocatorOk(s) && 0 <= next == s.issued < ID_SPAN
    requires candidates != [] && s1 == one(s, candidates[0])
    requires candidates[0].target.isSet ==> Startable(candidates[0].target)
    requires StartedAll(s1, SetTargets(candidates[1..]), s1.issued, r)
    ensures StartedAll(s, SetTargets(candidates), next, r)
  {
    OneByDone(one, s, candidates[0], next);
    if candidates[0].target.isSet {
      StartedOnes(s, s1, candidates, next, r);
    } else {
      SkippedOne(s, candidates, next, r);
    }
  }

  lemma {:induction false} AllByDone(one: (State, Candidate) -> State, s: State, candidates: seq<Candidate>, next: int)
    requires AllocatorOk(s) && 0 <= s.issued && s.issued + |candidates| <= ID_SPAN && next == s.issued
    requires AllStartable(candidates) && Starts(one)
    ensures StartedAll(s, SetTargets(candidates), next, AllBy(one, s, candidates))
    decreases |candidates|
  {
    if candidates != [] {
      var first, rest := candidates[0], candidates[1..];
      var s1 := one(s, first);
      assert first in candidates && AllStartable(rest);
      OneByDone(one, s, first, next);
      AllByDone(one, s1, rest, s1.issued);
      FirstAndRest(one, s, s1, candidates, next, AllBy(one, s1, rest));
    }
  }

  lemma StartAllDone(s: State, candidates: seq<Candidate>, next: int)
    requires AllocatorOk(s) && s.issued + |candidates| <= ID_SPAN && next == s.issued
    requires AllStartable(candidates)
    ensures StartedAll(s, SetTargets(candidates), next, StartAll(s, candidates))
  {
    forall t, c: Candidate, n | AllocatorOk(t) && t.issued < ID_SPAN && n == t.issued && Startable(c.target)
      ensures StartedOne(t, c.target, n, StartOne(t, c))
    {
      StartOneDone(t, c, n);
    }
    assert Starts(StartOne);
    AllByDone(StartOne, s, candidates, next);
    StartAllIs(s, candidates);
  }

  lemma RequestIs(s: State, candidates: seq<Candidate>, need: int, chosen: seq<Candidate>)
    requires Inv(s) && Enabled(s, Request(candidates)) && s.limit >= 0
    requires var free := s.limit - s.outgoing - |s.connecting|; need == if free < 8 then free else 8
    requires chosen == if |candidates| <= need then candidates else candidates[..need]
    ensures 0 <= need && |chosen| <= need && s.issued + |chosen| <= ID_SPAN
    ensures Step(s, Request(candidates)) ==
            if need == 0 then s else StartAll(Log(s, OnNeedOutgoingConnections(need)), chosen)
  {
    NeedWithinSlots(s);
    assert need == Need(s) && chosen == Chosen(s, candidates);
  }

  /** A request asks for as many connections as there are free slots, at most eight,
      and takes the first that many of what it is given, in order; unset ones are left
      out. Without a free slot it does nothing. */
  lemma RequestDone(s: State, candidates: seq<Candidate>, need: int, chosen: seq<Candidate>)
    requires Inv(s) && Enabled(s, Request(candidates)) && s.limit >= 0
    requires var free := s.limit - s.outgoing - |s.connecting|; need == if free < 8 then free else 8
    requires chosen == if |candidates| <= need then candidates else candidates[..need]
    requires AllStartable(chosen)
    ensures var r := Step(s, Request(candidates));
      if need == 0 then r == s
      else StartedAll(Log(s, OnNeedOutgoingConnections(need)), SetTargets(chosen), s.issued, r)
  {
    RequestIs(s, candidates, need, chosen);
    if need > 0 {
      StartAllDone(Log(s, OnNeedOutgoingConnections(need)), chosen, s.issued);
    }
  }
}
