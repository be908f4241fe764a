/** What the interface is told, in every run: each call in terms of the event it was
    made at, and of failures what a report names, which sort it is, and when it offers
    a retry. */
module HandlerReports {
  import opened Connections
  import opened Maps
  import opened Protocol
  import opened HandlerModel
  import opened HandlerInvariant
  import opened HandlerRuns
  import opened HandlerEvents
  import opened Widths

  // ----- what a failure is reported as -----

  /** The report of a failure of c. A DNS failure, a proxy failure or the connection
      failure of any other kind names the request; that of a DNS connection names the
      address under its iterator. A retry is offered if addresses or retries are left,
      and the attempt got as far as connecting. */
  predicate ReportExact(c: Conn, report: FailureCall) {
    match report
    case OnDnsFailure(failed, retry, _) =>
      c.kind == Dns && c.iter == End && failed == Original(c.target) && (retry <==> c.retries != 0)
    case OnProxyFailure(failed, retry, _) =>
      && c.kind == Proxied && c.stage != Handshaking && failed == Original(c.target)
      && (retry <==> c.From().Eligible() && c.retries != 0)
    case OnConnectionFailure(failed, resolved, retry, _) =>
      resolved == failed &&
      if c.kind == Dns then
        && c.iter.At? && c.iter.pos < |c.resolved| && failed == Resolved(c.resolved[c.iter.pos])
        && (retry <==> c.iter.pos + 1 < |c.resolved| || c.retries != 0)
      else
        && failed == Original(c.target) && (c.kind == Proxied ==> c.stage == Handshaking)
        && (retry <==> c.From().Eligible() && c.retries != 0)
  }

  /** The object of an attempt before an event, with the response the event brings; an
      object that the event itself makes is new. */
  function Before(s: State, e: Event, attempt: int, from: Origin): Conn {
    if attempt in s.connecting then
      var c := s.connecting[attempt];
      if e.ResolveDone? then c.(resolved := e.response, iter := At(0)) else c
    else NewConn(attempt, from.kind, from.target)
  }

  /** A call about a connection, in terms of the state before the event: offered when
      its attempt or its peer came through, with the event's answer; told of messages
      and bad ones as they were read; disconnected when it was held, and asking to come
      back if it is a persistent outgoing one and the handler is not going down. */
  predicate ExactConnCall(s: State, e: Event, id: int, call: ConnCall) {
    match call
    case OnOutgoingConnection(answer) =>
      && (e.ConnectDone? || e.ProxyDone?) && e.ok && e.key == id && answer == e.answer && id in s.connecting
      && (e.ProxyDone? <==> s.connecting[id].kind == Proxied)
    case OnReadyForFirstSend => (e.ConnectDone? || e.ProxyDone?) && e.ok && e.key == id && e.answer
    case OnIncomingConnection(answer) => e.Accepted? && id == s.issued && answer == e.answer
    case OnMalformedMessage => e.ReadMessages? && e.malformed && e.key == id
    case OnDisconnected(comesBack, answer) =>
      && id in s.connected
      && if e.ShutdownRequest? then !comesBack && !answer
         else
           && (e.Disconnect? || (e.ReadMessages? && e.malformed)) && e.key == id && answer == e.answer
           && (comesBack <==> s.connected[id].kind != Incoming && s.connected[id].target.persistent)
    case _ => e == DataNotice(id, call) || (call.OnReceiveMessages? && e.ReadMessages? && e.some && e.key == id)
  }

  /** A call made at an event, in terms of the state before the event. In a shutdown
      every attempt is reported as failed, by its request and without a retry. */
  predicate ExactCall(s: State, e: Event, cb: Callback) {
    match cb
    case OnStartup => e.Startup?
    case OnShutdown => e.PumpEnd?
    case OnNeedOutgoingConnections(need) =>
      e.Request? &&
      (s.limit >= 0 ==> var free := s.limit - s.outgoing - |s.connecting|; need == (if free < 8 then free else 8) > 0)
    case OnBindFailure => (e.Bind? && !e.ok) || e.ListenFailed?
    case OnDnsResponse(target, results) =>
      e.LookupDone? && e.key in s.resolves && target == s.resolves[e.key].target && results == e.results
    case Failed(attempt, from, report) =>
      && Before(s, e, attempt, from).From() == from
      && from.kind == (if from.target.proxySet then Proxied else if from.target.isDns then Dns else Direct)
      && if e.ShutdownRequest? then
           && attempt in s.connecting
           && report == OnConnectionFailure(Original(from.target), Original(from.target), false, false)
         else
           && (if attempt in s.connecting then e.IsTrying() && e.key == attempt else e.Request? && s.issued <= attempt)
           && ReportExact(Before(s, e, attempt, from), report)
    case OnLookupFailure(target, retry, _) =>
      if e.IsLookup() then
        e.key in s.resolves && target == s.resolves[e.key].target && (retry <==> s.resolves[e.key].retries != 0)
      else e.Request? && (retry <==> target.nRetries != 0)
    case Of(id, call) => ExactConnCall(s, e, id, call)
  }

  /** r came out of s by such calls; s0 is the state before the event. */
  predicate CallsExact(s0: State, e: Event, s: State, r: State) {
    && s.trace <= r.trace
    && forall i {:trigger r.trace[i]} :: |s.trace| <= i < |r.trace| ==> ExactCall(s0, e, r.trace[i])
  }

  lemma CallsExactTwice(s0: State, e: Event, s: State, r: State, t: State)
    requires CallsExact(s0, e, s, r) && CallsExact(s0, e, r, t)
    ensures CallsExact(s0, e, s, t)
  {
    forall i | |s.trace| <= i < |t.trace| ensures ExactCall(s0, e, t.trace[i]) {
      if i < |r.trace| {
        assert t.trace[i] == r.trace[i];
      }
    }
  }

  lemma ListExact(s0: State, e: Event, s: State, calls: seq<Callback>, r: State)
    requires r.trace == s.trace + calls && forall i :: 0 <= i < |calls| ==> ExactCall(s0, e, calls[i])
    ensures CallsExact(s0, e, s, r)
  {
  }

  // ----- the operations of one object -----

  predicate CallFor(c: Conn, cb: Callback) {
    match cb
    case Failed(attempt, from, report) => attempt == c.id && from == c.From() && ReportExact(c, report)
    case _ => false
  }

  /** r came out of s by exact reports of the failure of c. */
  predicate MadeFor(s: State, r: State, c: Conn) {
    && s.trace <= r.trace
    && forall i {:trigger r.trace[i]} :: |s.trace| <= i < |r.trace| ==> CallFor(c, r.trace[i])
  }

  /** The object may have been changed on the way to its failure. */
  lemma FailureMade(s: State, c: Conn, d: Conn, t: FailureType, failed: Endpoint, mayRetry: bool, answer: bool)
    requires c.id in s.connecting && !s.shutdown && d.id == c.id && d.From() == c.From()
    requires ReportExact(c, FailureReport(t, failed, mayRetry, answer))
    ensures MadeFor(s, FailConnection(s, d, t, failed, mayRetry, answer), c)
  {
  }

  lemma AddressMade(s: State, c: Conn, answer: bool)
    requires c.id in s.connecting && !s.shutdown && c.kind == Dns && c.WalkOk() && c.iter != End
    ensures MadeFor(s, DnsConnectFailure(s, c, answer), c)
    ensures MadeFor(s, ConnectResolved(s, c, answer), c)
  {
    var next := Advance(c);
    FailureMade(s, c, next, CONNECT, Resolved(c.resolved[c.iter.pos]), next.iter != End || next.retries != 0, answer);
  }

  lemma ResolveMade(s: State, c: Conn, answer: bool)
    requires c.id in s.connecting && !s.shutdown && c.kind == Dns && c.resolved == [] && c.iter == End
    ensures MadeFor(s, DnsResolveFailure(s, c, answer), c)
    ensures MadeFor(s, DoResolve(s, c, answer), c)
  {
    FailureMade(s, c, c.(retries := Spend(c.retries).0), RESOLVE, Original(c.target), Spend(c.retries).1, answer);
  }

  lemma ConnectMade(s: State, c: Conn, answer: bool)
    requires c.id in s.connecting && !s.shutdown && c.TryingOk() && c.stage == Waiting
    ensures MadeFor(s, Connect(s, c, answer), c)
  {
    if c.kind == Dns && c.iter == End {
      ResolveMade(s, c, answer);
    } else if c.kind == Dns {
      AddressMade(s, c, answer);
    } else if !c.From().Eligible() {
      FailureMade(s, c, c, if c.kind == Direct then CONNECT else PROXY, Original(c.target), false, answer);
    }
  }

  /** A failed connect or handshake. */
  lemma AttemptMade(s: State, c: Conn, answer: bool)
    requires c.id in s.connecting && !s.shutdown && c.TryingOk() && c.stage in {Connecting, Handshaking}
    ensures c.stage == Connecting ==> MadeFor(s, ConnectFailure(s, c, answer), c)
    ensures c.stage == Handshaking ==> MadeFor(s, ProxyFailure(s, c, answer), c)
  {
    var d := c.(retries := Spend(c.retries).0);
    if c.kind == Dns {
      AddressMade(s, c, answer);
    } else if c.kind == Direct || c.stage == Handshaking {
      FailureMade(s, c, d, CONNECT, Original(c.target), Spend(c.retries).1, answer);
    } else {
      FailureMade(s, c, d, PROXY, Original(c.target), Spend(c.retries).1, answer);
    }
  }

  predicate Succeeds(e: Event) {
    (e.ConnectDone? || e.ProxyDone?) && e.ok
  }

  lemma TryingMade(s: State, e: Event)
    requires Inv(s) && Enabled(s, e) && e.IsTrying() && !Succeeds(e)
    ensures e.key in s.connecting && s.connecting[e.key].id == e.key && s.connecting[e.key].MadeOk()
    ensures MadeFor(s, Step(s, e), Before(s, e, e.key, s.connecting[e.key].From()))
  {
    ObjectOk(s, e.key);
    var c := s.connecting[e.key];
    match e
    case ConnectDone(_, _, answer) => AttemptMade(s, c, answer);
    case ProxyDone(_, _, answer) => AttemptMade(s, c, answer);
    case ReconnectTimer(_, answer) => ConnectMade(s, c, answer);
    case ResolveDone(_, response, answer) => AddressMade(s, c.(resolved := response, iter := At(0)), answer);
    case ResolveFailed(_, answer) => ResolveMade(s, c, answer);
  }

  lemma MadeForTheOwner(s: State, e: Event, r: State)
    requires e.IsTrying() && e.key in s.connecting && s.connecting[e.key].id == e.key
    requires s.connecting[e.key].MadeOk() && s.connecting[e.key].IsOutgoing()
    requires MadeFor(s, r, Before(s, e, e.key, s.connecting[e.key].From()))
    ensures CallsExact(s, e, s, r)
  {
    forall i | |s.trace| <= i < |r.trace| ensures ExactCall(s, e, r.trace[i]) {
      assert CallFor(Before(s, e, e.key, s.connecting[e.key].From()), r.trace[i]);
    }
  }

  lemma Together<T>(a: seq<T>, b: seq<T>, c: seq<T>)
    ensures a + b + c == a + (b + c)
  {
  }

  lemma OfferExact(s: State, e: Event, r: State)
    requires Succeeds(e) && e.key in s.connecting && s.connecting[e.key].id == e.key
    requires e.ProxyDone? <==> s.connecting[e.key].kind == Proxied
    requires Offered(s, s.connecting[e.key], e.answer, r)
    ensures CallsExact(s, e, s, r)
  {
    var offer := [Of(e.key, OnOutgoingConnection(e.answer))];
    var ready: seq<Callback> := if e.answer then [Of(e.key, OnReadyForFirstSend)] else [];
    Together(s.trace, offer, ready);
    ListExact(s, e, s, offer + ready, r);
  }

  lemma SuccessExact(s: State, e: Event)
    requires Inv(s) && Enabled(s, e) && Succeeds(e)
    ensures CallsExact(s, e, s, Step(s, e))
  {
    ObjectOk(s, e.key);
    if e.ProxyDone? {
      ProxyDoneDone(s, e.key, e.answer);
      OfferExact(s, e, Step(s, e));
    } else {
      ConnectDoneDone(s, e.key, e.answer);
      if s.connecting[e.key].kind != Proxied {
        OfferExact(s, e, Step(s, e));
      }
    }
  }

  lemma TryingCallsExact(s: State, e: Event)
    requires Inv(s) && Enabled(s, e) && e.IsTrying()
    ensures CallsExact(s, e, s, Step(s, e))
  {
    if Succeeds(e) {
      SuccessExact(s, e);
    } else {
      ObjectOk(s, e.key);
      TryingMade(s, e);
      MadeForTheOwner(s, e, Step(s, e));
    }
  }

  // ----- lookups -----

  /** r came out of s by exact reports of the failure of l. */
  predicate LookupMade(s: State, r: State, l: Lookup) {
    && s.trace <= r.trace
    && forall i {:trigger r.trace[i]} :: |s.trace| <= i < |r.trace| ==>
         r.trace[i].OnLookupFailure? && r.trace[i].target == l.target && (r.trace[i].retry <==> l.retries != 0)
  }

  lemma LookupIsMade(s: State, l: Lookup, answer: bool)
    requires l.id in s.resolves && !s.shutdown
    ensures LookupMade(s, LookupFailure(s, l, answer), l)
    ensures LookupMade(s, LookupResolve(s, l, answer), l)
  {
  }

  lemma LookupExact(s: State, e: Event, r: State)
    requires (e.LookupFailed? || e.LookupAgain?) && e.key in s.resolves && LookupMade(s, r, s.resolves[e.key])
    ensures CallsExact(s, e, s, r)
  {
  }

  lemma ResultsExact(s: State, e: Event, r: State)
    requires e.LookupDone? && e.key in s.resolves
    requires r.trace == s.trace + [OnDnsResponse(s.resolves[e.key].target, e.results)]
    ensures CallsExact(s, e, s, r)
  {
    ListExact(s, e, s, [OnDnsResponse(s.resolves[e.key].target, e.results)], r);
  }

  lemma LookupCallsExact(s: State, e: Event)
    requires Inv(s) && Enabled(s, e) && e.IsLookup()
    ensures CallsExact(s, e, s, Step(s, e))
  {
    ObjectOk(s, e.key);
    if e.LookupDone? {
      LookupDoneDone(s, e.key, e.results);
      ResultsExact(s, e, Step(s, e));
    } else {
      LookupIsMade(s, s.resolves[e.key], e.answer);
      LookupExact(s, e, Step(s, e));
    }
  }

  // ----- requests -----

  /** What a new object or lookup reports, seen from before the request. */
  lemma NewIsExact(s0: State, e: Event, s: State, r: State, c: Conn)
    requires e.Request? && c == NewConn(c.id, c.kind, c.target) && s0.issued <= c.id && c.id !in s0.connecting
    requires c.MadeOk() && c.IsOutgoing()
    requires MadeFor(s, r, c)
    ensures CallsExact(s0, e, s, r)
  {
    forall i | |s.trace| <= i < |r.trace| ensures ExactCall(s0, e, r.trace[i]) {
      assert CallFor(c, r.trace[i]);
    }
  }

  lemma NewLookupIsExact(s0: State, e: Event, s: State, l: Lookup, answer: bool)
    requires e.Request? && l.retries == l.target.nRetries && l.id in s.resolves && !s.shutdown
    ensures CallsExact(s0, e, s, LookupResolve(s, l, answer))
  {
    LookupIsMade(s, l, answer);
  }

  lemma NewObjectIsExact(s0: State, e: Event, s: State, c: Conn, answer: bool)
    requires e.Request? && c == NewConn(c.id, c.kind, c.target) && c.MadeOk() && c.IsOutgoing()
    requires Inv(s0) && s0.issued <= c.id && c.id in s.connecting && !s.shutdown
    ensures CallsExact(s0, e, s, Connect(s, c, answer))
  {
    ObjectOk(s0, c.id);
    ConnectMade(s, c, answer);
    NewIsExact(s0, e, s, Connect(s, c, answer), c);
  }

  lemma StartConnectionExact(s0: State, e: Event, s: State, target: Target, answer: bool)
    requires Inv(s0) && e.Request? && s0.issued <= s.issued
    requires Inv(s) && s.running && !s.shutdown && s.issued < ID_SPAN && target.isSet
    ensures CallsExact(s0, e, s, StartConnection(s, target, answer))
  {
    var (s1, id) := GetNextConnectionIndex(s);
    if target.IsLookup() {
      if !target.proxySet {
        var l := Lookup(id, target, target.nRetries, Queued);
        NewLookupIsExact(s0, e, s1.(resolves := s1.resolves[id := l]), l, answer);
      }
    } else {
      var c := NewConn(id, KindFor(target), target);
      NewObjectIsExact(s0, e, Place(s1, c), c, answer);
    }
  }

  lemma {:induction false} StartAllExact(s0: State, e: Event, s: State, candidates: seq<Candidate>)
    requires Inv(s0) && e.Request? && s0.issued <= s.issued
    requires Inv(s) && s.running && !s.shutdown
    requires s.issued + 2 * |candidates| <= ID_SPAN && Room(s, |candidates|)
    ensures CallsExact(s0, e, s, StartAll(s, candidates))
    decreases |candidates|
  {
    if candidates != [] {
      var s1 := StartOne(s, candidates[0]);
      StartOneKeeps(s, candidates[0]);
      if candidates[0].target.isSet {
        StartConnectionExact(s0, e, s, candidates[0].target, candidates[0].answer);
      }
      StartAllExact(s0, e, s1, candidates[1..]);
      CallsExactTwice(s0, e, s, s1, StartAll(s1, candidates[1..]));
    }
  }

  lemma NeedExact(s: State, e: Event)
    requires Inv(s) && e.Request? && Need(s) > 0
    ensures CallsExact(s, e, s, Log(s, OnNeedOutgoingConnections(ToInt(Need(s)))))
  {
    if s.limit >= 0 {
      NeedWithinSlots(s);
    }
    ListExact(s, e, s, [OnNeedOutgoingConnections(ToInt(Need(s)))], Log(s, OnNeedOutgoingConnections(ToInt(Need(s)))));
  }

  lemma RequestExact(s: State, e: Event)
    requires Inv(s) && s.running && !s.shutdown && e.Request?
    requires s.issued + 2 * |Chosen(s, e.candidates)| <= ID_SPAN
    ensures CallsExact(s, e, s, RequestOutgoing(s, e.candidates))
  {
    if s.limit >= 0 {
      NeedWithinSlots(s);
    }
    if Need(s) > 0 {
      var s1 := Log(s, OnNeedOutgoingConnections(ToInt(Need(s))));
      LogQuiet(s, OnNeedOutgoingConnections(ToInt(Need(s))));
      NeedExact(s, e);
      StartAllExact(s, e, s1, Chosen(s, e.candidates));
      CallsExactTwice(s, e, s, s1, StartAll(s1, Chosen(s, e.candidates)));
    }
  }

  // ----- shutdown -----

  lemma {:induction false} DropConnectedExact(s0: State, s: State, dropping: map<int, Conn>)
    requires forall id :: id in dropping ==> id in s0.connected
    ensures CallsExact(s0, ShutdownRequest, s, DropConnected(s, dropping))
    ensures DropConnected(s, dropping).connecting == s.connecting
    decreases |dropping|
  {
    if dropping != map[] {
      var id := Least(dropping.Keys);
      var s1 := DropOne(s, id, dropping[id]);
      ListExact(s0, ShutdownRequest, s, [Of(id, OnDisconnected(false, false))], s1);
      DropConnectedExact(s0, s1, dropping - {id});
      CallsExactTwice(s0, ShutdownRequest, s, s1, DropConnected(s1, dropping - {id}));
    }
  }

  /** What is still to be dropped was there before the shutdown. */
  predicate Remaining(s0: State, s: State) {
    forall id :: id in s.connecting ==>
      id in s0.connecting && s0.connecting[id] == s.connecting[id] && s.connecting[id].MadeOk()
  }

  lemma DropAttemptExact(s0: State, s: State, id: int)
    requires Remaining(s0, s) && id in s.connecting
    ensures CallsExact(s0, ShutdownRequest, s, DropAttempt(s, id, s.connecting[id]))
    ensures Remaining(s0, DropAttempt(s, id, s.connecting[id]))
  {
    var c := s.connecting[id];
    if c.IsOutgoing() {
      var cb := Failed(id, c.From(), OnConnectionFailure(Original(c.target), Original(c.target), false, false));
      ListExact(s0, ShutdownRequest, s, [cb], DropAttempt(s, id, c));
    }
  }

  lemma {:induction false} DropConnectingExact(s0: State, s: State)
    requires Remaining(s0, s)
    ensures CallsExact(s0, ShutdownRequest, s, DropConnecting(s))
    decreases |s.connecting|
  {
    if s.connecting != map[] {
      var id := Least(s.connecting.Keys);
      var s1 := DropAttempt(s, id, s.connecting[id]);
      DropAttemptExact(s0, s, id);
      DropConnectingExact(s0, s1);
      CallsExactTwice(s0, ShutdownRequest, s, s1, DropConnecting(s1));
    }
  }

  lemma ShutdownExact(s: State)
    requires Inv(s)
    ensures CallsExact(s, ShutdownRequest, s, ShutdownInt(s))
  {
    if !s.shutdown {
      var s1 := s.(connected := map[], binds := {}, shutdown := true);
      var s2 := DropConnected(s1, s.connected);
      DropConnectedExact(s, s1, s.connected);
      forall id | id in s.connecting ensures s.connecting[id].MadeOk() {
        ObjectOk(s, id);
      }
      DropConnectingExact(s, s2);
      CallsExactTwice(s, ShutdownRequest, s1, s2, DropConnecting(s2));
    }
  }

  // ----- the other events -----

  /** What is told at a malformed message. */
  function Told(s: State, e: Event): seq<Callback>
    requires e.ReadMessages? && e.key in s.connected
  {
    [Of(e.key, OnMalformedMessage), Of(e.key, OnDisconnected(ComesBack(s.connected[e.key]), e.answer))]
  }

  lemma ReadExact(s: State, e: Event, r: State)
    requires e.ReadMessages? && e.key in s.connected
    requires r.trace == s.trace + (if e.some then [Of(e.key, OnReceiveMessages)] else [])
               + (if e.malformed then Told(s, e) else [])
    ensures CallsExact(s, e, s, r)
  {
    var first: seq<Callback> := if e.some then [Of(e.key, OnReceiveMessages)] else [];
    var last: seq<Callback> := if e.malformed then Told(s, e) else [];
    Together(s.trace, first, last);
    ListExact(s, e, s, first + last, r);
  }

  lemma ReadMessagesExact(s: State, e: Event)
    requires Inv(s) && Enabled(s, e) && e.ReadMessages?
    ensures CallsExact(s, e, s, Step(s, e))
  {
    ReadMessagesDone(s, e.key, e.some, e.malformed, e.answer);
    ReadExact(s, e, Step(s, e));
  }

  lemma EndExact(s: State, e: Event, r: State)
    requires e.Disconnect? && e.key in s.connected
    requires r.trace == s.trace + [Of(e.key, OnDisconnected(ComesBack(s.connected[e.key]), e.answer))]
    ensures CallsExact(s, e, s, r)
  {
    ListExact(s, e, s, [Of(e.key, OnDisconnected(ComesBack(s.connected[e.key]), e.answer))], r);
  }

  lemma DisconnectExact(s: State, e: Event)
    requires Inv(s) && Enabled(s, e) && e.Disconnect?
    ensures CallsExact(s, e, s, Step(s, e))
  {
    DisconnectDone(s, e.key, e.answer);
    EndExact(s, e, Step(s, e));
  }

  lemma NoticeExact(s: State, e: Event)
    requires Inv(s) && Enabled(s, e) && e.DataNotice?
    ensures CallsExact(s, e, s, Step(s, e))
  {
    DataNoticeDone(s, e.key, e.notice);
    ListExact(s, e, s, [Of(e.key, e.notice)], Step(s, e));
  }

  lemma RestExact(s: State, e: Event)
    requires Inv(s) && Enabled(s, e)
    requires e.Startup? || e.Accepted? || e.Bind? || e.ListenFailed? || e.PumpEnd?
    ensures CallsExact(s, e, s, Step(s, e))
  {
    match e
    case Startup(limit) =>
      StartupDone(s, limit);
      ListExact(s, e, s, [OnStartup], Step(s, e));
    case Accepted(bind, answer) =>
      AcceptedDone(s, bind, answer);
      ListExact(s, e, s, [Of(s.issued, OnIncomingConnection(answer))], Step(s, e));
    case Bind(conn, ok) =>
      BindDone(s, conn, ok);
      if !ok {
        ListExact(s, e, s, [OnBindFailure], Step(s, e));
      }
    case ListenFailed(key) =>
      ListenFailedDone(s, key);
      ListExact(s, e, s, [OnBindFailure], Step(s, e));
    case PumpEnd =>
      PumpEndDone(s);
      ListExact(s, e, s, [OnShutdown], Step(s, e));
  }

  // ----- every call of every run -----

  lemma StepCallsExact(s: State, e: Event)
    requires Inv(s)
    ensures CallsExact(s, e, s, Step(s, e))
  {
    if Enabled(s, e) {
      if e.IsTrying() {
        TryingCallsExact(s, e);
      } else if e.IsLookup() {
        LookupCallsExact(s, e);
      } else if e.Request? {
        RequestExact(s, e);
      } else if e.ShutdownRequest? {
        ShutdownExact(s);
      } else if e.ReadMessages? {
        ReadMessagesExact(s, e);
      } else if e.Disconnect? {
        DisconnectExact(s, e);
      } else if e.DataNotice? {
        NoticeExact(s, e);
      } else {
        RestExact(s, e);
      }
    }
  }

  lemma LastEvent(events: seq<Event>, e: Event)
    ensures Inv(BOOT)
    ensures CallsExact(Run(BOOT, events), e, Run(BOOT, events), Run(BOOT, events + [e]))
  {
    BootOk();
    var s := Run(BOOT, events);
    RunConcat(BOOT, events, [e]);
    RunOne(s, e);
    StepCallsExact(s, e);
  }

  /** The call at position i of a run was made at its event number k. */
  ghost predicate MadeAt(events: seq<Event>, i: nat, k: nat)
    requires Inv(BOOT)
  {
    k < |events| && |Run(BOOT, events[..k]).trace| <= i < |Run(BOOT, events[..k + 1]).trace|
  }

  /** It was made there, and is exactly what the event calls for. */
  ghost predicate ExactAt(events: seq<Event>, i: nat, k: nat)
    requires Inv(BOOT)
  {
    && i < |Run(BOOT, events).trace| && MadeAt(events, i, k)
    && ExactCall(Run(BOOT, events[..k]), events[k], Run(BOOT, events).trace[i])
  }

  lemma ExactEarlier(before: seq<Event>, e: Event, i: nat, k: nat)
    requires Inv(BOOT) && ExactAt(before, i, k)
    ensures ExactAt(before + [e], i, k)
  {
    LastEvent(before, e);
    var events := before + [e];
    assert events[..k] == before[..k] && events[..k + 1] == before[..k + 1] && events[k] == before[k];
  }

  lemma ExactLast(before: seq<Event>, e: Event, i: nat)
    requires Inv(BOOT) && |Run(BOOT, before).trace| <= i < |Run(BOOT, before + [e]).trace|
    ensures ExactAt(before + [e], i, |before|)
  {
    LastEvent(before, e);
    var events, k := before + [e], |before|;
    assert events[..k] == before && events[..k + 1] == events && events[k] == e;
  }

  /** Every call of every run was made at some event, and is exactly what that event
      called for in the state before it. A failure is reported exactly: by name, by sort
      and by whether a retry is offered, in terms of the object as it was before. */
  lemma {:induction false} EveryCallIsExact(events: seq<Event>, i: nat) returns (k: nat)
    ensures Inv(BOOT)
    ensures i < |Run(BOOT, events).trace| ==>
      MadeAt(events, i, k) && ExactCall(Run(BOOT, events[..k]), events[k], Run(BOOT, events).trace[i])
    decreases |events|
  {
    BootOk();
    k := 0;
    if i < |Run(BOOT, events).trace| {
      assert events != [];
      var before, e := events[..|events| - 1], events[|events| - 1];
      assert events == before + [e];
      if i < |Run(BOOT, before).trace| {
        k := EveryCallIsExact(before, i);
        ExactEarlier(before, e, i, k);
      } else {
        k := |before|;
        ExactLast(before, e, i);
      }
      assert ExactAt(events, i, k);
    }
  }

  // ----- the rules the interface can rely on -----

  /** The rules of failure reports by what the attempt was made for alone; down says
      whether the handler is being taken down. A connection failure names the request,
      save that of a DNS connection, which names an address until the handler goes down.
      A negative budget never runs out, and a zero budget offers a retry only to a DNS
      connection that has addresses. */
  predicate ReportOk(from: Origin, report: FailureCall, down: bool) {
    && (report.OnDnsFailure? ==> from.kind == Dns && report.failed == Original(from.target))
    && (report.OnProxyFailure? ==> from.kind == Proxied && report.failed == Original(from.target))
    && (report.OnConnectionFailure? ==>
          && report.resolved == report.failed
          && (if from.kind != Dns || down then report.failed == Original(from.target) else report.failed.Resolved?))
    && (down ==> !report.retry)
    && (!down && from.target.nRetries < 0 ==> (report.retry <==> from.Eligible()))
    && (from.target.nRetries == 0 && report.retry ==> report.OnConnectionFailure? && from.kind == Dns)
  }

  predicate CallOk(cb: Callback, down: bool) {
    match cb
    case Failed(_, from, report) => ReportOk(from, report, down)
    case OnLookupFailure(target, retry, _) =>
      (target.nRetries < 0 ==> retry) && (target.nRetries == 0 ==> !retry)
    case _ => true
  }

  lemma ExactMeansOk(s: State, e: Event, cb: Callback)
    requires Inv(s) && ExactCall(s, e, cb)
    ensures CallOk(cb, e.ShutdownRequest?)
  {
    if cb.Failed? {
      ObjectOk(s, cb.attempt);
    } else if cb.OnLookupFailure? && e.IsLookup() {
      ObjectOk(s, e.key);
    }
  }

  /** Every failure report of every run keeps the rules. */
  lemma EveryReportKeepsTheRules(events: seq<Event>, i: nat) returns (k: nat)
    ensures Inv(BOOT)
    ensures i < |Run(BOOT, events).trace| ==>
      MadeAt(events, i, k) && CallOk(Run(BOOT, events).trace[i], events[k].ShutdownRequest?)
  {
    k := EveryCallIsExact(events, i);
    if i < |Run(BOOT, events).trace| {
      ExactMeansOk(Run(BOOT, events[..k]), events[k], Run(BOOT, events).trace[i]);
    }
  }
}
