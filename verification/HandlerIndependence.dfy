/** Events of one connection object leave every other object alone. */
module HandlerIndependence {
  import opened Connections
  import opened Protocol
  import opened HandlerModel
  import opened HandlerInvariant
  import opened HandlerRuns
  import opened Widths

  /** The connection object, lookup or listener an event belongs to; -1 for the others. */
  function Owner(e: Event): int {
    match e
    case ConnectDone(key, _, _) => key
    case ProxyDone(key, _, _) => key
    case ResolveDone(key, _, _) => key
    case ResolveFailed(key, _) => key
    case ReconnectTimer(key, _) => key
    case LookupDone(key, _) => key
    case LookupFailed(key, _) => key
    case LookupAgain(key, _) => key
    case ReadMessages(key, _, _, _) => key
    case DataNotice(key, _) => key
    case Disconnect(key, _) => key
    case ListenFailed(key) => key
    case _ => -1
  }

  /** What the handler holds under an id, if anything, is what it held before. */
  predicate Untouched(s: State, r: State, id: int) {
    && s.issued <= r.issued
    && (id in s.connecting <==> id in r.connecting) && (id in s.connecting ==> r.connecting[id] == s.connecting[id])
    && (id in s.connected <==> id in r.connected) && (id in s.connected ==> r.connected[id] == s.connected[id])
    && (id in s.resolves <==> id in r.resolves) && (id in s.resolves ==> r.resolves[id] == s.resolves[id])
    && (id in s.binds <==> id in r.binds)
  }

  /** The id is an issued one, so a new id cannot collide with it. */
  ghost predicate Issued(s: State, id: int) {
    AllocatorOk(s) && s.issued < ID_SPAN && id < s.issued
  }

  lemma FailConnectionUntouched(s: State, c: Conn, t: FailureType, failed: Endpoint, mayRetry: bool, answer: bool, id: int)
    requires c.id in s.connecting && id != c.id && Issued(s, id)
    ensures Untouched(s, FailConnection(s, c, t, failed, mayRetry, answer), id)
  {
  }

  lemma DnsConnectFailureUntouched(s: State, c: Conn, answer: bool, id: int)
    requires c.id in s.connecting && c.WalkOk() && c.iter != End && id != c.id && Issued(s, id)
    ensures Untouched(s, DnsConnectFailure(s, c, answer), id)
    ensures Untouched(s, ConnectResolved(s, c, answer), id)
  {
    var next := Advance(c);
    FailConnectionUntouched(s, next, CONNECT, Resolved(c.resolved[c.iter.pos]), next.iter != End || next.retries != 0,
                            answer, id);
  }

  lemma ResolveFailureUntouched(s: State, c: Conn, answer: bool, id: int)
    requires c.id in s.connecting && c.resolved == [] && c.iter == End && id != c.id && Issued(s, id)
    ensures Untouched(s, DnsResolveFailure(s, c, answer), id)
  {
    FailConnectionUntouched(s, c.(retries := Spend(c.retries).0), RESOLVE, Original(c.target), Spend(c.retries).1,
                            answer, id);
  }

  lemma ConnectUntouched(s: State, c: Conn, answer: bool, id: int)
    requires c.id in s.connecting && c.WalkOk() && c.IsOutgoing() && id != c.id && Issued(s, id)
    ensures Untouched(s, Connect(s, c, answer), id)
  {
    FailConnectionUntouched(s, c, CONNECT, Original(c.target), false, answer, id);
    FailConnectionUntouched(s, c, PROXY, Original(c.target), false, answer, id);
    if c.iter == End {
      ResolveFailureUntouched(s, c, answer, id);
    } else {
      DnsConnectFailureUntouched(s, c, answer, id);
    }
  }

  lemma ConnectDoneUntouched(s: State, c: Conn, answer: bool, id: int)
    requires c.id in s.connecting && c.kind != Incoming && c.WalkOk() && (c.kind == Dns ==> c.iter != End)
    requires id != c.id && Issued(s, id)
    ensures Untouched(s, ConnectFailure(s, c, answer), id)
    ensures Untouched(s, ProxyFailure(s, c, answer), id)
  {
    var d := c.(retries := Spend(c.retries).0);
    FailConnectionUntouched(s, d, CONNECT, Original(c.target), Spend(c.retries).1, answer, id);
    FailConnectionUntouched(s, d, PROXY, Original(c.target), Spend(c.retries).1, answer, id);
    if c.kind == Dns {
      DnsConnectFailureUntouched(s, c, answer, id);
    }
  }

  lemma ConnectedUntouched(s: State, c: Conn, answer: bool, id: int)
    requires c.id in s.connecting && c.kind != Incoming && id != c.id
    ensures Untouched(s, ConnectSuccess(s, c, answer), id)
    ensures Untouched(s, ProxySuccess(s, c, answer), id)
  {
  }

  lemma DisconnectUntouched(s: State, c: Conn, answer: bool, id: int)
    requires c.id in s.connected && id != c.id && Issued(s, id)
    ensures Untouched(s, DisconnectInt(s, c, answer), id)
  {
  }

  lemma ReadMessagesUntouched(s: State, c: Conn, some: bool, malformed: bool, answer: bool, id: int)
    requires c.id in s.connected && id != c.id && (malformed ==> Issued(s, id))
    ensures Untouched(s, ReadMessagesCb(s, c, some, malformed, answer), id)
  {
    if malformed {
      var s1 := if some then Log(s, Of(c.id, OnReceiveMessages)) else s;
      DisconnectUntouched(Log(s1, Of(c.id, OnMalformedMessage)), c, answer, id);
    }
  }

  lemma LookupUntouched(s: State, l: Lookup, results: seq<Addr>, answer: bool, id: int)
    requires l.id in s.resolves && id != l.id
    ensures Untouched(s, LookupFailure(s, l, answer), id)
    ensures Untouched(s, LookupResolve(s, l, answer), id)
    ensures Untouched(s, LookupComplete(s, l, results), id)
  {
  }

  lemma StartConnectionUntouched(s: State, target: Target, answer: bool, id: int)
    requires Inv(s) && s.running && !s.shutdown && Room(s, 1)
    requires s.issued + 2 <= ID_SPAN && id < s.issued
    ensures Untouched(s, StartConnection(s, target, answer), id)
  {
    AllocateKeeps(s);
    var (s1, next) := GetNextConnectionIndex(s);
    assert IdOk(s, next) && IdOk(s, id);
    if target.IsLookup() {
      if !target.proxySet {
        var l := Lookup(next, target, target.nRetries, Queued);
        LookupUntouched(s1.(resolves := s1.resolves[next := l]), l, [], answer, id);
      }
    } else {
      var c := NewConn(next, KindFor(target), target);
      ConnectUntouched(Place(s1, c), c, answer, id);
    }
  }

  lemma StartOneUntouched(s: State, first: Candidate, id: int)
    requires Inv(s) && s.running && !s.shutdown && Room(s, 1)
    requires s.issued + 2 <= ID_SPAN && id < s.issued
    ensures Untouched(s, StartOne(s, first), id)
  {
    if first.target.isSet {
      StartConnectionUntouched(s, first.target, first.answer, id);
    }
  }

  lemma UntouchedTwice(s: State, r: State, t: State, id: int)
    requires Untouched(s, r, id) && Untouched(r, t, id)
    ensures Untouched(s, t, id)
  {
  }

  lemma {:induction false} StartAllUntouched(s: State, candidates: seq<Candidate>, id: int)
    requires Inv(s) && s.running && !s.shutdown
    requires s.issued + 2 * |candidates| <= ID_SPAN
    requires Room(s, |candidates|)
    requires id < s.issued
    ensures Untouched(s, StartAll(s, candidates), id)
    decreases |candidates|
  {
    if candidates != [] {
      var s1 := StartOne(s, candidates[0]);
      StartOneKeeps(s, candidates[0]);
      StartOneUntouched(s, candidates[0], id);
      StartAllUntouched(s1, candidates[1..], id);
      UntouchedTwice(s, s1, StartAll(s1, candidates[1..]), id);
    }
  }

  lemma RequestUntouched(s: State, candidates: seq<Candidate>, id: int)
    requires Inv(s) && s.running && !s.shutdown
    requires s.issued + 2 * |Chosen(s, candidates)| <= ID_SPAN
    requires id < s.issued
    ensures Untouched(s, RequestOutgoing(s, candidates), id)
  {
    if s.limit >= 0 {
      NeedWithinSlots(s);
    }
    if Need(s) > 0 {
      var cb := OnNeedOutgoingConnections(ToInt(Need(s)));
      LogQuiet(s, cb);
      StartAllUntouched(Log(s, cb), Chosen(s, candidates), id);
    }
  }

  lemma TryingUntouched(s: State, e: Event, id: int)
    requires Inv(s) && Enabled(s, e) && Owner(e) != id && 0 <= id < s.issued
    requires e.IsTrying()
    ensures Untouched(s, Step(s, e), id)
  {
    ObjectOk(s, e.key);
    var c := s.connecting[e.key];
    match e
    case ConnectDone(key, ok, answer) =>
      ConnectDoneUntouched(s, c, answer, id);
      ConnectedUntouched(s, c, answer, id);
    case ReconnectTimer(key, answer) => ConnectUntouched(s, c, answer, id);
    case ResolveDone(key, response, answer) =>
      DnsConnectFailureUntouched(s, c.(resolved := response, iter := At(0)), answer, id);
    case ResolveFailed(key, answer) => ResolveFailureUntouched(s, c, answer, id);
    case ProxyDone(key, ok, answer) =>
      ConnectDoneUntouched(s, c, answer, id);
      ConnectedUntouched(s, c, answer, id);
  }

  lemma LookupStepUntouched(s: State, e: Event, id: int)
    requires Inv(s) && Enabled(s, e) && Owner(e) != id
    requires e.IsLookup()
    ensures Untouched(s, Step(s, e), id)
  {
    ObjectOk(s, e.key);
    LookupUntouched(s, s.resolves[e.key], if e.LookupDone? then e.results else [], !e.LookupDone? && e.answer, id);
  }

  lemma ConnectedStepUntouched(s: State, e: Event, id: int)
    requires Inv(s) && Enabled(s, e) && Owner(e) != id && 0 <= id < s.issued
    requires e.IsServing()
    ensures Untouched(s, Step(s, e), id)
  {
    ObjectOk(s, e.key);
    match e
    case ReadMessages(key, some, malformed, answer) =>
      ReadMessagesUntouched(s, s.connected[key], some, malformed, answer, id);
    case Disconnect(key, answer) => DisconnectUntouched(s, s.connected[key], answer, id);
    case DataNotice(_, _) =>
  }

  lemma AcceptUntouched(s: State, bind: Target, answer: bool, id: int)
    requires Inv(s) && s.issued < ID_SPAN && id < s.issued
    ensures Untouched(s, AcceptIncoming(s, bind, answer), id)
  {
    ObjectOk(s, s.issued);
    AcceptIncomingForm(s, bind, answer);
  }

  lemma BindUntouched(s: State, ok: bool, id: int)
    requires Issued(s, id)
    ensures Untouched(s, BindListener(s, ok), id)
  {
  }

  lemma ListenFailureUntouched(s: State, key: int, id: int)
    requires key != id
    ensures Untouched(s, ListenFailure(s, key), id)
  {
  }

  lemma HandlerStepUntouched(s: State, e: Event, id: int)
    requires Inv(s) && Enabled(s, e) && 0 <= id < s.issued && Owner(e) != id
    requires e.Startup? || e.Request? || e.Accepted? || e.Bind? || e.ListenFailed? || e.PumpEnd?
    ensures Untouched(s, Step(s, e), id)
  {
    match e
    case Request(candidates) => RequestUntouched(s, candidates, id);
    case Accepted(bind, answer) => AcceptUntouched(s, bind, answer, id);
    case Bind(_, ok) => BindUntouched(s, ok, id);
    case ListenFailed(key) => ListenFailureUntouched(s, key, id);
    case _ =>
  }

  /** Short of a shutdown, an event touches only the object it belongs to: what
      is held under any other id stays as it is. */
  lemma OthersUntouched(s: State, e: Event, id: int)
    requires Inv(s) && !e.ShutdownRequest? && Owner(e) != id && 0 <= id < s.issued
    ensures Untouched(s, Step(s, e), id)
  {
    if Enabled(s, e) {
      if e.IsLookup() {
        LookupStepUntouched(s, e, id);
      } else if e.IsServing() {
        ConnectedStepUntouched(s, e, id);
      } else if e.IsTrying() {
        TryingUntouched(s, e, id);
      } else {
        HandlerStepUntouched(s, e, id);
      }
    }
  }
}
