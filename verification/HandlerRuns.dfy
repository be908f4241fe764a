/** Steps and runs of the handler: the invariant holds after every sequence of
    events, whatever the peers and the interface do. */
module HandlerRuns {
  import opened Connections
  import opened Protocol
  import opened Maps
  import opened Widths
  import opened HandlerModel
  import opened HandlerInvariant

  // ----- requests for outgoing connections -----

  lemma NeedWithinSlots(s: State)
    requires Free(s) >= 0
    ensures Need(s) == ToInt(Need(s)) == Capped(s)
  {
  }

  /** The number of candidates taken is the free slots capped at eight, exactly when
      the number of free slots is not negative: a negative one turns into a huge
      size_t, and back into itself when the interface is told. */
  lemma NeedIsCappedFreeSlots(s: State)
    requires -INT_MAX <= Free(s) <= INT_MAX
    ensures Need(s) == Capped(s) <==> Free(s) >= 0
    ensures ToInt(Need(s)) == Capped(s)
  {
    if Free(s) < 0 {
      NegativeAsSize(Free(s));
    }
  }

  /** The settings and counters a connection attempt leaves alone. */
  predicate SameSetup(s: State, r: State) {
    r.running == s.running && r.shutdown == s.shutdown && r.limit == s.limit && r.outgoing == s.outgoing
  }

  lemma PutSize(m: map<int, Conn>, id: int, c: Conn)
    ensures |m[id := c]| <= |m| + 1
  {
    assert m[id := c].Keys == m.Keys + {id};
  }

  /** An attempt that starts or fails holds at most the slot it had. */
  lemma FailConnectionSlots(s: State, c: Conn, t: FailureType, failed: Endpoint, mayRetry: bool, answer: bool)
    requires c.id in s.connecting
    ensures var r := FailConnection(s, c, t, failed, mayRetry, answer);
      SameSetup(s, r) && |r.connecting| <= |s.connecting| && s.issued <= r.issued <= s.issued + 1
  {
    CountRemove(s.connecting, c.id);
    var newId := GetNextConnectionIndex(s).1;
    PutSize(s.connecting - {c.id}, newId, c.(id := newId, stage := Waiting));
  }

  lemma UpdateSlots(s: State, c: Conn)
    requires c.id in s.connecting
    ensures SameSetup(s, Update(s, c)) && |Update(s, c).connecting| == |s.connecting| && Update(s, c).issued == s.issued
  {
    assert Update(s, c).connecting.Keys == s.connecting.Keys;
  }

  lemma ConnectSlots(s: State, c: Conn, answer: bool)
    requires c.id in s.connecting && c.WalkOk() && c.IsOutgoing()
    requires c.iter == End
    ensures var r := Connect(s, c, answer);
      SameSetup(s, r) && |r.connecting| <= |s.connecting| && s.issued <= r.issued <= s.issued + 1
  {
    if c.kind == Dns {
      UpdateSlots(s, c.(stage := Resolving));
      var (left, retry) := Spend(c.retries);
      FailConnectionSlots(s, c.(retries := left), RESOLVE, Original(c.target), retry, answer);
    } else if c.From().Eligible() {
      UpdateSlots(s, c.(stage := Connecting));
    } else {
      FailConnectionSlots(s, c, if c.kind == Direct then CONNECT else PROXY, Original(c.target), false, answer);
    }
  }

  lemma LookupResolveSlots(s: State, l: Lookup, answer: bool)
    requires l.id in s.resolves
    ensures var r := LookupResolve(s, l, answer);
      SameSetup(s, r) && r.connecting == s.connecting && r.issued == s.issued
  {
  }

  lemma StartLookupKeeps(s: State, l: Lookup, answer: bool)
    requires Inv(s) && s.running && !s.shutdown
    requires l.MadeOk()
    requires 0 <= l.id < s.issued && l.id !in s.connected && l.id !in s.connecting && l.id !in s.binds
    ensures var r := LookupResolve(s.(resolves := s.resolves[l.id := l]), l, answer);
      Inv(r) && SameSetup(s, r) && r.connecting == s.connecting && r.issued == s.issued
  {
    LookupResolveSlots(s.(resolves := s.resolves[l.id := l]), l, answer);
    forall i | i in s.resolves ensures s.resolves[i].id == i && s.resolves[i].MadeOk() { assert IdOk(s, i); }
    ResolvesChangeKeeps(s, s.resolves[l.id := l]);
    LookupResolveKeeps(s.(resolves := s.resolves[l.id := l]), l, answer);
  }

  lemma StartOutgoingKeeps(s: State, target: Target, answer: bool)
    requires Inv(s) && s.running && !s.shutdown
    requires s.issued + 2 <= ID_SPAN
    requires target.isSet && !target.IsLookup()
    requires Room(s, 1)
    ensures var (s1, id) := GetNextConnectionIndex(s);
      var c := NewConn(id, KindFor(target), target);
      var r := Connect(Place(s1, c), c, answer);
      Inv(r) && SameSetup(s, r) && |r.connecting| <= |s.connecting| + 1 && s.issued <= r.issued <= s.issued + 2
  {
    AllocateKeeps(s);
    var (s1, id) := GetNextConnectionIndex(s);
    assert IdOk(s, id);
    var c := NewConn(id, KindFor(target), target);
    PlaceFresh(s, c);
    CountAdd(s.connecting, id, c);
    ConnectKeeps(Place(s1, c), c, answer);
    ConnectSlots(Place(s1, c), c, answer);
  }

  lemma StartConnectionKeeps(s: State, target: Target, answer: bool)
    requires Inv(s) && s.running && !s.shutdown
    requires s.issued + 2 <= ID_SPAN
    requires target.isSet
    requires Room(s, 1)
    ensures var r := StartConnection(s, target, answer);
      Inv(r) && SameSetup(s, r) && |r.connecting| <= |s.connecting| + 1 && s.issued <= r.issued <= s.issued + 2
  {
    AllocateKeeps(s);
    if target.IsLookup() {
      if !target.proxySet {
        var (s1, id) := GetNextConnectionIndex(s);
        assert IdOk(s, id);
        StartLookupKeeps(s1, Lookup(id, target, target.nRetries, Queued), answer);
      }
    } else {
      StartOutgoingKeeps(s, target, answer);
    }
  }

  lemma StartOneKeeps(s: State, first: Candidate)
    requires Inv(s) && s.running && !s.shutdown
    requires s.issued + 2 <= ID_SPAN
    requires Room(s, 1)
    ensures var r := StartOne(s, first);
      Inv(r) && SameSetup(s, r) && |r.connecting| <= |s.connecting| + 1 && s.issued <= r.issued <= s.issued + 2
  {
    if first.target.isSet {
      StartConnectionKeeps(s, first.target, first.answer);
    }
  }

  /** A request never takes more slots than it has candidates to start. */
  lemma {:induction false} StartAllKeeps(s: State, candidates: seq<Candidate>)
    requires Inv(s) && s.running && !s.shutdown
    requires s.issued + 2 * |candidates| <= ID_SPAN
    requires Room(s, |candidates|)
    ensures var r := StartAll(s, candidates);
      Inv(r) && SameSetup(s, r) && |r.connecting| <= |s.connecting| + |candidates|
    decreases |candidates|
  {
    if candidates != [] {
      StartOneKeeps(s, candidates[0]);
      StartAllKeeps(StartOne(s, candidates[0]), candidates[1..]);
    }
  }

  lemma RequestOutgoingKeeps(s: State, candidates: seq<Candidate>)
    requires Inv(s) && s.running && !s.shutdown
    requires s.issued + 2 * |Chosen(s, candidates)| <= ID_SPAN
    ensures Inv(RequestOutgoing(s, candidates))
    ensures var r := RequestOutgoing(s, candidates);
      && SameSetup(s, r)
      && |r.connecting| <= |s.connecting| + |Chosen(s, candidates)|
      && (s.limit >= 0 ==> |Chosen(s, candidates)| <= Need(s) <= MAX_SIMULTANEOUS_CONNECTING)
  {
    if s.limit >= 0 {
      NeedWithinSlots(s);
    }
    if Need(s) > 0 {
      var cb := OnNeedOutgoingConnections(ToInt(Need(s)));
      LogQuiet(s, cb);
      StartAllKeeps(Log(s, cb), Chosen(s, candidates));
    }
  }

  // ----- shutdown -----

  /** A map that is being taken down still counts as connected. */
  function Draining(s: State, dropping: map<int, Conn>): State {
    s.(connected := dropping, shutdown := false)
  }

  /** Calls were made and connections taken out of the counts, and no more. */
  predicate OnlyTold(s: State, r: State) {
    r == s.(outgoing := r.outgoing, incoming := r.incoming, trace := r.trace)
  }

  lemma DropOneKeeps(s: State, dropping: map<int, Conn>, id: int)
    requires s.running && id in dropping
    requires Inv(Draining(s, dropping))
    ensures Inv(Draining(DropOne(s, id, dropping[id]), dropping - {id}))
  {
    var s0 := Draining(s, dropping);
    var r := Draining(DropOne(s, id, dropping[id]), dropping - {id});
    assert IdOk(s0, id);
    LeftConnectedKeeps(s0, s0, dropping[id], Of(id, OnDisconnected(false, false)), r);
  }

  lemma {:induction false} DropConnectedKeeps(s: State, dropping: map<int, Conn>)
    requires s.running
    requires Inv(Draining(s, dropping))
    ensures var r := DropConnected(s, dropping);
      && Inv(Draining(r, map[]))
      && OnlyTold(s, r)
    decreases |dropping|
  {
    if dropping != map[] {
      var id := Least(dropping.Keys);
      var s1 := DropOne(s, id, dropping[id]);
      DropOneKeeps(s, dropping, id);
      DropConnectedKeeps(s1, dropping - {id});
      assert OnlyTold(s, s1);
    }
  }

  lemma {:induction false} DropConnectingKeeps(s: State)
    requires s.running
    requires Inv(s.(shutdown := false))
    ensures var r := DropConnecting(s);
      && Inv(r.(shutdown := false))
      && r == s.(connecting := map[], trace := r.trace)
    decreases |s.connecting|
  {
    if s.connecting != map[] {
      var id := Least(s.connecting.Keys);
      var c := s.connecting[id];
      var s0 := s.(shutdown := false);
      assert IdOk(s0, id);
      var cb := Failed(id, c.From(), OnConnectionFailure(Original(c.target), Original(c.target), false, false));
      RemoveTrying(s0, id, cb);
      DropConnectingKeeps(Log(s, cb).(connecting := s.connecting - {id}));
    }
  }

  /** After a shutdown nothing is left and every counter is back at zero. */
  lemma ShutdownIntKeeps(s: State)
    requires Inv(s) && s.running && !s.shutdown
    ensures var r := ShutdownInt(s);
      && Inv(r) && r.shutdown && r.running
      && r.connected == map[] && r.connecting == map[] && r.resolves == map[] && r.binds == {}
      && r.outgoing == 0 && r.incoming == 0
      && r.placed == s.placed && r.limit == s.limit
  {
    var s1 := s.(connected := map[], binds := {}, shutdown := true);
    BindsChangeKeeps(s, {});
    assert Draining(s1, s.connected) == s.(binds := {});
    DropConnectedKeeps(s1, s.connected);
    var r1 := DropConnected(s1, s.connected);
    assert Draining(r1, map[]) == r1.(shutdown := false);
    DropConnectingKeeps(r1);
    var r2 := DropConnecting(r1);
    ResolvesChangeKeeps(r2.(shutdown := false), map[]);
    var r := ShutdownInt(s);
    assert r == r2.(resolves := map[]);
    forall i ensures IdOk(r, i) {
      assert IdOk(r.(shutdown := false), i);
    }
    assert OutgoingKeys(map[]) == {} && IncomingKeys(map[]) == {};
  }

  lemma FinishShutdownKeeps(s: State)
    requires Inv(s) && s.running && s.shutdown
    ensures Inv(FinishShutdown(s))
  {
    var r := FinishShutdown(s);
    ExtendCounts(s.trace, OnShutdown);
    forall i ensures IdOk(r, i) {
      assert IdOk(s, i);
      Extend(s.trace, OnShutdown, i);
    }
  }

  /** The asserts at the head of Start hold: counters and maps are empty. */
  lemma StartKeeps(s: State, limit: int)
    requires Inv(s) && !s.running
    ensures Inv(Start(s, limit))
    ensures s.outgoing == 0 && s.incoming == 0
  {
    var r := Start(s, limit);
    ExtendCounts(s.trace, OnStartup);
    assert OutgoingKeys(s.connected) == {} && IncomingKeys(s.connected) == {};
    forall i ensures IdOk(r, i) {
      assert IdOk(s, i);
      Extend(s.trace, OnStartup, i);
    }
  }

  // ----- steps -----

  lemma ObjectOk(s: State, key: int)
    requires Inv(s)
    ensures IdOk(s, key)
  {
  }

  /** One step of the event loop. The object acts under the id it carries; that
      the handler finds it under that id is what the invariant is for. An event
      that is not armed does nothing. */
  ghost function Step(s: State, e: Event): State
    requires Inv(s)
  {
    if !Enabled(s, e) then s
    else
      match e
      case Startup(limit) => Start(s, limit)
      case Request(candidates) => RequestOutgoing(s, candidates)
      case ConnectDone(key, ok, answer) =>
        ObjectOk(s, key);
        if ok then ConnectSuccess(s, s.connecting[key], answer) else ConnectFailure(s, s.connecting[key], answer)
      case ProxyDone(key, ok, answer) =>
        ObjectOk(s, key);
        if ok then ProxySuccess(s, s.connecting[key], answer) else ProxyFailure(s, s.connecting[key], answer)
      case ResolveDone(key, response, answer) =>
        ObjectOk(s, key);
        DnsResolveSuccess(s, s.connecting[key], response, answer)
      case ResolveFailed(key, answer) =>
        ObjectOk(s, key);
        DnsResolveFailure(s, s.connecting[key], answer)
      case ReconnectTimer(key, answer) =>
        ObjectOk(s, key);
        Connect(s, s.connecting[key], answer)
      case LookupDone(key, results) =>
        ObjectOk(s, key);
        LookupComplete(s, s.resolves[key], results)
      case LookupFailed(key, answer) =>
        ObjectOk(s, key);
        LookupFailure(s, s.resolves[key], answer)
      case LookupAgain(key, answer) =>
        ObjectOk(s, key);
        LookupResolve(s, s.resolves[key], answer)
      case Accepted(bind, answer) => AcceptIncoming(s, bind, answer)
      case ReadMessages(key, some, malformed, answer) =>
        ObjectOk(s, key);
        ReadMessagesCb(s, s.connected[key], some, malformed, answer)
      case DataNotice(key, notice) =>
        ObjectOk(s, key);
        Log(s, Of(s.connected[key].id, notice))
      case Disconnect(key, answer) =>
        ObjectOk(s, key);
        DisconnectInt(s, s.connected[key], answer)
      case Bind(_, ok) => BindListener(s, ok)
      case ListenFailed(key) => ListenFailure(s, key)
      case ShutdownRequest => ShutdownInt(s)
      case PumpEnd => FinishShutdown(s)
  }

  /** The events of connection objects that are still trying. */
  lemma TryingStepKeeps(s: State, e: Event)
    requires Inv(s) && Enabled(s, e)
    requires e.IsTrying()
    ensures Inv(Step(s, e))
  {
    ObjectOk(s, e.key);
    var c := s.connecting[e.key];
    match e
    case ConnectDone(key, ok, answer) => ConnectDoneKeeps(s, c, answer);
    case ReconnectTimer(key, answer) => ConnectKeeps(s, c, answer);
    case ResolveDone(key, response, answer) =>
      ConnectResolvedKeeps(s, c.(resolved := response, iter := At(0)), answer);
    case ResolveFailed(key, answer) =>
      var (left, retry) := Spend(c.retries);
      FailConnectionKeeps(s, c.(retries := left), RESOLVE, Original(c.target), retry, answer);
    case ProxyDone(key, ok, answer) =>
      var (left, retry) := Spend(c.retries);
      OutgoingConnectedKeeps(s, c, answer);
      FailConnectionKeeps(s, c.(retries := left), CONNECT, Original(c.target), retry, answer);
  }

  lemma StepKeeps(s: State, e: Event)
    requires Inv(s)
    ensures Inv(Step(s, e))
  {
    if Enabled(s, e) {
      match e
      case Startup(limit) => StartKeeps(s, limit);
      case Request(candidates) => RequestOutgoingKeeps(s, candidates);
      case ShutdownRequest => ShutdownIntKeeps(s);
      case PumpEnd => FinishShutdownKeeps(s);
      case Bind(_, ok) => BindListenerKeeps(s, ok);
      case ListenFailed(key) => ListenFailureKeeps(s, key);
      case Accepted(bind, answer) => AcceptIncomingKeeps(s, bind, answer);
      case LookupDone(key, results) =>
        ObjectOk(s, key);
        LookupCompleteKeeps(s, s.resolves[key], results);
      case LookupFailed(key, answer) =>
        ObjectOk(s, key);
        LookupFailureKeeps(s, s.resolves[key], answer);
      case LookupAgain(key, answer) =>
        ObjectOk(s, key);
        LookupResolveKeeps(s, s.resolves[key], answer);
      case ReadMessages(key, some, malformed, answer) =>
        ObjectOk(s, key);
        ReadMessagesKeeps(s, s.connected[key], some, malformed, answer);
      case DataNotice(key, notice) =>
        ObjectOk(s, key);
        DataKeeps(s, key, Of(key, notice));
      case Disconnect(key, answer) =>
        ObjectOk(s, key);
        DisconnectIntKeeps(s, s, s.connected[key], answer);
      case _ => TryingStepKeeps(s, e);
    }
  }

  // ----- runs -----

  lemma BootOk()
    ensures Inv(BOOT)
  {
    assert OutgoingKeys(map[]) == {} && IncomingKeys(map[]) == {};
    forall i ensures IdOk(BOOT, i) {}
  }

  ghost function Run(s: State, events: seq<Event>): (r: State)
    requires Inv(s)
    ensures Inv(r)
    decreases |events|
  {
    if events == [] then s
    else
      StepKeeps(s, events[0]);
      Run(Step(s, events[0]), events[1..])
  }

  lemma RunOne(s: State, e: Event)
    requires Inv(s)
    ensures Run(s, [e]) == Step(s, e)
  {
    StepKeeps(s, e);
    assert [e][1..] == [];
  }

  lemma RunTwo(s: State, e: Event, f: Event)
    requires Inv(s) && Inv(Step(s, e))
    ensures Run(s, [e, f]) == Step(Step(s, e), f)
  {
    RunOne(Step(s, e), f);
    assert [e, f][1..] == [f];
  }

  lemma {:induction false} RunConcat(s: State, first: seq<Event>, rest: seq<Event>)
    requires Inv(s)
    ensures Run(s, first + rest) == Run(Run(s, first), rest)
    decreases |first|
  {
    if first == [] {
      assert first + rest == rest;
    } else {
      StepKeeps(s, first[0]);
      assert (first + rest)[0] == first[0] && (first + rest)[1..] == first[1..] + rest;
      RunConcat(Step(s, first[0]), first[1..], rest);
    }
  }
}
