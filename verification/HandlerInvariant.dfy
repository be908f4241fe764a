/** The invariant of the handler at every event boundary, and the proof that
    each operation keeps it. */
module HandlerInvariant {
  import opened Connections
  import opened Protocol
  import opened HandlerModel
  import opened Maps

  ghost function OutgoingKeys(m: map<int, Conn>): set<int> {
    set id | id in m && m[id].IsOutgoing()
  }

  ghost function IncomingKeys(m: map<int, Conn>): set<int> {
    set id | id in m && !m[id].IsOutgoing()
  }

  /** A key belongs to one map only, was issued, and is the id its object carries. */
  ghost predicate KeyOk(s: State, id: int) {
    && (id in s.connecting ==> id !in s.connected && id !in s.resolves && id !in s.binds && id in s.placed)
    && (id in s.connected ==> id !in s.resolves && id !in s.binds)
    && (id in s.resolves ==> id !in s.binds)
    && (id in s.connected || id in s.resolves || id in s.binds || id in s.placed ==> 0 <= id < s.issued)
    && (id in s.connecting ==> s.connecting[id].id == id && s.connecting[id].TryingOk())
    && (id in s.connected ==> s.connected[id].id == id && s.connected[id].UpOk())
    && (id in s.resolves ==> s.resolves[id].id == id && s.resolves[id].MadeOk())
  }

  ghost predicate PhaseOk(s: State, id: int) {
    var p := PhaseOf(s.trace, id);
    if id in s.connected then p == Open
    else if id in s.connecting || !(0 <= id < s.issued) then p == Fresh
    else p == Fresh || p == Closed
  }

  ghost predicate TerminalOk(s: State, id: int) {
    Terminals(s.trace, id) == if id in s.placed && id !in s.connecting then 1 else 0
  }

  ghost predicate IdOk(s: State, id: int) {
    KeyOk(s, id) && PhaseOk(s, id) && TerminalOk(s, id)
  }

  /** The allocator has not wrapped: the next id is the number of ids issued. */
  ghost predicate AllocatorOk(s: State) {
    && s.issued <= ID_SPAN
    && s.index == if s.issued < ID_SPAN then s.issued else 0
  }

  /** The hand-kept counters are the numbers of outgoing and incoming connections. */
  ghost predicate CountsOk(s: State) {
    && s.outgoing == |OutgoingKeys(s.connected)|
    && s.incoming == |IncomingKeys(s.connected)|
  }

  /** There is room for n more outgoing connections. A negative limit is none. */
  predicate Room(s: State, n: int) {
    s.limit >= 0 ==> s.outgoing + |s.connecting| + n <= s.limit
  }

  ghost predicate RunOk(s: State) {
    && Room(s, 0)
    && (!s.running || s.shutdown ==> s.connected == map[] && s.connecting == map[] && s.resolves == map[] && s.binds == {})
  }

  ghost predicate TotalsOk(s: State) {
    && Accepts(s.trace) == Disconnects(s.trace) + |s.connected|
    && LifeOf(s.trace) == if s.running then Running else Down
  }

  ghost predicate Inv(s: State) {
    && (forall id :: IdOk(s, id))
    && AllocatorOk(s) && CountsOk(s) && RunOk(s) && TotalsOk(s)
  }

  // ----- counting -----

  lemma KeysAdd(m: map<int, Conn>, id: int, c: Conn)
    requires id !in m
    ensures OutgoingKeys(m[id := c]) == if c.IsOutgoing() then OutgoingKeys(m) + {id} else OutgoingKeys(m)
    ensures IncomingKeys(m[id := c]) == if c.IsOutgoing() then IncomingKeys(m) else IncomingKeys(m) + {id}
  {
  }

  lemma CountAdd(m: map<int, Conn>, id: int, c: Conn)
    requires id !in m
    ensures |OutgoingKeys(m[id := c])| == |OutgoingKeys(m)| + if c.IsOutgoing() then 1 else 0
    ensures |IncomingKeys(m[id := c])| == |IncomingKeys(m)| + if c.IsOutgoing() then 0 else 1
    ensures |m[id := c]| == |m| + 1
  {
    KeysAdd(m, id, c);
    assert id !in OutgoingKeys(m) && id !in IncomingKeys(m);
  }

  lemma CountRemove(m: map<int, Conn>, id: int)
    requires id in m
    ensures |OutgoingKeys(m - {id})| == |OutgoingKeys(m)| - if m[id].IsOutgoing() then 1 else 0
    ensures |IncomingKeys(m - {id})| == |IncomingKeys(m)| - if m[id].IsOutgoing() then 0 else 1
    ensures |m - {id}| == |m| - 1
  {
    CountAdd(m - {id}, id, m[id]);
    assert (m - {id})[id := m[id]] == m;
  }

  // ----- operations -----

  /** The connecting map is changed and at most one call is logged. */
  ghost predicate Quiet(cb: Callback) {
    !cb.Of? && !cb.Failed? && !cb.OnStartup? && !cb.OnShutdown?
  }

  /** Logging a call that names no id and ends no attempt. */
  lemma LogQuiet(s: State, cb: Callback)
    requires Inv(s) && s.running && Quiet(cb)
    ensures Inv(Log(s, cb))
  {
    ExtendCounts(s.trace, cb);
    forall id ensures IdOk(Log(s, cb), id) {
      assert IdOk(s, id);
      Extend(s.trace, cb, id);
    }
  }

  lemma PlaceFreshId(s: State, c: Conn, i: int)
    requires s.issued < ID_SPAN && c.id == s.issued && c.TryingOk() && AllocatorOk(s)
    requires IdOk(s, c.id) && IdOk(s, i)
    ensures IdOk(Place(GetNextConnectionIndex(s).0, c), i)
  {
  }

  /** An outgoing connection object enters the connecting map under a fresh id. */
  lemma PlaceFresh(s: State, c: Conn)
    requires Inv(s) && s.running && !s.shutdown
    requires s.issued < ID_SPAN && c.id == s.issued
    requires c.TryingOk()
    requires Room(s, 1)
    ensures Inv(Place(GetNextConnectionIndex(s).0, c))
  {
    var r := Place(GetNextConnectionIndex(s).0, c);
    assert IdOk(s, c.id);
    forall i ensures IdOk(r, i) {
      assert IdOk(s, i);
      PlaceFreshId(s, c, i);
    }
    assert RunOk(r) by {
      assert |r.connecting| == |s.connecting| + 1;
    }
  }

  /** A connection object that left the maps comes back under a fresh id. */
  lemma RequeueKeeps(s: State, c: Conn)
    requires Inv(s) && s.running && !s.shutdown
    requires s.issued < ID_SPAN
    requires Room(s, 1)
    requires c.(stage := Waiting).TryingOk()
    ensures Inv(Requeue(s, c))
    ensures Requeue(s, c).connecting == s.connecting[s.issued := c.(id := s.issued, stage := Waiting)]
    ensures Requeue(s, c).issued == s.issued + 1
  {
    PlaceFresh(s, c.(id := s.issued, stage := Waiting));
  }

  /** The call that ends an attempt counts once, and closes the id only if it was offered. */
  lemma TerminalTrace(t: seq<Callback>, id: int, cb: Callback, i: int)
    requires (cb.Failed? && cb.attempt == id) || cb == Of(id, OnOutgoingConnection(false))
    requires PhaseOf(t, i) in {Fresh, Open, Closed} && (i == id ==> PhaseOf(t, i) == Fresh)
    ensures PhaseOf(t + [cb], i) == if i == id && cb.Of? then Closed else PhaseOf(t, i)
    ensures Terminals(t + [cb], i) == Terminals(t, i) + if i == id then 1 else 0
  {
    Extend(t, cb, i);
  }

  lemma RemoveTryingId(s: State, id: int, cb: Callback, i: int)
    requires id in s.connecting
    requires (cb.Failed? && cb.attempt == id) || cb == Of(id, OnOutgoingConnection(false))
    requires IdOk(s, id) && IdOk(s, i)
    ensures IdOk(Log(s.(connecting := s.connecting - {id}), cb), i)
  {
    TerminalTrace(s.trace, id, cb, i);
  }

  lemma RemoveTrying(s: State, id: int, cb: Callback)
    requires Inv(s) && s.running && !s.shutdown
    requires id in s.connecting
    requires (cb.Failed? && cb.attempt == id) || cb == Of(id, OnOutgoingConnection(false))
    ensures Inv(Log(s.(connecting := s.connecting - {id}), cb))
    ensures |s.connecting - {id}| == |s.connecting| - 1
  {
    var r := Log(s.(connecting := s.connecting - {id}), cb);
    assert IdOk(s, id);
    forall i ensures IdOk(r, i) {
      assert IdOk(s, i);
      RemoveTryingId(s, id, cb, i);
    }
    CountRemove(s.connecting, id);
    ExtendCounts(s.trace, cb);
  }

  lemma FailConnectionKeeps(s: State, c: Conn, t: FailureType, failed: Endpoint, mayRetry: bool, answer: bool)
    requires Inv(s) && s.running && !s.shutdown
    requires s.issued < ID_SPAN
    requires c.id in s.connecting
    requires c.(stage := Waiting).TryingOk()
    ensures Inv(FailConnection(s, c, t, failed, mayRetry, answer))
  {
    var cb := Failed(c.id, c.From(), FailureReport(t, failed, mayRetry, answer));
    RemoveTrying(s, c.id, cb);
    if mayRetry && answer {
      RequeueKeeps(Log(s.(connecting := s.connecting - {c.id}), cb), c);
    }
  }

  /** r is the state after c left the connected map and OnDisconnected was
      logged; the trace before it may end in a malformed-message report. */
  ghost predicate LeftConnected(s0: State, s: State, c: Conn, cb: Callback, r: State) {
    && s0.running && !s0.shutdown
    && (s == s0 || s == Log(s0, Of(c.id, OnMalformedMessage)))
    && c.id in s0.connected && s0.connected[c.id] == c
    && cb.IsDisconnect() && cb.id == c.id
    && r == Log(s.(connected := s.connected - {c.id},
                   outgoing := s.outgoing - if c.IsOutgoing() then 1 else 0,
                   incoming := s.incoming - if c.IsOutgoing() then 0 else 1), cb)
  }

  /** A disconnection closes its id, with or without a malformed report before
      it, and leaves every other id where it was. */
  lemma DisconnectTrace(t0: seq<Callback>, t: seq<Callback>, id: int, cb: Callback, i: int)
    requires t == t0 || t == t0 + [Of(id, OnMalformedMessage)]
    requires cb.IsDisconnect() && cb.id == id
    requires PhaseOf(t0, i) in {Fresh, Open, Closed} && (i == id ==> PhaseOf(t0, i) == Open)
    ensures PhaseOf(t + [cb], i) == if i == id then Closed else PhaseOf(t0, i)
    ensures Terminals(t + [cb], i) == Terminals(t0, i)
  {
    Extend(t0, Of(id, OnMalformedMessage), i);
    Extend(t, cb, i);
  }

  lemma DisconnectTotals(t0: seq<Callback>, t: seq<Callback>, id: int, cb: Callback)
    requires t == t0 || t == t0 + [Of(id, OnMalformedMessage)]
    requires cb.IsDisconnect()
    requires LifeOf(t0) == Running
    ensures Accepts(t + [cb]) == Accepts(t0) && Disconnects(t + [cb]) == Disconnects(t0) + 1
    ensures LifeOf(t + [cb]) == Running
  {
    ExtendCounts(t0, Of(id, OnMalformedMessage));
    ExtendCounts(t, cb);
  }

  lemma LeftConnectedId(s0: State, s: State, c: Conn, cb: Callback, r: State, i: int)
    requires LeftConnected(s0, s, c, cb, r)
    requires IdOk(s0, i) && IdOk(s0, c.id)
    ensures IdOk(r, i)
  {
    DisconnectTrace(s0.trace, s.trace, c.id, cb, i);
  }

  lemma LeftConnectedKeeps(s0: State, s: State, c: Conn, cb: Callback, r: State)
    requires LeftConnected(s0, s, c, cb, r)
    requires Inv(s0)
    ensures Inv(r)
    ensures c.IsOutgoing() ==> Room(r, 1)
  {
    assert IdOk(s0, c.id);
    forall i ensures IdOk(r, i) {
      assert IdOk(s0, i);
      LeftConnectedId(s0, s, c, cb, r, i);
    }
    CountRemove(s0.connected, c.id);
    DisconnectTotals(s0.trace, s.trace, c.id, cb);
  }

  lemma DisconnectIntKeeps(s0: State, s: State, c: Conn, answer: bool)
    requires Inv(s0) && s0.running && !s0.shutdown
    requires s == s0 || s == Log(s0, Of(c.id, OnMalformedMessage))
    requires s.issued < ID_SPAN
    requires c.id in s.connected && s.connected[c.id] == c
    ensures Inv(DisconnectInt(s, c, answer))
  {
    assert IdOk(s0, c.id);
    var reconnect := c.target.persistent && c.IsOutgoing();
    var cb := Of(c.id, OnDisconnected(reconnect, answer));
    var r := Log(s.(connected := s.connected - {c.id},
                    outgoing := s.outgoing - if c.IsOutgoing() then 1 else 0,
                    incoming := s.incoming - if c.IsOutgoing() then 0 else 1), cb);
    LeftConnectedKeeps(s0, s, c, cb, r);
    assert DisconnectInt(s, c, answer) == if reconnect && answer then Requeue(r, c) else r;
    if reconnect && answer {
      RequeueKeeps(r, c);
    }
  }

  lemma OutgoingConnectedId(s: State, c: Conn, i: int)
    requires s.running && !s.shutdown
    requires c.id in s.connecting
    requires c.IsOutgoing() && c.(stage := Up).UpOk()
    requires IdOk(s, i) && IdOk(s, c.id)
    ensures IdOk(OutgoingConnected(s, c, true), i)
  {
    var cb := Of(c.id, OnOutgoingConnection(true));
    Extend(s.trace, cb, i);
    Extend(s.trace + [cb], Of(c.id, OnReadyForFirstSend), i);
  }

  lemma OutgoingConnectedTotals(s: State, c: Conn)
    requires s.running && !s.shutdown
    requires c.id in s.connecting && c.id !in s.connected
    requires c.IsOutgoing()
    requires CountsOk(s) && RunOk(s) && TotalsOk(s)
    ensures var r := OutgoingConnected(s, c, true); CountsOk(r) && RunOk(r) && TotalsOk(r)
  {
    var cb := Of(c.id, OnOutgoingConnection(true));
    CountRemove(s.connecting, c.id);
    CountAdd(s.connected, c.id, c.(stage := Up));
    ExtendCounts(s.trace, cb);
    ExtendCounts(s.trace + [cb], Of(c.id, OnReadyForFirstSend));
  }

  lemma OutgoingConnectedKeeps(s: State, c: Conn, answer: bool)
    requires Inv(s) && s.running && !s.shutdown
    requires c.id in s.connecting
    requires c.IsOutgoing() && c.(stage := Up).UpOk()
    ensures Inv(OutgoingConnected(s, c, answer))
  {
    if !answer {
      RemoveTrying(s, c.id, Of(c.id, OnOutgoingConnection(answer)));
    } else {
      var r := OutgoingConnected(s, c, answer);
      assert IdOk(s, c.id);
      forall i ensures IdOk(r, i) {
        assert IdOk(s, i);
        OutgoingConnectedId(s, c, i);
      }
      OutgoingConnectedTotals(s, c);
    }
  }

  /** The state after an incoming connection was offered, whatever the answer. */
  lemma AcceptIncomingForm(s: State, bind: Target, answer: bool)
    requires s.issued < ID_SPAN && AllocatorOk(s) && s.issued !in s.connecting
    ensures var id := s.issued; var c := NewConn(id, Incoming, bind).(stage := Up);
      AcceptIncoming(s, bind, answer) ==
      Log(s.(index := GetNextConnectionIndex(s).0.index, issued := s.issued + 1,
             connected := if answer then s.connected[id := c] else s.connected,
             incoming := s.incoming + if answer then 1 else 0),
          Of(id, OnIncomingConnection(answer)))
  {
    PutThenRemove(s.connecting, s.issued, NewConn(s.issued, Incoming, bind));
  }

  lemma OfferedKeeps(s: State, r: State, c: Conn, answer: bool)
    requires Inv(s) && s.running && !s.shutdown
    requires s.issued < ID_SPAN && IdOk(s, c.id) && c.id == s.issued
    requires c.UpOk() && !c.IsOutgoing()
    requires r == s.(index := GetNextConnectionIndex(s).0.index, issued := s.issued + 1,
                     connected := if answer then s.connected[c.id := c] else s.connected,
                     incoming := s.incoming + if answer then 1 else 0)
    ensures Inv(Log(r, Of(c.id, OnIncomingConnection(answer))))
  {
    var cb := Of(c.id, OnIncomingConnection(answer));
    ExtendCounts(s.trace, cb);
    CountAdd(s.connected, c.id, c);
    forall i ensures IdOk(Log(r, cb), i) {
      assert IdOk(s, i);
      Extend(s.trace, cb, i);
    }
  }

  lemma AcceptIncomingKeeps(s: State, bind: Target, answer: bool)
    requires Inv(s) && s.running && !s.shutdown
    requires s.issued < ID_SPAN
    ensures Inv(AcceptIncoming(s, bind, answer))
  {
    var id := s.issued;
    assert IdOk(s, id);
    AcceptIncomingForm(s, bind, answer);
    var c := NewConn(id, Incoming, bind).(stage := Up);
    var r := s.(index := GetNextConnectionIndex(s).0.index, issued := s.issued + 1,
                connected := if answer then s.connected[id := c] else s.connected,
                incoming := s.incoming + if answer then 1 else 0);
    OfferedKeeps(s, r, c, answer);
  }

  /** Storing back a connection object that is still trying. */
  lemma UpdateKeeps(s: State, c: Conn)
    requires Inv(s) && c.id in s.connecting && c.TryingOk()
    ensures Inv(Update(s, c))
  {
    var r := Update(s, c);
    assert r.connecting.Keys == s.connecting.Keys;
    assert |r.connecting| == |s.connecting|;
    forall i ensures IdOk(r, i) {
      assert IdOk(s, i);
    }
  }

  lemma ConnectResolvedKeeps(s: State, c: Conn, answer: bool)
    requires Inv(s) && s.running && !s.shutdown
    requires s.issued < ID_SPAN
    requires c.id in s.connecting && c.kind == Dns
    requires c.WalkOk() && c.iter != End && c.MadeOk()
    ensures Inv(ConnectResolved(s, c, answer))
    ensures Inv(DnsConnectFailure(s, c, answer))
  {
    var next := Advance(c);
    FailConnectionKeeps(s, next, CONNECT, Resolved(c.resolved[c.iter.pos]), next.iter != End || next.retries != 0, answer);
    if SockAllowed(c.resolved[c.iter.pos].sock, c.target.family) {
      UpdateKeeps(s, c.(stage := Connecting));
    }
  }

  lemma ConnectKeeps(s: State, c: Conn, answer: bool)
    requires Inv(s) && s.running && !s.shutdown
    requires s.issued < ID_SPAN
    requires c.id in s.connecting && c.stage == Waiting && c.TryingOk()
    ensures Inv(Connect(s, c, answer))
  {
    if c.kind == Dns && c.iter != End {
      ConnectResolvedKeeps(s, c, answer);
    } else if c.kind == Dns {
      if c.target.CanResolve() {
        UpdateKeeps(s, c.(stage := Resolving));
      }
      var (left, retry) := Spend(c.retries);
      FailConnectionKeeps(s, c.(retries := left), RESOLVE, Original(c.target), retry, answer);
    } else if c.From().Eligible() {
      UpdateKeeps(s, c.(stage := Connecting));
    } else {
      FailConnectionKeeps(s, c, if c.kind == Direct then CONNECT else PROXY, Original(c.target), false, answer);
    }
  }

  lemma ConnectDoneKeeps(s: State, c: Conn, answer: bool)
    requires Inv(s) && s.running && !s.shutdown
    requires s.issued < ID_SPAN
    requires c.id in s.connecting && c.stage == Connecting && c.TryingOk()
    ensures Inv(ConnectSuccess(s, c, answer))
    ensures Inv(ConnectFailure(s, c, answer))
  {
    var (left, retry) := Spend(c.retries);
    match c.kind
    case Direct =>
      OutgoingConnectedKeeps(s, c.(retries := c.target.nRetries), answer);
      FailConnectionKeeps(s, c.(retries := left), CONNECT, Original(c.target), retry, answer);
    case Proxied =>
      UpdateKeeps(s, c.(stage := Handshaking));
      FailConnectionKeeps(s, c.(retries := left), PROXY, Original(c.target), retry, answer);
    case Dns =>
      OutgoingConnectedKeeps(s, c.(resolved := [], iter := End, retries := c.target.nRetries), answer);
      ConnectResolvedKeeps(s, c, answer);
  }

  lemma ResolvesChangeKeeps(s: State, resolves: map<int, Lookup>)
    requires Inv(s) && s.running && !s.shutdown
    requires forall id :: id in resolves && id !in s.resolves ==>
      0 <= id < s.issued && id !in s.connected && id !in s.connecting && id !in s.binds
    requires forall id :: id in resolves ==> resolves[id].id == id && resolves[id].MadeOk()
    ensures Inv(s.(resolves := resolves))
  {
    var r := s.(resolves := resolves);
    forall i ensures IdOk(r, i) {
      assert IdOk(s, i);
    }
  }

  lemma LookupFailureKeeps(s: State, l: Lookup, answer: bool)
    requires Inv(s) && s.running && !s.shutdown
    requires l.id in s.resolves && l.MadeOk()
    ensures Inv(LookupFailure(s, l, answer))
  {
    var (left, mayRetry) := Spend(l.retries);
    var cb := OnLookupFailure(l.target, mayRetry, answer);
    LogQuiet(s, cb);
    var s1 := Log(s, cb);
    forall i | i in s.resolves ensures s.resolves[i].id == i && s.resolves[i].MadeOk() { assert IdOk(s, i); }
    ResolvesChangeKeeps(s1, s1.resolves[l.id := l.(retries := left, stage := Queued)]);
    ResolvesChangeKeeps(s1, s1.resolves - {l.id});
  }

  lemma LookupResolveKeeps(s: State, l: Lookup, answer: bool)
    requires Inv(s) && s.running && !s.shutdown
    requires l.id in s.resolves && l.MadeOk()
    ensures Inv(LookupResolve(s, l, answer))
  {
    forall i | i in s.resolves ensures s.resolves[i].id == i && s.resolves[i].MadeOk() { assert IdOk(s, i); }
    if l.target.CanResolve() {
      ResolvesChangeKeeps(s, s.resolves[l.id := l.(stage := Querying)]);
    }
    LookupFailureKeeps(s, l, answer);
  }

  lemma LookupCompleteKeeps(s: State, l: Lookup, results: seq<Addr>)
    requires Inv(s) && s.running && !s.shutdown
    requires l.id in s.resolves
    ensures Inv(LookupComplete(s, l, results))
  {
    var cb := OnDnsResponse(l.target, results);
    LogQuiet(s, cb);
    forall i | i in s.resolves ensures s.resolves[i].id == i && s.resolves[i].MadeOk() { assert IdOk(s, i); }
    ResolvesChangeKeeps(Log(s, cb), s.resolves - {l.id});
  }

  lemma AllocateKeeps(s: State)
    requires Inv(s) && s.issued < ID_SPAN
    ensures var (s1, id) := GetNextConnectionIndex(s);
      && Inv(s1) && id == s.issued && s1.issued == s.issued + 1
      && s1 == s.(index := s1.index, issued := s1.issued)
  {
    var (s1, id) := GetNextConnectionIndex(s);
    forall i ensures IdOk(s1, i) {
      assert IdOk(s, i);
    }
  }

  lemma BindsChangeKeeps(s: State, binds: set<int>)
    requires Inv(s) && s.running && !s.shutdown
    requires forall id :: id in binds && id !in s.binds ==>
      0 <= id < s.issued && id !in s.connected && id !in s.connecting && id !in s.resolves
    ensures Inv(s.(binds := binds))
  {
    var r := s.(binds := binds);
    forall i ensures IdOk(r, i) {
      assert IdOk(s, i);
    }
  }

  lemma ListenFailureKeeps(s: State, id: int)
    requires Inv(s) && s.running && !s.shutdown
    ensures Inv(ListenFailure(s, id))
  {
    LogQuiet(s, OnBindFailure);
    BindsChangeKeeps(Log(s, OnBindFailure), s.binds - {id});
  }

  lemma BindListenerKeeps(s: State, ok: bool)
    requires Inv(s) && s.running && !s.shutdown
    requires s.issued < ID_SPAN
    ensures Inv(BindListener(s, ok))
  {
    AllocateKeeps(s);
    var (s1, id) := GetNextConnectionIndex(s);
    assert IdOk(s, id);
    if ok {
      BindsChangeKeeps(s1, s1.binds + {id});
    } else {
      ListenFailureKeeps(s1, id);
    }
  }

  /** Calls about data on an established connection. */
  lemma DataKeeps(s: State, id: int, cb: Callback)
    requires Inv(s) && s.running
    requires id in s.connected && cb.Of? && cb.call.IsData() && cb.id == id
    ensures Inv(Log(s, cb))
  {
    ExtendCounts(s.trace, cb);
    forall i ensures IdOk(Log(s, cb), i) {
      assert IdOk(s, i) && IdOk(s, id);
      Extend(s.trace, cb, i);
    }
  }

  lemma ReadMessagesKeeps(s: State, c: Conn, some: bool, malformed: bool, answer: bool)
    requires Inv(s) && s.running && !s.shutdown
    requires malformed ==> s.issued < ID_SPAN
    requires c.id in s.connected && s.connected[c.id] == c
    ensures Inv(ReadMessagesCb(s, c, some, malformed, answer))
  {
    DataKeeps(s, c.id, Of(c.id, OnReceiveMessages));
    var s1 := if some then Log(s, Of(c.id, OnReceiveMessages)) else s;
    if malformed {
      DisconnectIntKeeps(s1, Log(s1, Of(c.id, OnMalformedMessage)), c, answer);
    }
  }
}
