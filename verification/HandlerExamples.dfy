/** Runs of the handler, event by event, in which something that might be expected
    of every run is not so. */
module HandlerExamples {
  import opened Connections
  import opened Protocol
  import opened HandlerModel
  import opened HandlerInvariant
  import opened HandlerRuns

  // ----- one object, asked for at the start -----

  /** A target that is started and does not fail on the spot. */
  predicate Starts(target: Target) {
    && target.isSet && !target.IsLookup()
    && if KindFor(target) == Dns then target.CanResolve() else Origin(KindFor(target), target).Eligible()
  }

  function Started(target: Target): Conn {
    var c := NewConn(0, KindFor(target), target);
    c.(stage := if c.kind == Dns then Resolving else Connecting)
  }

  /** The handler is up and has this object and no other, under the last id issued. */
  predicate Alone(s: State, c: Conn) {
    s.connecting == map[c.id := c] && s.connected == map[] && s.issued == c.id + 1 && s.running && !s.shutdown
  }

  lemma TargetIsStarted(s: State, target: Target)
    requires s == Log(Start(BOOT, 8), OnNeedOutgoingConnections(8)) && Starts(target)
    ensures Alone(StartOne(s, Candidate(target, true)), Started(target))
  {
    var s1 := GetNextConnectionIndex(s).0;
    var c := NewConn(0, KindFor(target), target);
    var s2 := Place(s1, c);
    assert StartConnection(s, target, true) == Connect(s2, c, true);
    assert Connect(s2, c, true) == Update(s2, Started(target));
  }

  lemma OneIsRequested(s: State, target: Target)
    requires s == Start(BOOT, 8) && Starts(target)
    ensures Need(s) == 8 && Chosen(s, [Candidate(target, true)]) == [Candidate(target, true)]
    ensures Alone(RequestOutgoing(s, [Candidate(target, true)]), Started(target))
  {
    var s1 := Log(s, OnNeedOutgoingConnections(8));
    TargetIsStarted(s1, target);
    assert [Candidate(target, true)][1..] == [];
    assert StartAll(s1, [Candidate(target, true)]) == StartOne(s1, Candidate(target, true));
  }

  lemma RequestIsMade(s: State, target: Target)
    requires Inv(s) && s == Start(BOOT, 8) && Starts(target)
    ensures Step(s, Request([Candidate(target, true)])) == RequestOutgoing(s, [Candidate(target, true)])
  {
    OneIsRequested(s, target);
    assert Enabled(s, Request([Candidate(target, true)]));
  }

  lemma OnlyTarget(target: Target)
    requires Starts(target)
    ensures Inv(BOOT) && Alone(Run(BOOT, [Startup(8), Request([Candidate(target, true)])]), Started(target))
  {
    BootOk();
    StartKeeps(BOOT, 8);
    assert Enabled(BOOT, Startup(8));
    RunTwo(BOOT, Startup(8), Request([Candidate(target, true)]));
    RequestIsMade(Start(BOOT, 8), target);
    OneIsRequested(Start(BOOT, 8), target);
  }

  // ----- a DNS connection whose address fails -----

  const NAME := Target("example.org", true, true, false, NoSock, false, ResolveConnect,
                       Family(true, false, false, false), 0, false)
  const ADDRESS := Addr("192.0.2.1", Inet)

  lemma AddressTried(s: State)
    requires Inv(s) && Alone(s, Started(NAME))
    ensures Step(s, ResolveDone(0, [ADDRESS], true)) ==
            Update(s, Started(NAME).(resolved := [ADDRESS], iter := At(0), stage := Connecting))
  {
    assert Enabled(s, ResolveDone(0, [ADDRESS], true));
  }

  lemma AddressFails(s: State, s1: State)
    requires Inv(s1) && Alone(s, Started(NAME))
    requires s1 == Update(s, Started(NAME).(resolved := [ADDRESS], iter := At(0), stage := Connecting))
    ensures Step(s1, ConnectDone(0, false, true)).trace ==
            s.trace + [Failed(0, Origin(Dns, NAME), OnConnectionFailure(Resolved(ADDRESS), Resolved(ADDRESS), false, true))]
  {
    assert Enabled(s1, ConnectDone(0, false, true));
  }

  /** A connection failure that names an address of the response, not the request. */
  lemma DnsNamesTheAddress(start: seq<Event>, response: Event, failure: Event)
    requires start == [Startup(8), Request([Candidate(NAME, true)])]
    requires response == ResolveDone(0, [ADDRESS], true) && failure == ConnectDone(0, false, true)
    ensures Inv(BOOT)
    ensures Run(BOOT, start + [response, failure]).trace == Run(BOOT, start).trace +
            [Failed(0, Origin(Dns, NAME), OnConnectionFailure(Resolved(ADDRESS), Resolved(ADDRESS), false, true))]
  {
    OnlyTarget(NAME);
    var s := Run(BOOT, start);
    RunConcat(BOOT, start, [response, failure]);
    StepKeeps(s, response);
    RunTwo(s, response, failure);
    AddressTried(s);
    AddressFails(s, Step(s, response));
  }

  // ----- a proxied connection that is established after a failure -----

  const PROXIED := Target("example.org", true, true, false, NoSock, true, ResolveConnect,
                          Family(true, false, false, false), 1, false)
  /** The object after its first failure. */
  const AGAIN := Conn(1, Proxied, PROXIED, 0, Waiting, [], End)

  lemma FirstAttemptFails(s: State)
    requires Inv(s) && Alone(s, Started(PROXIED))
    ensures Alone(Step(s, ConnectDone(0, false, true)), AGAIN)
  {
    assert Enabled(s, ConnectDone(0, false, true));
  }

  lemma SecondStarts(s: State)
    requires Inv(s) && Alone(s, AGAIN)
    ensures Alone(Step(s, ReconnectTimer(1, true)), AGAIN.(stage := Connecting))
  {
    assert Enabled(s, ReconnectTimer(1, true));
  }

  lemma SecondConnects(s: State)
    requires Inv(s) && Alone(s, AGAIN.(stage := Connecting))
    ensures Alone(Step(s, ConnectDone(1, true, true)), AGAIN.(stage := Handshaking))
  {
    assert Enabled(s, ConnectDone(1, true, true));
  }

  lemma SecondIsEstablished(s: State)
    requires Inv(s) && Alone(s, AGAIN.(stage := Handshaking))
    ensures Step(s, ProxyDone(1, true, true)).connected == map[1 := AGAIN.(stage := Up)]
  {
    assert Enabled(s, ProxyDone(1, true, true));
  }

  /** An established proxied connection with no retry left of a budget of one. */
  lemma EstablishedWithLess(start: seq<Event>, first: seq<Event>, second: seq<Event>)
    requires start == [Startup(8), Request([Candidate(PROXIED, true)])]
    requires first == [ConnectDone(0, false, true), ReconnectTimer(1, true)]
    requires second == [ConnectDone(1, true, true), ProxyDone(1, true, true)]
    ensures Inv(BOOT)
    ensures var s := Run(BOOT, start + first + second);
      1 in s.connected && s.connected[1].kind == Proxied &&
      s.connected[1].retries == 0 && s.connected[1].target.nRetries == 1
  {
    OnlyTarget(PROXIED);
    RunConcat(BOOT, start + first, second);
    RunConcat(BOOT, start, first);
    var s := Run(BOOT, start);
    StepKeeps(s, first[0]);
    RunTwo(s, first[0], first[1]);
    FirstAttemptFails(s);
    SecondStarts(Step(s, first[0]));
    var t := Run(BOOT, start + first);
    StepKeeps(t, second[0]);
    RunTwo(t, second[0], second[1]);
    SecondConnects(t);
    SecondIsEstablished(Step(t, second[0]));
  }
}
