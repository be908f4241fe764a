/** What the handler promises for what it was asked: the limit it was started with,
    the kind of connection a target asks for, and the addresses that are allowed. */
module HandlerPromises {
  import opened Connections
  import opened Protocol
  import opened HandlerModel
  import opened Maps
  import opened HandlerInvariant
  import opened HandlerRuns
  import opened HandlerTheorems
  import opened HandlerEvents
  import opened HandlerReports

  // ----- the limit -----

  /** The limit of the last start that took effect: a running handler is not started. */
  ghost function LimitInForce(s: State, events: seq<Event>, limit: int): int
    requires Inv(s)
    decreases |events|
  {
    if events == [] then limit
    else
      StepKeeps(s, events[0]);
      LimitInForce(Step(s, events[0]), events[1..], if events[0].Startup? && !s.running then events[0].limit else limit)
  }

  lemma RestKeepsLimit(s: State, e: Event)
    requires Inv(s) && Enabled(s, e) && !e.Startup? && !e.IsTrying() && !e.IsServing() && !e.IsLookup()
    ensures Step(s, e).limit == s.limit
  {
    match e
    case Request(candidates) => RequestOutgoingKeeps(s, candidates);
    case Accepted(bind, answer) => AcceptedDone(s, bind, answer);
    case Bind(conn, ok) => BindDone(s, conn, ok);
    case ListenFailed(key) => ListenFailedDone(s, key);
    case ShutdownRequest => ShutdownIntKeeps(s);
    case PumpEnd => PumpEndDone(s);
  }

  lemma ServingKeepsLimit(s: State, e: Event)
    requires Inv(s) && Enabled(s, e) && e.IsServing()
    ensures Step(s, e).limit == s.limit
  {
    match e
    case ReadMessages(key, some, malformed, answer) => ReadMessagesDone(s, key, some, malformed, answer);
    case DataNotice(key, notice) => DataNoticeDone(s, key, notice);
    case Disconnect(key, answer) => DisconnectDone(s, key, answer);
  }

  lemma LookupKeepsLimit(s: State, e: Event)
    requires Inv(s) && Enabled(s, e) && e.IsLookup()
    ensures Step(s, e).limit == s.limit
  {
    match e
    case LookupDone(key, results) => LookupDoneDone(s, key, results);
    case LookupFailed(key, answer) => LookupFailedDone(s, key, answer);
    case LookupAgain(key, answer) => LookupAgainDone(s, key, answer);
  }

  lemma TryingKeepsLimit(s: State, e: Event)
    requires Inv(s) && Enabled(s, e) && e.IsTrying()
    ensures Step(s, e).limit == s.limit
  {
    match e
    case ReconnectTimer(key, answer) => TimerDone(s, key, answer);
    case ResolveDone(key, response, answer) => ResolveDoneDone(s, key, response, answer);
    case ResolveFailed(_, _) => AttemptFailed(s, e);
    case ConnectDone(key, ok, answer) =>
      if ok {
        ConnectDoneDone(s, key, answer);
      } else {
        AttemptFailed(s, e);
      }
    case ProxyDone(key, ok, answer) =>
      if ok {
        ProxyDoneDone(s, key, answer);
      } else {
        AttemptFailed(s, e);
      }
  }

  lemma StepLimit(s: State, e: Event)
    requires Inv(s)
    ensures Step(s, e).limit == if e.Startup? && !s.running then e.limit else s.limit
  {
    if Enabled(s, e) {
      if e.Startup? {
        StartupDone(s, e.limit);
      } else if e.IsTrying() {
        TryingKeepsLimit(s, e);
      } else if e.IsLookup() {
        LookupKeepsLimit(s, e);
      } else if e.IsServing() {
        ServingKeepsLimit(s, e);
      } else {
        RestKeepsLimit(s, e);
      }
    }
  }

  lemma {:induction false} RunLimit(s: State, events: seq<Event>)
    requires Inv(s)
    ensures Run(s, events).limit == LimitInForce(s, events, s.limit)
    decreases |events|
  {
    if events != [] {
      StepKeeps(s, events[0]);
      StepLimit(s, events[0]);
      RunLimit(Step(s, events[0]), events[1..]);
    }
  }

  /** Established and attempted outgoing connections stay within the limit that the
      caller gave at the last start, if that is not negative. */
  lemma SlotsOfTheCaller(events: seq<Event>)
    ensures Inv(BOOT)
    ensures var limit := LimitInForce(BOOT, events, 0); var s := Run(BOOT, events);
      s.limit == limit && (limit >= 0 ==> s.outgoing + |s.connecting| <= limit)
  {
    BootOk();
    RunLimit(BOOT, events);
    EveryRunKeepsSlots(events, []);
  }

  /** And every request for connections was made at an event before which the free slots
      within that limit were so many, or were more than eight and it asked for eight. */
  lemma EveryRequestCounts(events: seq<Event>, i: nat) returns (k: nat)
    ensures Inv(BOOT)
    ensures i < |Run(BOOT, events).trace| && Run(BOOT, events).trace[i].OnNeedOutgoingConnections? ==>
      && MadeAt(events, i, k) && events[k].Request?
      && var limit := LimitInForce(BOOT, events[..k], 0); var s := Run(BOOT, events[..k]);
      limit >= 0 ==>
        var free := limit - s.outgoing - |s.connecting|;
        Run(BOOT, events).trace[i].need == (if free < 8 then free else 8) > 0
  {
    k := EveryCallIsExact(events, i);
    if i < |Run(BOOT, events).trace| {
      RunLimit(BOOT, events[..k]);
    }
  }

  /** No event of the list starts the handler again. */
  ghost predicate NotRestarted(s: State, events: seq<Event>)
    requires Inv(s)
    decreases |events|
  {
    events == [] || (!(events[0].Startup? && !s.running) &&
                     (StepKeeps(s, events[0]); NotRestarted(Step(s, events[0]), events[1..])))
  }

  lemma {:induction false} SameLimit(s: State, events: seq<Event>, limit: int)
    requires Inv(s) && NotRestarted(s, events)
    ensures LimitInForce(s, events, limit) == limit
    decreases |events|
  {
    if events != [] {
      StepKeeps(s, events[0]);
      SameLimit(Step(s, events[0]), events[1..], limit);
    }
  }

  lemma {:induction false} LimitConcat(s: State, first: seq<Event>, rest: seq<Event>, limit: int)
    requires Inv(s)
    ensures LimitInForce(s, first + rest, limit) == LimitInForce(Run(s, first), rest, LimitInForce(s, first, limit))
    decreases |first|
  {
    if first == [] {
      assert first + rest == rest;
    } else {
      StepKeeps(s, first[0]);
      assert (first + rest)[0] == first[0] && (first + rest)[1..] == first[1..] + rest;
      LimitConcat(Step(s, first[0]), first[1..], rest, if first[0].Startup? && !s.running then first[0].limit else limit);
    }
  }

  lemma LimitOfStart(s: State, limit: int, before: int)
    requires Inv(s) && !s.running
    ensures LimitInForce(s, [Startup(limit)], before) == limit
  {
    StepKeeps(s, Startup(limit));
    assert [Startup(limit)][1..] == [];
  }

  /** So from a start on, for as long as no other one takes effect, the limit in force
      is the one it gave, and is kept if it is not negative. */
  lemma StartGivesTheLimit(before: seq<Event>, limit: int, rest: seq<Event>)
    ensures Inv(BOOT)
    ensures !Run(BOOT, before).running && NotRestarted(Run(BOOT, before + [Startup(limit)]), rest) ==>
      && LimitInForce(BOOT, before + [Startup(limit)] + rest, 0) == limit
      && var s := Run(BOOT, before + [Startup(limit)] + rest);
         s.limit == limit && (limit >= 0 ==> s.outgoing + |s.connecting| <= limit)
  {
    BootOk();
    var start := before + [Startup(limit)];
    if !Run(BOOT, before).running && NotRestarted(Run(BOOT, start), rest) {
      LimitConcat(BOOT, before, [Startup(limit)], 0);
      LimitOfStart(Run(BOOT, before), limit, LimitInForce(BOOT, before, 0));
      LimitConcat(BOOT, start, rest, 0);
      SameLimit(Run(BOOT, start), rest, limit);
      SlotsOfTheCaller(start + rest);
    }
  }

  // ----- what a target asks for -----

  /** An outgoing object goes through a proxy exactly if one is set, and is otherwise a
      DNS one exactly if its target is a name; it was asked for by a set target that is
      not only to be looked up. */
  predicate OfItsKind(c: Conn) {
    c.kind != Incoming ==>
      && (c.kind == Proxied <==> c.target.proxySet)
      && (c.kind == Dns <==> !c.target.proxySet && c.target.isDns)
      && (c.kind == Direct <==> !c.target.proxySet && !c.target.isDns)
      && c.target.isSet && !(c.target.isDns && c.target.doResolve == ResolveOnly)
  }

  /** In every run every connection object is of the kind its target asks for, and every
      lookup is of a set name, only to be resolved, without a proxy. */
  lemma EveryObjectIsOfItsKind(events: seq<Event>, key: int)
    ensures Inv(BOOT)
    ensures var s := Run(BOOT, events);
      && (key in s.connecting ==> s.connecting[key].kind != Incoming && OfItsKind(s.connecting[key]))
      && (key in s.connected ==> OfItsKind(s.connected[key]))
      && (key in s.resolves ==>
            var t := s.resolves[key].target; t.isSet && t.isDns && t.doResolve == ResolveOnly && !t.proxySet)
  {
    BootOk();
    ObjectOk(Run(BOOT, events), key);
  }

  /** In every run what is being connected to, asked of a proxy or looked up is allowed:
      no address of a family that is not, no name or onion name directly, nothing by a
      proxy or a resolver that it may not be asked for. */
  lemma EveryAttemptIsAllowed(events: seq<Event>, key: int)
    ensures Inv(BOOT)
    ensures var s := Run(BOOT, events);
      && (Trying(s, key, Connecting) ==>
            var c := s.connecting[key];
            match c.kind
            case Incoming => false
            case Direct => DirectAllowed(c.target)
            case Proxied => ProxyAllowed(c.target)
            case Dns =>
              c.iter.At? && c.iter.pos < |c.resolved| && FamilyAllowed(c.resolved[c.iter.pos].sock, c.target.family))
      && (Trying(s, key, Handshaking) ==> ProxyAllowed(s.connecting[key].target))
      && (Trying(s, key, Resolving) ==> ResolveAllowed(s.connecting[key].target))
      && (key in s.resolves && s.resolves[key].stage == Querying ==> ResolveAllowed(s.resolves[key].target))
  {
    BootOk();
    ObjectOk(Run(BOOT, events), key);
  }

  // ----- shutdown -----

  /** The connection or attempt a call is about. */
  function About(cb: Callback): int {
    match cb
    case Failed(attempt, _, _) => attempt
    case Of(id, _) => id
    case _ => -1
  }

  /** One call for each key, in ascending order of the keys. */
  ghost predicate ToldInOrder(calls: seq<Callback>, keys: set<int>) {
    && |calls| == |keys|
    && (forall i :: 0 <= i < |calls| ==> About(calls[i]) in keys)
    && (forall i, j :: 0 <= i < j < |calls| ==> About(calls[i]) < About(calls[j]))
  }

  lemma FirstToldInOrder(cb: Callback, calls: seq<Callback>, keys: set<int>)
    requires IsLeast(About(cb), keys) && ToldInOrder(calls, keys - {About(cb)})
    ensures ToldInOrder([cb] + calls, keys)
  {
    var all := [cb] + calls;
    forall i, j | 0 <= i < j < |all| ensures About(all[i]) < About(all[j]) {
      assert all[j] == calls[j - 1];
      assert About(calls[j - 1]) in keys - {About(cb)};
    }
  }

  lemma Prepended(trace: seq<Callback>, cb: Callback, rest: seq<Callback>, keys: set<int>, others: set<int>)
    returns (calls: seq<Callback>)
    requires IsLeast(About(cb), keys) && others == keys - {About(cb)} && ToldInOrder(rest, others)
    ensures calls == [cb] + rest && trace + [cb] + rest == trace + calls && ToldInOrder(calls, keys)
  {
    calls := [cb] + rest;
    FirstToldInOrder(cb, rest, keys);
  }

  lemma {:induction false} DropConnectedTells(s: State, dropping: map<int, Conn>) returns (calls: seq<Callback>)
    ensures DropConnected(s, dropping).trace == s.trace + calls && ToldInOrder(calls, dropping.Keys)
    ensures forall i :: 0 <= i < |calls| ==> calls[i] == Of(About(calls[i]), OnDisconnected(false, false))
    ensures DropConnected(s, dropping).connecting == s.connecting
    decreases |dropping|
  {
    if dropping == map[] {
      calls := [];
    } else {
      var id := Least(dropping.Keys);
      var s1 := DropOne(s, id, dropping[id]);
      var rest := DropConnectedTells(s1, dropping - {id});
      var cb := Of(id, OnDisconnected(false, false));
      calls := Prepended(s.trace, cb, rest, dropping.Keys, (dropping - {id}).Keys);
    }
  }

  lemma {:induction false} DropConnectingTells(s: State) returns (calls: seq<Callback>)
    requires forall id :: id in s.connecting ==> s.connecting[id].kind != Incoming
    ensures DropConnecting(s).trace == s.trace + calls && ToldInOrder(calls, s.connecting.Keys)
    ensures forall i :: 0 <= i < |calls| ==> calls[i].Failed?
    decreases |s.connecting|
  {
    if s.connecting == map[] {
      calls := [];
    } else {
      var id := Least(s.connecting.Keys);
      var c := s.connecting[id];
      var s1 := DropAttempt(s, id, c);
      var rest := DropConnectingTells(s1);
      var cb := Failed(id, c.From(), OnConnectionFailure(Original(c.target), Original(c.target), false, false));
      calls := Prepended(s.trace, cb, rest, s.connecting.Keys, s1.connecting.Keys);
    }
  }

  /** A shutdown tells of every connection that it is gone and of every attempt that it
      failed: each once, the connections first, both in the order of their ids. */
  lemma ShutdownTells(s: State) returns (gone: seq<Callback>, failed: seq<Callback>)
    requires Inv(s) && Enabled(s, ShutdownRequest)
    ensures Step(s, ShutdownRequest).trace == s.trace + gone + failed
    ensures ToldInOrder(gone, s.connected.Keys) && ToldInOrder(failed, s.connecting.Keys)
    ensures forall i :: 0 <= i < |gone| ==> gone[i] == Of(About(gone[i]), OnDisconnected(false, false))
    ensures forall i :: 0 <= i < |failed| ==> failed[i].Failed?
  {
    forall id | id in s.connecting ensures s.connecting[id].kind != Incoming {
      ObjectOk(s, id);
    }
    var s1 := s.(connected := map[], binds := {}, shutdown := true);
    gone := DropConnectedTells(s1, s.connected);
    failed := DropConnectingTells(DropConnected(s1, s.connected));
  }
}
