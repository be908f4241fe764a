/** Retry budgets and the walk over a DNS response in any run: what becomes of a
    connection object or lookup that keeps failing, whatever else the handler does
    meanwhile. */
module HandlerBudgets {
  import opened Connections
  import opened Protocol
  import opened HandlerModel
  import opened HandlerInvariant
  import opened HandlerRuns
  import opened HandlerIndependence
  import opened HandlerFollow

  /** The budget after so many failures: a negative one is not used up. */
  function LeftOf(budget: int, made: nat): int {
    if budget < 0 then budget else budget - made
  }

  // ----- direct and proxied connections -----

  /** The attempts of the object fail, at the socket or in the proxy's handshake, and
      the interface agrees to every retry. */
  predicate AttemptsFail(f: Followed, e: Event) {
    && !e.ShutdownRequest?
    && (f.Owns(e) ==>
          match e
          case ConnectDone(key, ok, answer) =>
            (ok ==> key in f.s.connecting && f.s.connecting[key].kind == Proxied) && answer
          case ProxyDone(_, ok, answer) => !ok && answer
          case ReconnectTimer(_, answer) => answer
          case _ => false)
  }

  /** The report of a failed attempt, by the event that ended it. */
  function ReportFor(from: Origin, cause: Event, retry: bool): FailureCall {
    if from.kind == Proxied && !cause.ProxyDone? then OnProxyFailure(Original(from.target), retry, true)
    else OnConnectionFailure(Original(from.target), Original(from.target), retry, true)
  }

  predicate AttemptObject(s: State, key: int, from: Origin, left: int) {
    && key in s.connecting && s.connecting[key].From() == from
    && s.connecting[key].retries == left
    && from.kind in {Direct, Proxied} && from.Eligible()
  }

  /** r is s after the attempt of the object failed: it waits by the next id with
      one retry less, or is gone. */
  ghost predicate AttemptOver(s: State, key: int, e: Event, left: int, r: State)
    requires key in s.connecting
  {
    var from := s.connecting[key].From();
    && r.trace == s.trace + [Failed(key, from, ReportFor(from, e, left != 0))]
    && !Held(r, key)
    && if left != 0 then r.issued == s.issued + 1 && AttemptObject(r, s.issued, from, LeftOf(left, 1))
       else r.issued == s.issued && !Held(r, s.issued)
  }

  lemma AttemptIsOver(s: State, c: Conn, e: Event, next: int, r: State)
    requires Inv(s) && Inv(r) && c.id in s.connecting && s.connecting[c.id] == c && next == s.issued
    requires AttemptObject(s, c.id, c.From(), c.retries)
    requires r.trace == s.trace + [Failed(c.id, c.From(), ReportFor(c.From(), e, c.retries != 0))]
    requires SameElsewhere(s, r) && r.issued == next + (if c.retries != 0 then 1 else 0)
    requires r.connecting ==
      if c.retries != 0 then (s.connecting - {c.id})[next := c.(id := next, stage := Waiting, retries := Spend(c.retries).0)]
      else s.connecting - {c.id}
    ensures AttemptOver(s, c.id, e, c.retries, r)
  {
    ObjectOk(s, c.id);
    ObjectOk(s, next);
  }

  lemma FailureIs(s: State, c: Conn, t: FailureType, e: Event, r: State)
    requires Ready(s, 1) && c.id in s.connecting && s.connecting[c.id] == c && c.TryingOk()
    requires AttemptObject(s, c.id, c.From(), c.retries)
    requires t == if c.kind == Proxied && !e.ProxyDone? then PROXY else CONNECT
    requires r == FailConnection(s, c.(retries := Spend(c.retries).0), t, Original(c.target), c.retries != 0, true)
    ensures AttemptOver(s, c.id, e, c.retries, r)
  {
    FailAndRequeue(s, c.(retries := Spend(c.retries).0), t, Original(c.target), c.retries != 0);
    AttemptIsOver(s, c, e, s.issued, r);
  }

  /** An attempt that fails, at the socket or in the handshake. */
  lemma AttemptEnds(s: State, key: int, e: Event, from: Origin, left: int)
    requires Inv(s) && s.issued < ID_SPAN && AttemptObject(s, key, from, left)
    requires (e == ConnectDone(key, false, true) && Trying(s, key, Connecting))
          || (e == ProxyDone(key, false, true) && Trying(s, key, Handshaking))
    ensures AttemptOver(s, key, e, left, Step(s, e))
  {
    ObjectOk(s, key);
    assert Enabled(s, e);
    var c := s.connecting[key];
    FailureIs(s, c, if c.kind == Proxied && !e.ProxyDone? then PROXY else CONNECT, e, Step(s, e));
  }

  /** The timer starts the next one. */
  lemma AttemptStarts(s: State, key: int, from: Origin, left: int)
    requires Inv(s) && s.issued < ID_SPAN && AttemptObject(s, key, from, left) && Trying(s, key, Waiting)
    ensures s.connecting[key].id == key
    ensures Step(s, ReconnectTimer(key, true)) == Update(s, s.connecting[key].(stage := Connecting))
  {
    ObjectOk(s, key);
    assert Enabled(s, ReconnectTimer(key, true));
  }

  /** An event of its own leaves the object trying, or ends one attempt of it. */
  lemma AttemptEvent(f: Followed, e: Event, from: Origin, left: int)
    requires Inv(f.s) && AttemptObject(f.s, f.key, from, left) && f.Owns(e) && AttemptsFail(f, e)
    ensures var r := Step(f.s, e);
      || (r.trace == f.s.trace && r.issued == f.s.issued && AttemptObject(r, f.key, from, left))
      || AttemptOver(f.s, f.key, e, left, r)
  {
    ObjectOk(f.s, f.key);
    if Enabled(f.s, e) {
      match e
      case ConnectDone(_, ok, _) =>
        if !ok {
          AttemptEnds(f.s, f.key, e, from, left);
        }
      case ProxyDone(_, _, _) => AttemptEnds(f.s, f.key, e, from, left);
      case ReconnectTimer(_, _) => AttemptStarts(f.s, f.key, from, left);
    }
  }

  // ----- followed -----

  /** Every call made for the object reports its attempt, where it failed, and offers
      a retry unless the budget was used up by the attempts before. */
  predicate AttemptsReported(calls: seq<Callback>, causes: seq<Event>, from: Origin, budget: int) {
    && |causes| == |calls|
    && forall i :: 0 <= i < |calls| ==> calls[i].Failed? && calls[i].report == ReportFor(from, causes[i], i != budget)
  }

  /** The object is trying, with what is left of its budget, or it has made one attempt
      more than its budget and is gone. */
  ghost predicate AttemptsCounted(f: Followed, from: Origin, budget: int) {
    && Inv(f.s) && 0 <= f.key < f.s.issued
    && AttemptsReported(f.calls, f.causes, from, budget)
    && if f.alive then (budget >= 0 ==> |f.calls| <= budget) && AttemptObject(f.s, f.key, from, LeftOf(budget, |f.calls|))
       else |f.calls| == budget + 1 && !Held(f.s, f.key)
  }

  lemma OneMoreAttempt(f: Followed, e: Event, from: Origin, budget: int, r: State)
    requires AttemptsCounted(f, from, budget) && f.alive && Inv(r)
    requires AttemptOver(f.s, f.key, e, LeftOf(budget, |f.calls|), r)
    ensures AttemptsCounted(Moved(f, e, r), from, budget)
  {
    var retry := LeftOf(budget, |f.calls|) != 0;
    OneCall(f, e, r, Failed(f.key, from, ReportFor(from, e, retry)));
  }

  lemma AttemptsCountedOn(f: Followed, e: Event, from: Origin, budget: int)
    requires AttemptsCounted(f, from, budget) && AttemptsFail(f, e)
    ensures AttemptsCounted(FollowOne(f, e), from, budget)
  {
    if f.Owns(e) {
      StepKeeps(f.s, e);
      var r := Step(f.s, e);
      AttemptEvent(f, e, from, LeftOf(budget, |f.calls|));
      if AttemptOver(f.s, f.key, e, LeftOf(budget, |f.calls|), r) {
        OneMoreAttempt(f, e, from, budget, r);
      } else {
        Silent(f, e, r);
      }
    } else {
      NotItsEvent(f, e);
    }
  }

  /** A direct or proxied connection that is eligible and whose attempts all fail:
      whatever other connections, lookups, listeners and requests do in between, it
      makes one attempt more than its budget, each reported once and with a retry for
      all but the last, and is gone exactly then; with a negative budget it goes on
      for ever. */
  lemma AttemptBudget(s: State, key: int, budget: int, events: seq<Event>)
    requires Inv(s) && key in s.connecting && AttemptObject(s, key, s.connecting[key].From(), budget)
    requires Allowed(AttemptsFail, Begun(s, key), events)
    ensures AttemptsCounted(Follow(Begun(s, key), events), s.connecting[key].From(), budget)
  {
    ObjectOk(s, key);
    var from := s.connecting[key].From();
    forall f, e | AttemptsCounted(f, from, budget) && AttemptsFail(f, e)
      ensures AttemptsCounted(FollowOne(f, e), from, budget)
    {
      AttemptsCountedOn(f, e, from, budget);
    }
    Kept(FollowOne, AttemptsFail, f => AttemptsCounted(f, from, budget), Begun(s, key), events);
  }

  // ----- the end is reached -----

  /** Ids remain for the attempts that are left. */
  ghost predicate AttemptsAffordable(f: Followed, from: Origin, budget: int) {
    && AttemptsCounted(f, from, budget) && budget >= 0
    && (f.alive ==> f.s.issued + budget - |f.calls| < ID_SPAN)
  }

  /** What fails the object, or starts it again. */
  function NextFailure(f: Followed): Event {
    if Trying(f.s, f.key, Waiting) then ReconnectTimer(f.key, true)
    else if Trying(f.s, f.key, Connecting) then ConnectDone(f.key, false, true)
    else ProxyDone(f.key, false, true)
  }

  function FailuresLeft(f: Followed, budget: int): nat {
    if f.alive && |f.calls| <= budget then 2 * (budget - |f.calls|) + if Trying(f.s, f.key, Waiting) then 2 else 1 else 0
  }

  lemma NextFailureNears(f: Followed, from: Origin, budget: int)
    requires AttemptsAffordable(f, from, budget) && f.alive
    ensures var e := NextFailure(f);
      && AttemptsFail(f, e) && AttemptsAffordable(FollowOne(f, e), from, budget)
      && FailuresLeft(FollowOne(f, e), budget) < FailuresLeft(f, budget)
  {
    var e := NextFailure(f);
    ObjectOk(f.s, f.key);
    AttemptsCountedOn(f, e, from, budget);
    var left := LeftOf(budget, |f.calls|);
    if e.ReconnectTimer? {
      AttemptStarts(f.s, f.key, from, left);
      Silent(f, e, Step(f.s, e));
    } else {
      AttemptEnds(f.s, f.key, e, from, left);
      OneCall(f, e, Step(f.s, e), Failed(f.key, from, ReportFor(from, e, left != 0)));
    }
  }

  /** And it does end: while ids remain there are events that use the budget up. */
  lemma AttemptsEnd(s: State, key: int, budget: nat) returns (events: seq<Event>)
    requires Inv(s) && key in s.connecting && AttemptObject(s, key, s.connecting[key].From(), budget)
    requires s.issued + budget < ID_SPAN
    ensures Allowed(AttemptsFail, Begun(s, key), events)
    ensures !Follow(Begun(s, key), events).alive
  {
    ObjectOk(s, key);
    var from := s.connecting[key].From();
    forall f | AttemptsAffordable(f, from, budget) && f.alive
      ensures AttemptsFail(f, NextFailure(f)) && AttemptsAffordable(FollowOne(f, NextFailure(f)), from, budget)
           && FailuresLeft(FollowOne(f, NextFailure(f)), budget) < FailuresLeft(f, budget)
    {
      NextFailureNears(f, from, budget);
    }
    events := Reached(FollowOne, AttemptsFail, f => AttemptsAffordable(f, from, budget), (f: Followed) => !f.alive,
                      NextFailure, (f: Followed) => FailuresLeft(f, budget), Begun(s, key));
  }

  // ----- pure lookups -----

  /** The queries of the lookup fail, and the interface agrees to every retry. */
  predicate QueriesFail(f: Followed, e: Event) {
    && !e.ShutdownRequest?
    && (f.Owns(e) ==>
          match e
          case LookupFailed(_, answer) => answer
          case LookupAgain(_, answer) => answer
          case _ => false)
  }

  predicate LookupObject(s: State, key: int, target: Target, left: int) {
    key in s.resolves && s.resolves[key].target == target && s.resolves[key].retries == left
  }

  /** r is s after a query failed: it is queued again with one retry less, or gone. */
  ghost predicate QueryOver(s: State, key: int, target: Target, left: int, r: State) {
    && r.trace == s.trace + [OnLookupFailure(target, left != 0, true)] && r.issued == s.issued
    && if left != 0 then LookupObject(r, key, target, LeftOf(left, 1)) else !Held(r, key) && !Held(r, s.issued)
  }

  lemma QueryResult(s: State, l: Lookup, next: int, r: State)
    requires Inv(s) && Inv(r) && s.running && !s.shutdown && next == s.issued && l.id in s.resolves && s.resolves[l.id] == l
    requires r == LookupFailure(s, l, true)
    ensures QueryOver(s, l.id, l.target, l.retries, r)
  {
    ObjectOk(s, l.id);
    ObjectOk(s, next);
  }

  lemma QueryFails(s: State, key: int, target: Target, left: int)
    requires Inv(s) && LookupObject(s, key, target, left) && s.resolves[key].stage == Querying
    ensures QueryOver(s, key, target, left, Step(s, LookupFailed(key, true)))
  {
    ObjectOk(s, key);
    assert Enabled(s, LookupFailed(key, true));
    StepKeeps(s, LookupFailed(key, true));
    QueryResult(s, s.resolves[key], s.issued, LookupFailure(s, s.resolves[key], true));
  }

  /** The next query is made, or fails at once if the lookup is not eligible. */
  lemma QueryStarts(s: State, key: int, target: Target, left: int)
    requires Inv(s) && LookupObject(s, key, target, left) && s.resolves[key].stage == Queued
    ensures var r := Step(s, LookupAgain(key, true));
      || (r.trace == s.trace && r.issued == s.issued
          && LookupObject(r, key, target, left) && r.resolves[key].stage == Querying)
      || QueryOver(s, key, target, left, r)
  {
    ObjectOk(s, key);
    assert Enabled(s, LookupAgain(key, true));
    var l := s.resolves[key];
    StepKeeps(s, LookupAgain(key, true));
    if !(l.target.CanResolve() && SetResolveFamily(l.target.family)) {
      QueryResult(s, l, s.issued, LookupFailure(s, l, true));
    }
  }

  lemma QueryEvent(f: Followed, e: Event, target: Target, left: int)
    requires Inv(f.s) && LookupObject(f.s, f.key, target, left) && f.Owns(e) && QueriesFail(f, e)
    ensures var r := Step(f.s, e);
      || (r.trace == f.s.trace && r.issued == f.s.issued && LookupObject(r, f.key, target, left))
      || QueryOver(f.s, f.key, target, left, r)
  {
    if Enabled(f.s, e) {
      if e.LookupFailed? {
        QueryFails(f.s, f.key, target, left);
      } else {
        QueryStarts(f.s, f.key, target, left);
      }
    }
  }

  /** Every call made for the lookup reports a query, with a retry unless the budget was
      used up before; it is there with the rest of its budget, or gone after one query
      more than that. */
  ghost predicate QueriesCounted(f: Followed, target: Target, budget: int) {
    && Inv(f.s) && 0 <= f.key < f.s.issued
    && (forall i :: 0 <= i < |f.calls| ==> f.calls[i] == OnLookupFailure(target, i != budget, true))
    && if f.alive then (budget >= 0 ==> |f.calls| <= budget) && LookupObject(f.s, f.key, target, LeftOf(budget, |f.calls|))
       else |f.calls| == budget + 1 && !Held(f.s, f.key)
  }

  lemma QueriesCountedOn(f: Followed, e: Event, target: Target, budget: int)
    requires QueriesCounted(f, target, budget) && QueriesFail(f, e)
    ensures QueriesCounted(FollowOne(f, e), target, budget)
  {
    if f.Owns(e) {
      StepKeeps(f.s, e);
      var r := Step(f.s, e);
      var left := LeftOf(budget, |f.calls|);
      QueryEvent(f, e, target, left);
      if QueryOver(f.s, f.key, target, left, r) {
        OneCall(f, e, r, OnLookupFailure(target, left != 0, true));
      } else {
        Silent(f, e, r);
      }
    } else {
      NotItsEvent(f, e);
    }
  }

  /** A pure lookup whose queries all fail, eligible or not, makes one query more than
      its budget, whatever happens in between, and is gone exactly then. */
  lemma QueryBudget(s: State, key: int, budget: int, events: seq<Event>)
    requires Inv(s) && key in s.resolves && s.resolves[key].retries == budget
    requires Allowed(QueriesFail, Begun(s, key), events)
    ensures QueriesCounted(Follow(Begun(s, key), events), s.resolves[key].target, budget)
  {
    ObjectOk(s, key);
    var target := s.resolves[key].target;
    forall f, e | QueriesCounted(f, target, budget) && QueriesFail(f, e)
      ensures QueriesCounted(FollowOne(f, e), target, budget)
    {
      QueriesCountedOn(f, e, target, budget);
    }
    Kept(FollowOne, QueriesFail, f => QueriesCounted(f, target, budget), Begun(s, key), events);
  }

  function NextQueryFailure(f: Followed): Event {
    if f.key in f.s.resolves && f.s.resolves[f.key].stage == Querying then LookupFailed(f.key, true)
    else LookupAgain(f.key, true)
  }

  function QueriesLeft(f: Followed, budget: int): nat {
    if f.alive && |f.calls| <= budget then 2 * (budget - |f.calls|) + if NextQueryFailure(f).LookupAgain? then 2 else 1
    else 0
  }

  lemma NextQueryNears(f: Followed, target: Target, budget: nat)
    requires QueriesCounted(f, target, budget) && f.alive
    ensures var e := NextQueryFailure(f);
      && QueriesFail(f, e) && QueriesCounted(FollowOne(f, e), target, budget)
      && QueriesLeft(FollowOne(f, e), budget) < QueriesLeft(f, budget)
  {
    var e := NextQueryFailure(f);
    QueriesCountedOn(f, e, target, budget);
    var left := LeftOf(budget, |f.calls|);
    var r := Step(f.s, e);
    if e.LookupFailed? {
      QueryFails(f.s, f.key, target, left);
    } else {
      QueryStarts(f.s, f.key, target, left);
    }
    if QueryOver(f.s, f.key, target, left, r) {
      OneCall(f, e, r, OnLookupFailure(target, left != 0, true));
    } else {
      Silent(f, e, r);
    }
  }

  /** And there are events that use it up. */
  lemma QueriesEnd(s: State, key: int, budget: nat) returns (events: seq<Event>)
    requires Inv(s) && key in s.resolves && s.resolves[key].retries == budget
    ensures Allowed(QueriesFail, Begun(s, key), events)
    ensures !Follow(Begun(s, key), events).alive
  {
    ObjectOk(s, key);
    var target := s.resolves[key].target;
    forall f | QueriesCounted(f, target, budget) && f.alive
      ensures QueriesFail(f, NextQueryFailure(f)) && QueriesCounted(FollowOne(f, NextQueryFailure(f)), target, budget)
           && QueriesLeft(FollowOne(f, NextQueryFailure(f)), budget) < QueriesLeft(f, budget)
    {
      NextQueryNears(f, target, budget);
    }
    events := Reached(FollowOne, QueriesFail, f => QueriesCounted(f, target, budget), (f: Followed) => !f.alive,
                      NextQueryFailure, (f: Followed) => QueriesLeft(f, budget), Begun(s, key));
  }
}
