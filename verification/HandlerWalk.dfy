/** The walk over a DNS response in any run: what becomes of a connection object
    whose addresses fail one after the other, whatever else the handler does
    meanwhile. */
module HandlerWalk {
  import opened Connections
  import opened Protocol
  import opened HandlerModel
  import opened HandlerInvariant
  import opened HandlerRuns
  import opened HandlerIndependence
  import opened HandlerFollow

  /** The object's connects and lookups fail or bring another response, and the
      interface agrees to every retry. */
  predicate AddressesFail(f: Followed, e: Event) {
    && !e.ShutdownRequest?
    && (f.Owns(e) ==>
          match e
          case ConnectDone(_, ok, answer) => !ok && answer
          case ReconnectTimer(_, answer) => answer
          case ResolveDone(_, _, answer) => answer
          case ResolveFailed(_, answer) => answer
          case _ => false)
  }

  predicate DnsObject(s: State, key: int, from: Origin) {
    key in s.connecting && s.connecting[key].From() == from && from.kind == Dns
  }

  /** The object is about to try, or is trying, the address at this position. */
  predicate Walking(s: State, key: int, from: Origin, response: seq<Addr>, k: nat, budget: int) {
    && DnsObject(s, key, from) && k < |response|
    && s.connecting[key].resolved == response && s.connecting[key].iter == At(k)
    && s.connecting[key].retries == budget
    && s.connecting[key].stage in {Waiting, Connecting}
  }

  // ----- one event of the object -----

  /** The retry flag reported for the address at the iterator. */
  predicate MoreToTry(c: Conn)
    requires c.WalkOk() && c.iter != End
  {
    Advance(c).iter != End || c.retries != 0
  }

  function AddressReport(c: Conn): Callback
    requires c.WalkOk() && c.iter != End
  {
    var failed := Resolved(c.resolved[c.iter.pos]);
    Failed(c.id, c.From(), OnConnectionFailure(failed, failed, MoreToTry(c), true))
  }

  /** r is s after one address of c failed: reported, and c moved past it. */
  ghost predicate AddressFailed(s: State, c: Conn, r: State)
    requires c.WalkOk() && c.iter != End
  {
    && Inv(r) && SameElsewhere(s, r)
    && r.trace == s.trace + [AddressReport(c)]
    && r.issued == s.issued + (if MoreToTry(c) then 1 else 0)
    && r.connecting ==
         if MoreToTry(c) then (s.connecting - {c.id})[s.issued := Advance(c).(id := s.issued, stage := Waiting)]
         else s.connecting - {c.id}
  }

  lemma RefusedAddress(s: State, c: Conn)
    requires Ready(s, 1) && c.id in s.connecting && c.kind == Dns
    requires c.WalkOk() && c.iter != End && c.MadeOk()
    ensures AddressFailed(s, c, DnsConnectFailure(s, c, true))
  {
    FailAndRequeue(s, Advance(c), CONNECT, Resolved(c.resolved[c.iter.pos]), MoreToTry(c));
    assert IdOk(s, s.issued);
  }

  lemma ResponseArrives(s: State, key: int, response: seq<Addr>)
    requires Ready(s, 1) && Trying(s, key, Resolving) && response != []
    ensures IdOk(s, key) && s.connecting[key].id == key
    ensures Step(s, ResolveDone(key, response, true)) ==
            ConnectResolved(s, s.connecting[key].(resolved := response, iter := At(0)), true)
  {
    ObjectOk(s, key);
  }

  /** One call, a failure report, after which the object waits by the next id or is
      gone. Only a DNS failure takes one of the retries that are left. */
  ghost predicate CalledOnce(s: State, key: int, from: Origin, left: int, r: State) {
    && |r.trace| == |s.trace| + 1 && r.trace == s.trace + [r.trace[|s.trace|]]
    && r.trace[|s.trace|].Failed? && !Held(r, key)
    && (r.trace[|s.trace|].IsDnsFailure() && left == 0 ==> !Held(r, s.issued))
    && if Held(r, s.issued) then
         && r.issued == s.issued + 1 && DnsObject(r, s.issued, from)
         && r.connecting[s.issued].retries == if r.trace[|s.trace|].IsDnsFailure() then Spend(left).0 else left
       else r.issued == s.issued && left == 0
  }

  /** No call, and the object is there with its budget. */
  ghost predicate Quietly(s: State, key: int, from: Origin, r: State) {
    r.trace == s.trace && r.issued == s.issued && DnsObject(s, key, from) && DnsObject(r, key, from)
    && r.connecting[key].retries == s.connecting[key].retries
  }

  lemma FailureCallsOnce(s: State, c: Conn, t: FailureType, failed: Endpoint, mayRetry: bool, left: int)
    requires Ready(s, 1) && c.id in s.connecting && c.(stage := Waiting).TryingOk() && c.kind == Dns
    requires t == RESOLVE ==> (mayRetry <==> left != 0) && c.retries == Spend(left).0
    requires t != RESOLVE ==> (!mayRetry ==> left == 0) && c.retries == left
    ensures CalledOnce(s, c.id, c.From(), left, FailConnection(s, c, t, failed, mayRetry, true))
  {
    FailAndRequeue(s, c, t, failed, mayRetry);
    ObjectOk(s, c.id);
    ObjectOk(s, s.issued);
  }

  lemma AddressCallsOnce(s: State, c: Conn)
    requires Ready(s, 1) && c.id in s.connecting && c.kind == Dns && c.WalkOk() && c.iter != End && c.MadeOk()
    ensures CalledOnce(s, c.id, c.From(), c.retries, DnsConnectFailure(s, c, true))
    ensures var r := ConnectResolved(s, c, true);
      CalledOnce(s, c.id, c.From(), c.retries, r) || r == Update(s, c.(stage := Connecting))
  {
    var next := Advance(c);
    FailureCallsOnce(s, next, CONNECT, Resolved(c.resolved[c.iter.pos]), next.iter != End || next.retries != 0,
                     c.retries);
  }

  lemma ResolveCallsOnce(s: State, c: Conn)
    requires Ready(s, 1) && c.id in s.connecting && c.kind == Dns && c.resolved == [] && c.iter == End && c.MadeOk()
    ensures CalledOnce(s, c.id, c.From(), c.retries, DnsResolveFailure(s, c, true))
    ensures var r := DoResolve(s, c, true);
      CalledOnce(s, c.id, c.From(), c.retries, r) || r == Update(s, c.(stage := Resolving))
  {
    FailureCallsOnce(s, c.(retries := Spend(c.retries).0), RESOLVE, Original(c.target), Spend(c.retries).1, c.retries);
  }

  /** c is held, or what the object held will be once it is stored. */
  lemma StoredQuietly(s: State, c: Conn, d: Conn)
    requires c.id in s.connecting && s.connecting[c.id] == c && c.kind == Dns
    requires d.id == c.id && d.From() == c.From() && d.retries == c.retries
    ensures Quietly(s, c.id, c.From(), Update(s, d))
  {
  }

  lemma TimerQuietOrOnce(s: State, c: Conn)
    requires Ready(s, 1) && c.id in s.connecting && s.connecting[c.id] == c && c.kind == Dns && c.WalkOk() && c.MadeOk()
    ensures var r := Connect(s, c, true); Quietly(s, c.id, c.From(), r) || CalledOnce(s, c.id, c.From(), c.retries, r)
  {
    StoredQuietly(s, c, c.(stage := Connecting));
    StoredQuietly(s, c, c.(stage := Resolving));
    if c.iter == End {
      ResolveCallsOnce(s, c);
    } else {
      AddressCallsOnce(s, c);
    }
  }

  lemma ResponseQuietOrOnce(s: State, c: Conn, response: seq<Addr>)
    requires Ready(s, 1) && c.id in s.connecting && s.connecting[c.id] == c
    requires c.kind == Dns && c.MadeOk() && response != []
    ensures var r := ConnectResolved(s, c.(resolved := response, iter := At(0)), true);
      Quietly(s, c.id, c.From(), r) || CalledOnce(s, c.id, c.From(), c.retries, r)
  {
    var d := c.(resolved := response, iter := At(0));
    StoredQuietly(s, c, d.(stage := Connecting));
    AddressCallsOnce(s, d);
  }

  /** Any event of its own is quiet or makes one call. */
  lemma DnsEvent(f: Followed, e: Event, from: Origin)
    requires Inv(f.s) && DnsObject(f.s, f.key, from) && f.Owns(e) && AddressesFail(f, e)
    ensures var r := Step(f.s, e);
      Quietly(f.s, f.key, from, r) || CalledOnce(f.s, f.key, from, f.s.connecting[f.key].retries, r)
  {
    ObjectOk(f.s, f.key);
    var c := f.s.connecting[f.key];
    if Enabled(f.s, e) {
      match e
      case ConnectDone(_, _, _) => AddressCallsOnce(f.s, c);
      case ReconnectTimer(_, _) => TimerQuietOrOnce(f.s, c);
      case ResolveDone(_, response, _) => ResponseQuietOrOnce(f.s, c, response);
      case ResolveFailed(_, _) => ResolveCallsOnce(f.s, c);
    }
  }

  lemma ConnectFails(s: State, key: int)
    requires Inv(s) && s.issued < ID_SPAN && Trying(s, key, Connecting) && s.connecting[key].kind == Dns
    ensures s.connecting[key].id == key && s.connecting[key].WalkOk() && s.connecting[key].iter != End
    ensures AddressFailed(s, s.connecting[key], Step(s, ConnectDone(key, false, true)))
  {
    ObjectOk(s, key);
    assert Enabled(s, ConnectDone(key, false, true));
    RefusedAddress(s, s.connecting[key]);
  }

  /** The timer has the address tried, or refused at once for its family. */
  lemma TimerTries(s: State, key: int)
    requires Inv(s) && s.issued < ID_SPAN && Trying(s, key, Waiting)
    requires s.connecting[key].kind == Dns && s.connecting[key].iter.At?
    ensures s.connecting[key].id == key && s.connecting[key].WalkOk()
    ensures var c := s.connecting[key]; var r := Step(s, ReconnectTimer(key, true));
      r == Update(s, c.(stage := Connecting)) || AddressFailed(s, c, r)
  {
    ObjectOk(s, key);
    assert Enabled(s, ReconnectTimer(key, true));
    RefusedAddress(s, s.connecting[key]);
  }

  /** An event of its own during the walk leaves it at its address, or is the failure
      of that address. */
  lemma WalkEvent(f: Followed, e: Event, from: Origin, response: seq<Addr>, k: nat, budget: int)
    requires Inv(f.s) && Walking(f.s, f.key, from, response, k, budget) && f.Owns(e) && AddressesFail(f, e)
    ensures var r := Step(f.s, e);
      || (r.trace == f.s.trace && r.issued == f.s.issued && Walking(r, f.key, from, response, k, budget))
      || AddressFailed(f.s, f.s.connecting[f.key], r)
  {
    if Enabled(f.s, e) {
      if e.ConnectDone? {
        ConnectFails(f.s, f.key);
      } else {
        TimerTries(f.s, f.key);
      }
    }
  }

  // ----- followed -----

  function AddressReported(response: seq<Addr>, i: nat, budget: int): FailureCall
    requires i < |response|
  {
    OnConnectionFailure(Resolved(response[i]), Resolved(response[i]), i + 1 < |response| || budget != 0, true)
  }

  /** The calls made for the object begin with one report for each address, in order,
      with a retry unless it is the last one and the budget is zero. */
  predicate AddressesReported(calls: seq<Callback>, response: seq<Addr>, budget: int) {
    forall i :: 0 <= i < |calls| && i < |response| ==>
      calls[i].Failed? && calls[i].report == AddressReported(response, i, budget)
  }

  /** Until every address was reported, the object is at the first that was not. With
      the last one it is gone if the budget is zero; if not, it is there with its budget
      untouched at least until it makes another call. */
  ghost predicate AddressesCounted(f: Followed, from: Origin, response: seq<Addr>, budget: int) {
    && Inv(f.s) && 0 <= f.key < f.s.issued
    && AddressesReported(f.calls, response, budget)
    && (if f.alive then DnsObject(f.s, f.key, from) else !Held(f.s, f.key))
    && (|f.calls| < |response| ==> f.alive && Walking(f.s, f.key, from, response, |f.calls|, budget))
    && (|f.calls| >= |response| && budget == 0 ==> !f.alive && |f.calls| == |response|)
    && (|f.calls| == |response| && budget != 0 ==> f.alive && f.s.connecting[f.key].retries == budget)
  }

  /** r is s after the address at position k was reported. */
  ghost predicate PastAddress(s: State, key: int, from: Origin, response: seq<Addr>, k: nat, budget: int,
                              next: int, r: State)
    requires k < |response|
  {
    && Inv(r) && r.trace == s.trace + [Failed(key, from, AddressReported(response, k, budget))]
    && !Held(r, key)
    && (k + 1 < |response| ==> Walking(r, next, from, response, k + 1, budget))
    && if k + 1 < |response| || budget != 0
       then r.issued == next + 1 && DnsObject(r, next, from) && r.connecting[next].retries == budget
       else r.issued == next && !Held(r, next)
  }

  lemma AddressIsPast(s: State, c: Conn, k: nat, next: int, r: State)
    requires Inv(s) && next == s.issued && c.id in s.connecting && c.kind == Dns
    requires c.iter == At(k) && k < |c.resolved| && AddressFailed(s, c, r)
    ensures PastAddress(s, c.id, c.From(), c.resolved, k, c.retries, next, r)
  {
    ObjectOk(s, c.id);
    ObjectOk(s, next);
  }

  lemma OneMoreAddress(f: Followed, e: Event, from: Origin, response: seq<Addr>, budget: int, r: State)
    requires f.alive && 0 <= f.key < f.s.issued
    requires AddressesReported(f.calls, response, budget) && |f.calls| < |response|
    requires PastAddress(f.s, f.key, from, response, |f.calls|, budget, f.s.issued, r)
    ensures AddressesCounted(Moved(f, e, r), from, response, budget)
  {
    OneCall(f, e, r, Failed(f.key, from, AddressReported(response, |f.calls|, budget)));
  }

  /** The walk is over and the budget was not zero: whatever comes next. */
  lemma OneMoreCall(f: Followed, e: Event, from: Origin, response: seq<Addr>, budget: int, left: int, r: State)
    requires AddressesCounted(f, from, response, budget) && |f.calls| >= |response| && f.alive
    requires Inv(r) && CalledOnce(f.s, f.key, from, left, r)
    ensures AddressesCounted(Moved(f, e, r), from, response, budget)
  {
    OneCall(f, e, r, r.trace[|f.s.trace|]);
  }

  lemma AddressesCountedOn(f: Followed, e: Event, from: Origin, response: seq<Addr>, budget: int)
    requires AddressesCounted(f, from, response, budget) && AddressesFail(f, e)
    ensures AddressesCounted(FollowOne(f, e), from, response, budget)
  {
    if !f.Owns(e) {
      NotItsEvent(f, e);
    } else {
      StepKeeps(f.s, e);
      var r := Step(f.s, e);
      if |f.calls| < |response| {
        WalkEvent(f, e, from, response, |f.calls|, budget);
        if AddressFailed(f.s, f.s.connecting[f.key], r) {
          ObjectOk(f.s, f.key);
          AddressIsPast(f.s, f.s.connecting[f.key], |f.calls|, f.s.issued, r);
          OneMoreAddress(f, e, from, response, budget, r);
        } else {
          Silent(f, e, r);
        }
      } else {
        DnsEvent(f, e, from);
        if CalledOnce(f.s, f.key, from, f.s.connecting[f.key].retries, r) {
          OneMoreCall(f, e, from, response, budget, f.s.connecting[f.key].retries, r);
        } else {
          Silent(f, e, r);
        }
      }
    }
  }

  /** The response arrives, and its first address is tried at once. */
  lemma ResponseCounted(s: State, key: int, response: seq<Addr>)
    requires Inv(s) && Trying(s, key, Resolving) && Enabled(s, ResolveDone(key, response, true))
    ensures var f := FollowOne(Begun(s, key), ResolveDone(key, response, true));
      && AddressesCounted(f, s.connecting[key].From(), response, s.connecting[key].retries)
      && f.s.issued <= s.issued + |f.calls|
  {
    var e := ResolveDone(key, response, true);
    ObjectOk(s, key);
    ResponseArrives(s, key, response);
    StepKeeps(s, e);
    var c := s.connecting[key].(resolved := response, iter := At(0));
    if SockAllowed(response[0].sock, c.target.family) {
      Silent(Begun(s, key), e, Update(s, c.(stage := Connecting)));
    } else {
      RefusedAddress(s, c);
      AddressIsPast(s, c, 0, s.issued, DnsConnectFailure(s, c, true));
      OneMoreAddress(Begun(s, key), e, c.From(), response, c.retries, DnsConnectFailure(s, c, true));
    }
  }

  /** A response has arrived, f is the object after that, and the connects to its
      addresses fail: whatever other connections, lookups, listeners and requests do in
      between, all addresses are reported in order, each exactly once, before anything
      is resolved again. */
  lemma WalkInOrder(s: State, key: int, response: seq<Addr>, f: Followed, events: seq<Event>)
    requires Inv(s) && Trying(s, key, Resolving) && Enabled(s, ResolveDone(key, response, true))
    requires f == FollowOne(Begun(s, key), ResolveDone(key, response, true))
    requires Allowed(AddressesFail, f, events)
    ensures AddressesCounted(Follow(f, events), s.connecting[key].From(), response, s.connecting[key].retries)
  {
    var from, budget := s.connecting[key].From(), s.connecting[key].retries;
    ResponseCounted(s, key, response);
    forall g, e | AddressesCounted(g, from, response, budget) && AddressesFail(g, e)
      ensures AddressesCounted(FollowOne(g, e), from, response, budget)
    {
      AddressesCountedOn(g, e, from, response, budget);
    }
    Kept(FollowOne, AddressesFail, g => AddressesCounted(g, from, response, budget), f, events);
  }

  // ----- the end of the walk is reached -----

  /** Ids remain for the addresses that are left. */
  ghost predicate WalkAffordable(f: Followed, from: Origin, response: seq<Addr>, budget: int) {
    && AddressesCounted(f, from, response, budget)
    && (|f.calls| < |response| ==> f.s.issued + |response| - |f.calls| <= ID_SPAN)
  }

  function NextAddressFailure(f: Followed): Event {
    if Trying(f.s, f.key, Waiting) then ReconnectTimer(f.key, true) else ConnectDone(f.key, false, true)
  }

  function AddressesLeft(f: Followed, n: nat): nat {
    if |f.calls| < n then 2 * (n - |f.calls|) + if Trying(f.s, f.key, Waiting) then 1 else 0 else 0
  }

  lemma NextAddressNears(f: Followed, from: Origin, response: seq<Addr>, budget: int)
    requires WalkAffordable(f, from, response, budget) && |f.calls| < |response|
    ensures var e := NextAddressFailure(f);
      && AddressesFail(f, e) && WalkAffordable(FollowOne(f, e), from, response, budget)
      && AddressesLeft(FollowOne(f, e), |response|) < AddressesLeft(f, |response|)
  {
    var e := NextAddressFailure(f);
    AddressesCountedOn(f, e, from, response, budget);
    var r := Step(f.s, e);
    if e.ReconnectTimer? {
      TimerTries(f.s, f.key);
    } else {
      ConnectFails(f.s, f.key);
    }
    if AddressFailed(f.s, f.s.connecting[f.key], r) {
      OneCall(f, e, r, AddressReport(f.s.connecting[f.key]));
    } else {
      Silent(f, e, r);
    }
  }

  /** And they do get reported: while ids remain there are events that use the response
      up. */
  lemma WalkEnds(s: State, key: int, response: seq<Addr>, f: Followed) returns (events: seq<Event>)
    requires Inv(s) && Trying(s, key, Resolving) && response != [] && s.issued + |response| <= ID_SPAN
    requires f == FollowOne(Begun(s, key), ResolveDone(key, response, true))
    ensures Allowed(AddressesFail, f, events)
    ensures |Follow(f, events).calls| >= |response|
  {
    var from, budget := s.connecting[key].From(), s.connecting[key].retries;
    assert Enabled(s, ResolveDone(key, response, true));
    ResponseCounted(s, key, response);
    forall g | WalkAffordable(g, from, response, budget) && |g.calls| < |response|
      ensures AddressesFail(g, NextAddressFailure(g))
           && WalkAffordable(FollowOne(g, NextAddressFailure(g)), from, response, budget)
           && AddressesLeft(FollowOne(g, NextAddressFailure(g)), |response|) < AddressesLeft(g, |response|)
    {
      NextAddressNears(g, from, response, budget);
    }
    events := Reached(FollowOne, AddressesFail, g => WalkAffordable(g, from, response, budget),
                      (g: Followed) => |g.calls| >= |response|, NextAddressFailure,
                      (g: Followed) => AddressesLeft(g, |response|), f);
  }

  // ----- a budget does not bound it -----

  /** The object is trying, with a budget that is not zero, and can resolve. */
  ghost predicate GoingOn(f: Followed, from: Origin, budget: int, last: int) {
    && Inv(f.s) && 0 <= f.key < f.s.issued && f.s.issued - |f.calls| <= last
    && f.alive && DnsObject(f.s, f.key, from) && f.s.connecting[f.key].retries == budget
    && budget != 0 && from.target.CanResolve()
  }

  function NextTry(f: Followed, response: seq<Addr>): Event {
    if Trying(f.s, f.key, Waiting) then ReconnectTimer(f.key, true)
    else if Trying(f.s, f.key, Resolving) then ResolveDone(f.key, response, true)
    else ConnectDone(f.key, false, true)
  }

  /** How far the object is from its next address. */
  function Steps(f: Followed): nat {
    if Trying(f.s, f.key, Waiting) then (if f.s.connecting[f.key].iter == End then 2 else 1)
    else if Trying(f.s, f.key, Resolving) then 1
    else 0
  }

  function TriesLeft(f: Followed, n: nat): nat {
    if |f.calls| < n then 3 * (n - |f.calls|) + Steps(f) else 0
  }

  /** Another address was reported, or the next one is nearer. */
  predicate Nearer(f: Followed, g: Followed) {
    |g.calls| > |f.calls| || (|g.calls| == |f.calls| && Steps(g) < Steps(f))
  }

  lemma NearerMeansLess(f: Followed, g: Followed, n: nat)
    requires Nearer(f, g) && |f.calls| < n
    ensures TriesLeft(g, n) < TriesLeft(f, n)
  {
  }

  lemma FailedGoesOn(f: Followed, e: Event, from: Origin, budget: int, last: int, c: Conn, r: State)
    requires GoingOn(f, from, budget, last) && c.id == f.key && c.From() == from && c.retries == budget
    requires c.iter.At? && c.iter.pos < |c.resolved| && AddressFailed(f.s, c, r)
    ensures var g := Moved(f, e, r); GoingOn(g, from, budget, last) && |g.calls| == |f.calls| + 1
  {
    AddressIsPast(f.s, c, c.iter.pos, f.s.issued, r);
    OneCall(f, e, r, Failed(c.id, from, AddressReported(c.resolved, c.iter.pos, budget)));
  }

  lemma StoredGoesOn(f: Followed, e: Event, from: Origin, budget: int, last: int, c: Conn, r: State)
    requires GoingOn(f, from, budget, last) && c.id == f.key && c.From() == from && c.retries == budget
    requires Inv(r) && r == Update(f.s, c)
    ensures Moved(f, e, r) == f.(s := r) && GoingOn(f.(s := r), from, budget, last)
  {
    Silent(f, e, r);
  }

  lemma WaitingGoesOn(f: Followed, from: Origin, budget: int, last: int)
    requires GoingOn(f, from, budget, last) && f.s.issued < ID_SPAN && Trying(f.s, f.key, Waiting)
    ensures var g := FollowOne(f, ReconnectTimer(f.key, true));
      GoingOn(g, from, budget, last) && Nearer(f, g)
  {
    var e := ReconnectTimer(f.key, true);
    ObjectOk(f.s, f.key);
    var c := f.s.connecting[f.key];
    StepKeeps(f.s, e);
    var r := Step(f.s, e);
    if c.iter == End {
      assert Enabled(f.s, e);
      StoredGoesOn(f, e, from, budget, last, c.(stage := Resolving), r);
    } else {
      TimerTries(f.s, f.key);
      if AddressFailed(f.s, c, r) {
        FailedGoesOn(f, e, from, budget, last, c, r);
      } else {
        StoredGoesOn(f, e, from, budget, last, c.(stage := Connecting), r);
      }
    }
  }

  lemma AnsweredGoesOn(f: Followed, e: Event, from: Origin, budget: int, last: int, c: Conn, r: State)
    requires GoingOn(f, from, budget, last) && f.s.issued < ID_SPAN && Trying(f.s, f.key, Resolving)
    requires c.id == f.key && c.From() == from && c.retries == budget && c.kind == Dns && c.MadeOk() && c.WalkOk()
    requires c.iter == At(0) && Inv(r) && r == ConnectResolved(f.s, c, true)
    ensures var g := Moved(f, e, r); GoingOn(g, from, budget, last) && Nearer(f, g)
  {
    if SockAllowed(c.resolved[0].sock, c.target.family) {
      StoredGoesOn(f, e, from, budget, last, c.(stage := Connecting), r);
    } else {
      RefusedAddress(f.s, c);
      FailedGoesOn(f, e, from, budget, last, c, r);
    }
  }

  lemma ResolvedGoesOn(f: Followed, from: Origin, budget: int, last: int, response: seq<Addr>)
    requires GoingOn(f, from, budget, last) && f.s.issued < ID_SPAN && Trying(f.s, f.key, Resolving) && response != []
    ensures var g := FollowOne(f, ResolveDone(f.key, response, true));
      GoingOn(g, from, budget, last) && Nearer(f, g)
  {
    var e := ResolveDone(f.key, response, true);
    ObjectOk(f.s, f.key);
    StepKeeps(f.s, e);
    ResponseArrives(f.s, f.key, response);
    AnsweredGoesOn(f, e, from, budget, last, f.s.connecting[f.key].(resolved := response, iter := At(0)), Step(f.s, e));
  }

  lemma ConnectingGoesOn(f: Followed, from: Origin, budget: int, last: int)
    requires GoingOn(f, from, budget, last) && f.s.issued < ID_SPAN && Trying(f.s, f.key, Connecting)
    ensures var g := FollowOne(f, ConnectDone(f.key, false, true));
      GoingOn(g, from, budget, last) && Nearer(f, g)
  {
    var e := ConnectDone(f.key, false, true);
    ConnectFails(f.s, f.key);
    FailedGoesOn(f, e, from, budget, last, f.s.connecting[f.key], Step(f.s, e));
  }

  lemma NextTryNears(f: Followed, from: Origin, budget: int, last: int, response: seq<Addr>, n: nat)
    requires GoingOn(f, from, budget, last) && last + n <= ID_SPAN && response != [] && |f.calls| < n
    ensures var e := NextTry(f, response);
      AddressesFail(f, e) && GoingOn(FollowOne(f, e), from, budget, last) && TriesLeft(FollowOne(f, e), n) < TriesLeft(f, n)
  {
    ObjectOk(f.s, f.key);
    if Trying(f.s, f.key, Waiting) {
      WaitingGoesOn(f, from, budget, last);
    } else if Trying(f.s, f.key, Resolving) {
      ResolvedGoesOn(f, from, budget, last, response);
    } else {
      ConnectingGoesOn(f, from, budget, last);
    }
    NearerMeansLess(f, FollowOne(f, NextTry(f, response)), n);
  }

  /** Failing connects do not use up the budget of a DNS connection that resolves: with
      any that is not zero it can fail any number of times and is still trying. */
  lemma BudgetDoesNotBoundIt(s: State, key: int, response: seq<Addr>, n: nat) returns (events: seq<Event>)
    requires Inv(s) && key in s.connecting && s.connecting[key].kind == Dns && s.connecting[key].target.CanResolve()
    requires s.connecting[key].retries != 0 && response != [] && s.issued + n <= ID_SPAN
    ensures Allowed(AddressesFail, Begun(s, key), events)
    ensures var f := Follow(Begun(s, key), events);
      f.alive && |f.calls| >= n && key in s.connecting && f.key in f.s.connecting
      && f.s.connecting[f.key].retries == s.connecting[key].retries
  {
    ObjectOk(s, key);
    var from, budget, last := s.connecting[key].From(), s.connecting[key].retries, s.issued;
    forall f | GoingOn(f, from, budget, last) && |f.calls| < n
      ensures AddressesFail(f, NextTry(f, response)) && GoingOn(FollowOne(f, NextTry(f, response)), from, budget, last)
           && TriesLeft(FollowOne(f, NextTry(f, response)), n) < TriesLeft(f, n)
    {
      NextTryNears(f, from, budget, last, response, n);
    }
    events := Reached(FollowOne, AddressesFail, f => GoingOn(f, from, budget, last), (f: Followed) => |f.calls| >= n,
                      f => NextTry(f, response), (f: Followed) => TriesLeft(f, n), Begun(s, key));
  }
}
