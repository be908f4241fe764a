/** The retry budget of a DNS connection in any run: what uses it up is a name that
    does not resolve, and nothing else. */
module HandlerResolving {
  import opened Connections
  import opened Protocol
  import opened HandlerModel
  import opened HandlerInvariant
  import opened HandlerRuns
  import opened HandlerIndependence
  import opened HandlerFollow
  import opened HandlerBudgets
  import opened HandlerWalk

  function DnsFailures(calls: seq<Callback>): nat {
    if calls == [] then 0
    else DnsFailures(calls[..|calls| - 1]) + if calls[|calls| - 1].IsDnsFailure() then 1 else 0
  }

  lemma DnsFailuresAppend(calls: seq<Callback>, cb: Callback)
    ensures DnsFailures(calls + [cb]) == DnsFailures(calls) + if cb.IsDnsFailure() then 1 else 0
  {
    assert (calls + [cb])[..|calls|] == calls;
  }

  /** The budget less the failures to resolve is what is left; the object is gone with
      the failure, of either sort, that finds nothing left. */
  ghost predicate FailuresCounted(f: Followed, from: Origin, budget: int) {
    && Inv(f.s) && 0 <= f.key < f.s.issued
    && if f.alive then
         && DnsObject(f.s, f.key, from) && (budget >= 0 ==> DnsFailures(f.calls) <= budget)
         && f.s.connecting[f.key].retries == LeftOf(budget, DnsFailures(f.calls))
       else
         && !Held(f.s, f.key) && f.calls != [] && budget >= 0
         && DnsFailures(f.calls) == budget + if f.calls[|f.calls| - 1].IsDnsFailure() then 1 else 0
  }

  lemma OneMoreFailure(f: Followed, e: Event, from: Origin, budget: int, r: State)
    requires FailuresCounted(f, from, budget) && f.alive && Inv(r)
    requires CalledOnce(f.s, f.key, from, LeftOf(budget, DnsFailures(f.calls)), r)
    ensures FailuresCounted(Moved(f, e, r), from, budget)
  {
    var cb := r.trace[|f.s.trace|];
    OneCall(f, e, r, cb);
    DnsFailuresAppend(f.calls, cb);
  }

  lemma FailuresCountedOn(f: Followed, e: Event, from: Origin, budget: int)
    requires FailuresCounted(f, from, budget) && AddressesFail(f, e)
    ensures FailuresCounted(FollowOne(f, e), from, budget)
  {
    if f.Owns(e) {
      StepKeeps(f.s, e);
      var r := Step(f.s, e);
      DnsEvent(f, e, from);
      if CalledOnce(f.s, f.key, from, f.s.connecting[f.key].retries, r) {
        OneMoreFailure(f, e, from, budget, r);
      } else {
        Silent(f, e, r);
      }
    } else {
      NotItsEvent(f, e);
    }
  }

  /** A DNS connection none of whose connects succeeds, whatever happens in between:
      while it is there, its retries left and its failures to resolve add up to its
      budget, however many addresses failed; a negative budget is not used up. */
  lemma ResolveBudget(s: State, key: int, budget: int, events: seq<Event>)
    requires Inv(s) && key in s.connecting && s.connecting[key].kind == Dns && s.connecting[key].retries == budget
    requires Allowed(AddressesFail, Begun(s, key), events)
    ensures FailuresCounted(Follow(Begun(s, key), events), s.connecting[key].From(), budget)
  {
    ObjectOk(s, key);
    var from := s.connecting[key].From();
    forall f, e | FailuresCounted(f, from, budget) && AddressesFail(f, e)
      ensures FailuresCounted(FollowOne(f, e), from, budget)
    {
      FailuresCountedOn(f, e, from, budget);
    }
    Kept(FollowOne, AddressesFail, f => FailuresCounted(f, from, budget), Begun(s, key), events);
  }

  // ----- a name that never resolves -----

  /** Every lookup of the object fails, and the interface agrees to every retry. */
  predicate NamesFail(f: Followed, e: Event) {
    && !e.ShutdownRequest?
    && (f.Owns(e) ==>
          match e
          case ResolveFailed(_, answer) => answer
          case ReconnectTimer(_, answer) => answer
          case _ => false)
  }

  /** The object has no response. */
  predicate Nameless(s: State, key: int, from: Origin, left: int) {
    && DnsObject(s, key, from) && s.connecting[key].retries == left
    && s.connecting[key].iter == End && s.connecting[key].stage in {Waiting, Resolving}
  }

  /** r is s after a failure to resolve: the object waits by the next id with one retry
      less, or is gone. */
  ghost predicate NameOver(s: State, key: int, from: Origin, left: int, r: State) {
    && r.trace == s.trace + [Failed(key, from, OnDnsFailure(Original(from.target), left != 0, true))]
    && !Held(r, key)
    && if left != 0 then r.issued == s.issued + 1 && Nameless(r, s.issued, from, LeftOf(left, 1))
       else r.issued == s.issued && !Held(r, s.issued)
  }

  lemma NameIsOver(s: State, c: Conn)
    requires Ready(s, 1) && c.id in s.connecting && s.connecting[c.id] == c && c.kind == Dns && c.TryingOk()
    requires c.iter == End
    ensures NameOver(s, c.id, c.From(), c.retries, DnsResolveFailure(s, c, true))
  {
    FailAndRequeue(s, c.(retries := Spend(c.retries).0), RESOLVE, Original(c.target), Spend(c.retries).1);
    ObjectOk(s, c.id);
    ObjectOk(s, s.issued);
  }

  lemma NameFails(s: State, key: int, from: Origin, left: int)
    requires Inv(s) && s.issued < ID_SPAN && Nameless(s, key, from, left) && Trying(s, key, Resolving)
    ensures NameOver(s, key, from, left, Step(s, ResolveFailed(key, true)))
  {
    ObjectOk(s, key);
    assert Enabled(s, ResolveFailed(key, true));
    NameIsOver(s, s.connecting[key]);
  }

  /** The timer starts a lookup, or fails at once if the target cannot resolve. */
  lemma NameAskedAgain(s: State, key: int, from: Origin, left: int)
    requires Inv(s) && s.issued < ID_SPAN && Nameless(s, key, from, left) && Trying(s, key, Waiting)
    ensures s.connecting[key].id == key
    ensures var r := Step(s, ReconnectTimer(key, true));
      r == Update(s, s.connecting[key].(stage := Resolving)) || NameOver(s, key, from, left, r)
  {
    ObjectOk(s, key);
    assert Enabled(s, ReconnectTimer(key, true));
    NameIsOver(s, s.connecting[key]);
  }

  lemma NameEvent(f: Followed, e: Event, from: Origin, left: int)
    requires Inv(f.s) && Nameless(f.s, f.key, from, left) && f.Owns(e) && NamesFail(f, e)
    ensures var r := Step(f.s, e);
      || (r.trace == f.s.trace && r.issued == f.s.issued && Nameless(r, f.key, from, left))
      || NameOver(f.s, f.key, from, left, r)
  {
    if Enabled(f.s, e) {
      if e.ResolveFailed? {
        NameFails(f.s, f.key, from, left);
      } else {
        NameAskedAgain(f.s, f.key, from, left);
      }
    }
  }

  /** Every call made for the object is a failure to resolve, with a retry unless the
      budget was used up before; it is there with the rest of its budget, or gone after
      one failure more than that. */
  ghost predicate NamesCounted(f: Followed, from: Origin, budget: int) {
    && Inv(f.s) && 0 <= f.key < f.s.issued
    && (forall i :: 0 <= i < |f.calls| ==>
          f.calls[i].Failed? && f.calls[i].report == OnDnsFailure(Original(from.target), i != budget, true))
    && if f.alive then (budget >= 0 ==> |f.calls| <= budget) && Nameless(f.s, f.key, from, LeftOf(budget, |f.calls|))
       else |f.calls| == budget + 1 && !Held(f.s, f.key)
  }

  lemma NamesCountedAfter(f: Followed, e: Event, from: Origin, budget: int, left: int, r: State)
    requires NamesCounted(f, from, budget) && f.alive && f.key < ID_SPAN && left == LeftOf(budget, |f.calls|)
    requires Inv(r) && NameOver(f.s, f.key, from, left, r)
    ensures NamesCounted(Moved(f, e, r), from, budget)
  {
    OneCall(f, e, r, Failed(f.key, from, OnDnsFailure(Original(from.target), left != 0, true)));
  }

  lemma NamesCountedOn(f: Followed, e: Event, from: Origin, budget: int)
    requires NamesCounted(f, from, budget) && NamesFail(f, e)
    ensures NamesCounted(FollowOne(f, e), from, budget)
  {
    if f.Owns(e) {
      StepKeeps(f.s, e);
      var r := Step(f.s, e);
      var left := LeftOf(budget, |f.calls|);
      NameEvent(f, e, from, left);
      if NameOver(f.s, f.key, from, left, r) {
        NamesCountedAfter(f, e, from, budget, left, r);
      } else {
        Silent(f, e, r);
      }
    } else {
      NotItsEvent(f, e);
    }
  }

  /** A DNS connection whose lookups all fail makes one more of them than its budget,
      each reported once and with a retry for all but the last, and is gone exactly
      then, whatever happens in between. */
  lemma UnresolvedBudget(s: State, key: int, budget: int, events: seq<Event>)
    requires Inv(s) && key in s.connecting && Nameless(s, key, s.connecting[key].From(), budget)
    requires Allowed(NamesFail, Begun(s, key), events)
    ensures NamesCounted(Follow(Begun(s, key), events), s.connecting[key].From(), budget)
  {
    ObjectOk(s, key);
    var from := s.connecting[key].From();
    forall f, e | NamesCounted(f, from, budget) && NamesFail(f, e) ensures NamesCounted(FollowOne(f, e), from, budget) {
      NamesCountedOn(f, e, from, budget);
    }
    Kept(FollowOne, NamesFail, f => NamesCounted(f, from, budget), Begun(s, key), events);
  }

  // ----- the end is reached -----

  /** Ids remain for the lookups that are left. */
  ghost predicate NamesAffordable(f: Followed, from: Origin, budget: int) {
    && NamesCounted(f, from, budget) && budget >= 0
    && (f.alive ==> f.s.issued + budget - |f.calls| < ID_SPAN)
  }

  function NextNameFailure(f: Followed): Event {
    if Trying(f.s, f.key, Waiting) then ReconnectTimer(f.key, true) else ResolveFailed(f.key, true)
  }

  lemma NextNameNears(f: Followed, from: Origin, budget: int)
    requires NamesAffordable(f, from, budget) && f.alive
    ensures var e := NextNameFailure(f);
      && NamesFail(f, e) && NamesAffordable(FollowOne(f, e), from, budget)
      && FailuresLeft(FollowOne(f, e), budget) < FailuresLeft(f, budget)
  {
    var e := NextNameFailure(f);
    NamesCountedOn(f, e, from, budget);
    var left := LeftOf(budget, |f.calls|);
    var r := Step(f.s, e);
    if e.ReconnectTimer? {
      NameAskedAgain(f.s, f.key, from, left);
    } else {
      NameFails(f.s, f.key, from, left);
    }
    if NameOver(f.s, f.key, from, left, r) {
      OneCall(f, e, r, Failed(f.key, from, OnDnsFailure(Original(from.target), left != 0, true)));
    } else {
      Silent(f, e, r);
    }
  }

  /** And there are events that use the budget up, while ids remain. */
  lemma UnresolvedEnds(s: State, key: int, budget: nat) returns (events: seq<Event>)
    requires Inv(s) && key in s.connecting && Nameless(s, key, s.connecting[key].From(), budget)
    requires s.issued + budget < ID_SPAN
    ensures Allowed(NamesFail, Begun(s, key), events)
    ensures !Follow(Begun(s, key), events).alive
  {
    ObjectOk(s, key);
    var from := s.connecting[key].From();
    forall f | NamesAffordable(f, from, budget) && f.alive
      ensures NamesFail(f, NextNameFailure(f)) && NamesAffordable(FollowOne(f, NextNameFailure(f)), from, budget)
           && FailuresLeft(FollowOne(f, NextNameFailure(f)), budget) < FailuresLeft(f, budget)
    {
      NextNameNears(f, from, budget);
    }
    events := Reached(FollowOne, NamesFail, f => NamesAffordable(f, from, budget), (f: Followed) => !f.alive,
                      NextNameFailure, (f: Followed) => FailuresLeft(f, budget), Begun(s, key));
  }
}
