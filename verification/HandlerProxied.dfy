/** The retry budget of a proxied connection over its whole life. A direct or DNS
    connection gets its budget back when it succeeds; a proxied one does not. */
module HandlerProxied {
  import opened Connections
  import opened Protocol
  import opened HandlerModel
  import opened HandlerInvariant
  import opened HandlerRuns
  import opened HandlerIndependence
  import opened HandlerFollow
  import opened HandlerBudgets

  function Failures(calls: seq<Callback>): nat {
    if calls == [] then 0
    else Failures(calls[..|calls| - 1]) + if calls[|calls| - 1].Failed? then 1 else 0
  }

  lemma FailuresAppend(calls: seq<Callback>, cb: Callback)
    ensures Failures(calls + [cb]) == Failures(calls) + if cb.Failed? then 1 else 0
  {
    assert (calls + [cb])[..|calls|] == calls;
  }

  lemma {:induction false} NoFailuresAppend(calls: seq<Callback>, more: seq<Callback>)
    requires forall i :: 0 <= i < |more| ==> !more[i].Failed?
    ensures Failures(calls + more) == Failures(calls)
    decreases |more|
  {
    if more == [] {
      assert calls + more == calls;
    } else {
      var n := |more| - 1;
      NoFailuresAppend(calls, more[..n]);
      FailuresAppend(calls + more[..n], more[n]);
      assert calls + more[..n] + [more[n]] == calls + more;
    }
  }

  /** Calls that report no failure. */
  predicate NoFailures(s: State, r: State) {
    && s.trace <= r.trace
    && forall i {:trigger r.trace[i]} :: |s.trace| <= i < |r.trace| ==> !r.trace[i].Failed? && !r.trace[i].OnLookupFailure?
  }

  lemma DisconnectNoFailures(s: State, c: Conn, answer: bool)
    requires c.id in s.connected
    ensures NoFailures(s, DisconnectInt(s, c, answer))
  {
  }

  lemma ReadNoFailures(s: State, c: Conn, some: bool, malformed: bool, answer: bool)
    requires c.id in s.connected
    ensures NoFailures(s, ReadMessagesCb(s, c, some, malformed, answer))
  {
    if malformed {
      var s1 := if some then Log(s, Of(c.id, OnReceiveMessages)) else s;
      DisconnectNoFailures(Log(s1, Of(c.id, OnMalformedMessage)), c, answer);
    }
  }

  /** The object is trying, or established, with so many retries left. */
  predicate ProxiedObject(s: State, key: int, from: Origin, left: int) {
    && from.kind == Proxied
    && (key in s.connecting ==> s.connecting[key].From() == from && s.connecting[key].retries == left)
    && (key in s.connected ==> s.connected[key].From() == from && s.connected[key].retries == left)
    && (key in s.connecting || key in s.connected)
  }

  /** If anything is held by the id, it is the object. */
  predicate IfHeld(s: State, key: int, from: Origin, left: int) {
    Held(s, key) ==> ProxiedObject(s, key, from, left)
  }

  /** No failure is reported, and the retries stay; or one is, the only call, and one
      of those that are left is taken. */
  predicate NoneSpent(s: State, key: int, from: Origin, left: int, next: int, r: State) {
    NoFailures(s, r) && s.issued <= r.issued && IfHeld(r, key, from, left) && IfHeld(r, next, from, left)
  }

  predicate OneSpent(s: State, key: int, from: Origin, left: int, next: int, r: State) {
    && |r.trace| == |s.trace| + 1 && r.trace == s.trace + [r.trace[|s.trace|]] && r.trace[|s.trace|].Failed?
    && s.issued <= r.issued && !Held(r, key) && IfHeld(r, next, from, LeftOf(left, 1)) && (left == 0 ==> !Held(r, next))
  }

  /** A failed attempt, with or without a retry. */
  lemma FailureSpends(s: State, c: Conn, t: FailureType, mayRetry: bool, answer: bool, next: int)
    requires Inv(s) && s.running && !s.shutdown && s.issued < ID_SPAN && next == s.issued
    requires c.id in s.connecting && s.connecting[c.id] == c && c.kind == Proxied
    requires mayRetry ==> c.retries != 0
    ensures OneSpent(s, c.id, c.From(), c.retries, next,
                     FailConnection(s, c.(retries := Spend(c.retries).0), t, Original(c.target), mayRetry, answer))
  {
    ObjectOk(s, c.id);
    ObjectOk(s, next);
  }

  lemma IneligibleEnds(s: State, c: Conn, answer: bool, next: int)
    requires Inv(s) && s.running && !s.shutdown && next == s.issued
    requires c.id in s.connecting && s.connecting[c.id] == c && c.kind == Proxied
    ensures OneSpent(s, c.id, c.From(), c.retries, next, FailConnection(s, c, PROXY, Original(c.target), false, answer))
  {
    ObjectOk(s, c.id);
    ObjectOk(s, next);
  }

  lemma StoredKeeps(s: State, c: Conn, stage: Stage, next: int)
    requires Inv(s) && c.id in s.connecting && s.connecting[c.id] == c && c.kind == Proxied && next == s.issued
    ensures NoneSpent(s, c.id, c.From(), c.retries, next, Update(s, c.(stage := stage)))
  {
    ObjectOk(s, c.id);
    ObjectOk(s, next);
  }

  lemma SuccessKeeps(s: State, c: Conn, answer: bool, next: int)
    requires Inv(s) && c.id in s.connecting && s.connecting[c.id] == c && c.kind == Proxied && next == s.issued
    ensures NoneSpent(s, c.id, c.From(), c.retries, next, ProxySuccess(s, c, answer))
  {
    ObjectOk(s, c.id);
    ObjectOk(s, next);
  }

  /** The object is established under this id alone, and the next one is free. */
  ghost predicate EstablishedAlone(s: State, c: Conn, key: int, next: int) {
    && AllocatorOk(s) && s.issued < ID_SPAN && next == s.issued && !Held(s, next)
    && c.id == key && key in s.connected && s.connected[key] == c && c.kind == Proxied
    && key !in s.connecting && key !in s.resolves && key !in s.binds
  }

  lemma DisconnectKeeps(s: State, c: Conn, answer: bool, key: int, next: int)
    requires EstablishedAlone(s, c, key, next)
    ensures NoneSpent(s, key, c.From(), c.retries, next, DisconnectInt(s, c, answer))
  {
    DisconnectNoFailures(s, c, answer);
  }

  lemma ReadKeeps(s: State, c: Conn, some: bool, malformed: bool, answer: bool, key: int, next: int)
    requires malformed ==> EstablishedAlone(s, c, key, next)
    requires c.id == key && key in s.connected && s.connected[key] == c && c.kind == Proxied
    requires key !in s.connecting && !Held(s, next)
    ensures NoneSpent(s, key, c.From(), c.retries, next, ReadMessagesCb(s, c, some, malformed, answer))
  {
    ReadNoFailures(s, c, some, malformed, answer);
    if malformed {
      var s1 := if some then Log(s, Of(c.id, OnReceiveMessages)) else s;
      DisconnectKeeps(Log(s1, Of(c.id, OnMalformedMessage)), c, answer, key, next);
    }
  }

  /** Events of the object while it is trying. */
  lemma TryingSpends(s: State, e: Event, from: Origin, left: int, next: int)
    requires Inv(s) && Enabled(s, e) && e.IsTrying() && ProxiedObject(s, e.key, from, left) && next == s.issued
    ensures var r := Step(s, e); NoneSpent(s, e.key, from, left, next, r) || OneSpent(s, e.key, from, left, next, r)
  {
    ObjectOk(s, e.key);
    var c := s.connecting[e.key];
    match e
    case ConnectDone(_, ok, answer) =>
      if ok {
        StoredKeeps(s, c, Handshaking, next);
      } else {
        FailureSpends(s, c, PROXY, Spend(c.retries).1, answer, next);
      }
    case ProxyDone(_, ok, answer) =>
      if ok {
        SuccessKeeps(s, c, answer, next);
      } else {
        FailureSpends(s, c, CONNECT, Spend(c.retries).1, answer, next);
      }
    case ReconnectTimer(_, answer) =>
      StoredKeeps(s, c, Connecting, next);
      IneligibleEnds(s, c, answer, next);
  }

  /** Events of the object while it is established. */
  lemma ServingKeeps(s: State, e: Event, from: Origin, left: int, next: int)
    requires Inv(s) && Enabled(s, e) && e.IsServing() && ProxiedObject(s, e.key, from, left) && next == s.issued
    ensures NoneSpent(s, e.key, from, left, next, Step(s, e))
  {
    ObjectOk(s, e.key);
    ObjectOk(s, next);
    var c := s.connected[e.key];
    match e
    case ReadMessages(key, some, malformed, answer) => ReadKeeps(s, c, some, malformed, answer, key, next);
    case Disconnect(key, answer) => DisconnectKeeps(s, c, answer, key, next);
    case DataNotice(_, _) =>
  }

  // ----- followed -----

  /** Anything may happen to the object, short of a shutdown. */
  predicate NoShutdown(f: Followed, e: Event) {
    !e.ShutdownRequest?
  }

  /** As long as the object is there, its retries left and its failures, before and
      after any success, add up to its budget. */
  ghost predicate NotRestored(f: Followed, from: Origin, budget: int) {
    && Inv(f.s) && 0 <= f.key < f.s.issued
    && if f.alive then
         && ProxiedObject(f.s, f.key, from, LeftOf(budget, Failures(f.calls)))
         && (budget >= 0 ==> Failures(f.calls) <= budget)
       else !Held(f.s, f.key)
  }

  lemma NoneSpentOn(f: Followed, e: Event, from: Origin, budget: int, r: State)
    requires NotRestored(f, from, budget) && f.alive && Inv(r)
    requires NoneSpent(f.s, f.key, from, LeftOf(budget, Failures(f.calls)), f.s.issued, r)
    ensures NotRestored(Moved(f, e, r), from, budget)
  {
    ObjectOk(r, f.s.issued);
    var made := NewCalls(f.s, r);
    forall i | 0 <= i < |made| ensures !made[i].Failed? {
      assert made[i] == r.trace[|f.s.trace| + i];
    }
    NoFailuresAppend(f.calls, made);
  }

  lemma OneSpentOn(f: Followed, e: Event, from: Origin, budget: int, next: int, cb: Callback, r: State)
    requires NotRestored(f, from, budget) && f.alive && Inv(r)
    requires next == f.s.issued && |r.trace| == |f.s.trace| + 1 && cb == r.trace[|f.s.trace|]
    requires OneSpent(f.s, f.key, from, LeftOf(budget, Failures(f.calls)), next, r)
    ensures NotRestored(Moved(f, e, r), from, budget)
  {
    ObjectOk(r, next);
    OneCall(f, e, r, cb);
    FailuresAppend(f.calls, cb);
    var g := Moved(f, e, r);
    assert Failures(g.calls) == Failures(f.calls) + 1;
    if Held(r, next) {
      assert g.alive && g.key == next;
      assert LeftOf(LeftOf(budget, Failures(f.calls)), 1) == LeftOf(budget, Failures(g.calls));
    } else {
      assert !g.alive && g.key == f.key;
    }
  }

  lemma NotRestoredOn(f: Followed, e: Event, from: Origin, budget: int)
    requires NotRestored(f, from, budget) && NoShutdown(f, e)
    ensures NotRestored(FollowOne(f, e), from, budget)
  {
    if !f.Owns(e) {
      NotItsEvent(f, e);
    } else {
      ObjectOk(f.s, f.key);
      StepKeeps(f.s, e);
      var r := Step(f.s, e);
      var left := LeftOf(budget, Failures(f.calls));
      if !Enabled(f.s, e) {
        Silent(f, e, r);
      } else {
        if e.IsTrying() {
          TryingSpends(f.s, e, from, left, f.s.issued);
        } else {
          assert e.IsServing();
          ServingKeeps(f.s, e, from, left, f.s.issued);
        }
        if OneSpent(f.s, f.key, from, left, f.s.issued, r) {
          OneSpentOn(f, e, from, budget, f.s.issued, r.trace[|f.s.trace|], r);
        } else {
          NoneSpentOn(f, e, from, budget, r);
        }
      }
    }
  }

  /** A proxied connection, through any events but a shutdown, its own successes,
      disconnections and reconnections among them: what it has left is its budget less
      all its failures. No success gives anything back, and so an established one has
      all of a budget that is not negative exactly if it has never failed. */
  lemma ProxiedBudget(s: State, key: int, budget: int, events: seq<Event>)
    requires Inv(s) && key in s.connecting && s.connecting[key].kind == Proxied && s.connecting[key].retries == budget
    requires Allowed(NoShutdown, Begun(s, key), events)
    ensures NotRestored(Follow(Begun(s, key), events), s.connecting[key].From(), budget)
  {
    ObjectOk(s, key);
    var from := s.connecting[key].From();
    forall f, e | NotRestored(f, from, budget) && NoShutdown(f, e) ensures NotRestored(FollowOne(f, e), from, budget) {
      NotRestoredOn(f, e, from, budget);
    }
    Kept(FollowOne, NoShutdown, f => NotRestored(f, from, budget), Begun(s, key), events);
  }
}
