/** One connection object followed through any events of the handler: under the id
    it is held by now, whatever happens to the other objects in between. */
module HandlerFollow {
  import opened Connections
  import opened Protocol
  import opened HandlerModel
  import opened HandlerInvariant
  import opened HandlerRuns
  import opened HandlerIndependence

  /** The handler, the id an object is held by (or was held by last), the calls its
      own events made, and for each event that made some, the event. */
  datatype Followed = Followed(s: State, key: int, alive: bool, calls: seq<Callback>, causes: seq<Event>)
  {
    predicate Owns(e: Event) {
      alive && Owner(e) == key
    }
  }

  function Begun(s: State, key: int): Followed {
    Followed(s, key, true, [], [])
  }

  predicate Held(s: State, key: int) {
    key in s.connecting || key in s.connected || key in s.resolves || key in s.binds
  }

  function NewCalls(s: State, r: State): seq<Callback> {
    if |s.trace| <= |r.trace| then r.trace[|s.trace|..] else []
  }

  /** After an event of its own the object is held as before, or by the id that was
      next, or no more. */
  function Moved(f: Followed, e: Event, r: State): Followed {
    var made := NewCalls(f.s, r);
    var g := f.(s := r, calls := f.calls + made, causes := f.causes + if made == [] then [] else [e]);
    if Held(r, f.key) then g
    else if Held(r, f.s.issued) then g.(key := f.s.issued)
    else g.(alive := false)
  }

  ghost function FollowOne(f: Followed, e: Event): Followed {
    if !Inv(f.s) then f
    else if f.Owns(e) then Moved(f, e, Step(f.s, e))
    else f.(s := Step(f.s, e))
  }

  ghost function Fold(step: (Followed, Event) -> Followed, f: Followed, events: seq<Event>): Followed
    decreases |events|
  {
    if events == [] then f else Fold(step, step(f, events[0]), events[1..])
  }

  ghost function Follow(f: Followed, events: seq<Event>): Followed {
    Fold(FollowOne, f, events)
  }

  /** Every event is allowed at the point where it comes. */
  ghost predicate Along(step: (Followed, Event) -> Followed, ok: (Followed, Event) -> bool, f: Followed, events: seq<Event>)
    decreases |events|
  {
    events == [] || (ok(f, events[0]) && Along(step, ok, step(f, events[0]), events[1..]))
  }

  ghost predicate Allowed(ok: (Followed, Event) -> bool, f: Followed, events: seq<Event>) {
    Along(FollowOne, ok, f, events)
  }

  /** What every allowed event keeps holds at the end. */
  lemma {:induction false} Kept(step: (Followed, Event) -> Followed, ok: (Followed, Event) -> bool, p: Followed -> bool,
                                f: Followed, events: seq<Event>)
    requires p(f) && Along(step, ok, f, events)
    requires forall g, e :: p(g) && ok(g, e) ==> p(step(g, e))
    ensures p(Fold(step, f, events))
    decreases |events|
  {
    if events != [] {
      Kept(step, ok, p, step(f, events[0]), events[1..]);
    }
  }

  lemma FollowStep(f: Followed, e: Event)
    requires Inv(f.s)
    ensures FollowOne(f, e).s == Step(f.s, e) && Inv(Step(f.s, e))
  {
    StepKeeps(f.s, e);
  }

  lemma RunHead(s: State, e: Event, events: seq<Event>, r: State)
    requires Inv(s) && Inv(r) && events != [] && e == events[0] && r == Step(s, e)
    ensures Run(s, events) == Run(r, events[1..])
  {
  }

  lemma FoldHead(step: (Followed, Event) -> Followed, f: Followed, e: Event, events: seq<Event>)
    requires events != [] && e == events[0]
    ensures Fold(step, f, events) == Fold(step, step(f, e), events[1..])
  {
  }

  lemma FollowHead(f: Followed, events: seq<Event>, g: Followed)
    requires Inv(f.s) && events != [] && g == FollowOne(f, events[0])
    ensures Inv(g.s) && Run(f.s, events) == Run(g.s, events[1..])
    ensures Follow(f, events) == Follow(g, events[1..])
  {
    FollowStep(f, events[0]);
    RunHead(f.s, events[0], events, g.s);
    FoldHead(FollowOne, f, events[0], events);
  }

  /** The object is followed through the run, not through one of its own. */
  lemma {:induction false} FollowsTheRun(f: Followed, events: seq<Event>)
    requires Inv(f.s)
    ensures Follow(f, events).s == Run(f.s, events)
    decreases |events|
  {
    if events == [] {
      assert Run(f.s, events) == f.s;
    } else {
      var g := FollowOne(f, events[0]);
      FollowHead(f, events, g);
      FollowsTheRun(g, events[1..]);
    }
  }

  /** So a run that began before the object was followed goes on as it would have. */
  lemma FollowsEveryRun(before: seq<Event>, key: int, events: seq<Event>)
    ensures Inv(BOOT)
    ensures Follow(Begun(Run(BOOT, before), key), events).s == Run(BOOT, before + events)
  {
    BootOk();
    FollowsTheRun(Begun(Run(BOOT, before), key), events);
    RunConcat(BOOT, before, events);
  }

  /** A state of affairs that is reached: a way to choose the next event, allowed and
      bringing it nearer, leads there. */
  lemma {:induction false} Reached(step: (Followed, Event) -> Followed, ok: (Followed, Event) -> bool, p: Followed -> bool,
                                   done: Followed -> bool, next: Followed -> Event, far: Followed -> nat, f: Followed)
    returns (events: seq<Event>)
    requires p(f)
    requires forall g :: p(g) && !done(g) ==> ok(g, next(g)) && p(step(g, next(g))) && far(step(g, next(g))) < far(g)
    ensures Along(step, ok, f, events) && p(Fold(step, f, events)) && done(Fold(step, f, events))
    decreases far(f)
  {
    if done(f) {
      events := [];
    } else {
      var e := next(f);
      var rest := Reached(step, ok, p, done, next, far, step(f, e));
      events := [e] + rest;
      assert events[1..] == rest;
    }
  }

  // ----- what an event can do to the object that is followed -----

  /** The handler is up and n ids remain. */
  ghost predicate Ready(s: State, n: nat) {
    Inv(s) && s.running && !s.shutdown && s.issued + n <= ID_SPAN
  }

  /** Everything but the connecting map, the trace and the id bookkeeping. */
  predicate SameElsewhere(s: State, r: State) {
    r == s.(connecting := r.connecting, trace := r.trace, index := r.index, issued := r.issued, placed := r.placed)
  }

  /** A failed attempt that may retry moves its object to the next id. */
  lemma FailAndRequeue(s: State, c: Conn, t: FailureType, failed: Endpoint, mayRetry: bool)
    requires Ready(s, 1) && c.id in s.connecting && c.(stage := Waiting).TryingOk()
    ensures var r := FailConnection(s, c, t, failed, mayRetry, true);
      && Inv(r) && SameElsewhere(s, r)
      && r.trace == s.trace + [Failed(c.id, c.From(), FailureReport(t, failed, mayRetry, true))]
      && r.issued == s.issued + (if mayRetry then 1 else 0)
      && r.connecting == if mayRetry then (s.connecting - {c.id})[s.issued := c.(id := s.issued, stage := Waiting)]
                         else s.connecting - {c.id}
  {
    var cb := Failed(c.id, c.From(), FailureReport(t, failed, mayRetry, true));
    RemoveTrying(s, c.id, cb);
    if mayRetry {
      RequeueKeeps(Log(Remove(s, c), cb), c);
    }
  }

  lemma Silent(f: Followed, e: Event, r: State)
    requires f.alive && r.trace == f.s.trace && Held(r, f.key)
    ensures Moved(f, e, r) == f.(s := r)
  {
    assert f.calls + [] == f.calls && f.causes + [] == f.causes;
  }

  lemma OneCall(f: Followed, e: Event, r: State, cb: Callback)
    requires r.trace == f.s.trace + [cb]
    ensures NewCalls(f.s, r) == [cb]
    ensures var g := Moved(f, e, r); g.s == r && g.calls == f.calls + [cb] && g.causes == f.causes + [e]
  {
    assert r.trace[|f.s.trace|..] == [cb];
  }

  /** Events of others leave the object as it is, and an id that is given up is not
      used again. */
  lemma NotItsEvent(f: Followed, e: Event)
    requires Inv(f.s) && 0 <= f.key < f.s.issued && !e.ShutdownRequest?
    requires !f.Owns(e) && (!f.alive ==> !Held(f.s, f.key))
    ensures Inv(Step(f.s, e)) && Untouched(f.s, Step(f.s, e), f.key)
  {
    StepKeeps(f.s, e);
    if Owner(e) == f.key {
      assert !Enabled(f.s, e);
    } else {
      OthersUntouched(f.s, e, f.key);
    }
  }
}
