/** What holds of every run of the handler, for any number of starts and
    shutdowns, any peers and any answers of the interface. */
module HandlerTheorems {
  import opened Connections
  import opened Protocol
  import opened HandlerModel
  import opened HandlerInvariant
  import opened HandlerRuns
  import opened Widths

  /** The interface sees a legal life for every id. */
  lemma EveryRunObeysProtocol(events: seq<Event>, id: int)
    ensures Inv(BOOT) && Obeys(Run(BOOT, events).trace, id)
  {
    BootOk();
    var s := Run(BOOT, events);
    assert IdOk(s, id);
    AutomatonMeansProtocol(s.trace, id);
  }

  /** At every event boundary a key is in one map, was issued and is the id its
      object carries, only outgoing objects are connecting, and the counters
      are the numbers of outgoing and incoming connections. */
  lemma EveryRunKeepsBooks(events: seq<Event>)
    ensures Inv(BOOT)
    ensures var s := Run(BOOT, events);
      && (forall id :: KeyOk(s, id))
      && s.outgoing == |OutgoingKeys(s.connected)|
      && s.incoming == |IncomingKeys(s.connected)|
  {
    BootOk();
    var s := Run(BOOT, events);
    forall id ensures KeyOk(s, id) {
      assert IdOk(s, id);
    }
  }

  /** Outgoing slots are never overdrawn, and a request asks for and starts no
      more than the free slots, at most eight, whatever the interface returns:
      under any limit that is not negative, and under no other. */
  lemma EveryRunKeepsSlots(events: seq<Event>, candidates: seq<Candidate>)
    ensures Inv(BOOT)
    ensures var s := Run(BOOT, events);
      && (-INT_MAX <= Free(s) <= INT_MAX ==> (Need(s) == Capped(s) <==> s.limit >= 0))
      && (s.limit >= 0 ==>
            && s.outgoing + |s.connecting| <= s.limit
            && |Chosen(s, candidates)| <= Need(s) == Capped(s)
            && (s.running && !s.shutdown && s.issued + 2 * |Chosen(s, candidates)| <= ID_SPAN ==>
                  var r := RequestOutgoing(s, candidates);
                  r.outgoing == s.outgoing && |r.connecting| <= |s.connecting| + Capped(s)))
  {
    BootOk();
    var s := Run(BOOT, events);
    if -INT_MAX <= Free(s) <= INT_MAX {
      NeedIsCappedFreeSlots(s);
    }
    if s.limit >= 0 {
      NeedWithinSlots(s);
    }
    if s.running && !s.shutdown && s.issued + 2 * |Chosen(s, candidates)| <= ID_SPAN {
      RequestOutgoingKeeps(s, candidates);
    }
  }

  /** Started with a limit of -1 the handler asks for -1 connections, takes 2^64 - 1,
      and starts every candidate it is given. */
  lemma NegativeLimit(candidates: seq<Candidate>)
    requires |candidates| < SIZE_T_SPAN - 1
    ensures Inv(BOOT)
    ensures var s := Run(BOOT, [Startup(-1)]);
      ToInt(Need(s)) == -1 && Need(s) == SIZE_T_SPAN - 1 && Chosen(s, candidates) == candidates
  {
    BootOk();
    RunOne(BOOT, Startup(-1));
    NegativeAsSize(-1);
    assert Enabled(BOOT, Startup(-1));
  }

  /** Every outgoing attempt ends exactly once, and until then it is connecting. */
  lemma EveryAttemptEndsOnce(events: seq<Event>, id: int)
    ensures Inv(BOOT)
    ensures var s := Run(BOOT, events);
      id in s.placed ==> Terminals(s.trace, id) == if id in s.connecting then 0 else 1
  {
    BootOk();
    assert IdOk(Run(BOOT, events), id);
  }

  /** In every run: a negative budget is never used up, of a connection or of a lookup;
      a budget of n >= 0 stays within 0..n; and an established direct or DNS connection
      has all of it. */
  lemma EveryRunKeepsBudgets(events: seq<Event>, key: int)
    ensures Inv(BOOT)
    ensures var s := Run(BOOT, events);
      && (key in s.connecting && s.connecting[key].target.nRetries < 0 ==>
            s.connecting[key].retries == s.connecting[key].target.nRetries)
      && (key in s.connecting && s.connecting[key].target.nRetries >= 0 ==>
            0 <= s.connecting[key].retries <= s.connecting[key].target.nRetries)
      && (key in s.resolves ==> BudgetLeft(s.resolves[key].retries, s.resolves[key].target.nRetries))
      && (key in s.connected && s.connected[key].kind in {Direct, Dns} ==>
            s.connected[key].retries == s.connected[key].target.nRetries)
  {
    BootOk();
    assert IdOk(Run(BOOT, events), key);
  }

  // ----- lifetime -----

  /** OnStartup is the first call of a run of the handler and OnShutdown the last. */
  ghost predicate Bracketed(trace: seq<Callback>) {
    forall j {:trigger trace[j]} :: 0 <= j < |trace| ==> (trace[j].OnStartup? <==> j == 0 || trace[j - 1].OnShutdown?)
  }

  lemma {:induction false} LifeMeansBracketed(trace: seq<Callback>)
    requires LifeOf(trace) != BadLife
    ensures Bracketed(trace)
    ensures LifeOf(trace) == Down <==> trace == [] || trace[|trace| - 1].OnShutdown?
  {
    if trace != [] {
      var n := |trace| - 1;
      LifeMeansBracketed(trace[..n]);
      forall j | 0 <= j <= n ensures trace[j].OnStartup? <==> j == 0 || trace[j - 1].OnShutdown? {
        if j < n {
          assert trace[..n][j] == trace[j];
        }
      }
    }
  }

  lemma EveryRunIsBracketed(events: seq<Event>) returns (s: State)
    ensures Inv(BOOT) && s == Run(BOOT, events)
    ensures Bracketed(s.trace)
    ensures !s.running <==> s.trace == [] || s.trace[|s.trace| - 1].OnShutdown?
  {
    BootOk();
    s := Run(BOOT, events);
    LifeMeansBracketed(s.trace);
  }

  ghost predicate AcceptAt(trace: seq<Callback>, i: nat, id: int) {
    i < |trace| && trace[i].Names(id) && trace[i].IsAccept()
  }

  ghost predicate DisconnectAt(trace: seq<Callback>, i: nat, id: int) {
    i < |trace| && trace[i].Names(id) && trace[i].IsDisconnect()
  }

  lemma ClosedAfterAccept(trace: seq<Callback>, i: nat, id: int)
    requires PhaseOf(trace, id) in {Fresh, Closed}
    requires AcceptAt(trace, i, id)
    ensures exists j :: j > i && DisconnectAt(trace, j, id)
  {
    AutomatonMeansProtocol(trace, id);
    var k :| 0 <= k < |trace| && EndsAt(trace, k, id);
    assert Legal(trace, i, id) && Legal(trace, k, id);
    assert OfferAt(trace, i, id);
    if trace[k].IsOffer() {
      assert OfferAt(trace, k, id);
    }
    assert DisconnectAt(trace, k, id);
  }

  /** Once the handler is down again, everything taken was given back: as many
      disconnections as accepted connections, a later disconnection for each of
      them, and one end for each outgoing attempt. */
  lemma ShutdownGivesEverythingBack(events: seq<Event>)
    ensures Inv(BOOT)
    ensures var s := Run(BOOT, events);
      !s.running ==>
        && Accepts(s.trace) == Disconnects(s.trace)
        && s.outgoing == 0 && s.incoming == 0
        && (forall id :: id in s.placed ==> Terminals(s.trace, id) == 1)
        && (forall i, id :: AcceptAt(s.trace, i, id) ==> exists j :: j > i && DisconnectAt(s.trace, j, id))
  {
    BootOk();
    var s := Run(BOOT, events);
    if !s.running {
      assert OutgoingKeys(s.connected) == {} && IncomingKeys(s.connected) == {};
      forall id | id in s.placed ensures Terminals(s.trace, id) == 1 {
        assert IdOk(s, id);
      }
      forall i, id | AcceptAt(s.trace, i, id) ensures exists j :: j > i && DisconnectAt(s.trace, j, id) {
        assert IdOk(s, id);
        ClosedAfterAccept(s.trace, i, id);
      }
    }
  }

  lemma ShutdownLast(s: State)
    requires Inv(s) && s.running && !s.shutdown
    ensures Step(s, ShutdownRequest) == ShutdownInt(s) && Inv(ShutdownInt(s))
    ensures Step(ShutdownInt(s), PumpEnd) == FinishShutdown(ShutdownInt(s))
    ensures var r := FinishShutdown(ShutdownInt(s));
      && !r.running && r.trace[|r.trace| - 1] == OnShutdown
      && r.connected == map[] && r.connecting == map[] && r.resolves == map[] && r.binds == {}
      && Accepts(r.trace) == Disconnects(r.trace)
  {
    ShutdownIntKeeps(s);
    FinishShutdownKeeps(ShutdownInt(s));
  }

  /** A shutdown request always leads to OnShutdown, with every map empty. */
  lemma ShutdownCompletes(s: State) returns (r: State)
    requires Inv(s) && s.running && !s.shutdown
    ensures r == Run(s, [ShutdownRequest, PumpEnd])
    ensures !r.running && r.trace != [] && r.trace[|r.trace| - 1] == OnShutdown
    ensures r.connected == map[] && r.connecting == map[] && r.resolves == map[] && r.binds == {}
    ensures Accepts(r.trace) == Disconnects(r.trace)
  {
    StepKeeps(s, ShutdownRequest);
    RunTwo(s, ShutdownRequest, PumpEnd);
    r := Step(Step(s, ShutdownRequest), PumpEnd);
    ShutdownLast(s);
  }
}
