/** The calls the handler makes into its user's interface, and what a trace of
    such calls must look like. Every definition folds over the trace from its
    oldest call to its newest. */
module Protocol {
  import opened Connections

  /** What a failure report names: the request itself, or one resolved address. */
  datatype Endpoint = Original(target: Target) | Resolved(addr: Addr)

  /** Calls that carry a connection id, with the interface's answer where it gives one. */
  datatype ConnCall =
    | OnOutgoingConnection(answer: bool)
    | OnIncomingConnection(answer: bool)
    | OnReadyForFirstSend
    | OnReceiveMessages
    | OnWriteBufferFull
    | OnWriteBufferReady
    | OnBytesRead
    | OnBytesWritten
    | OnPingTimeout
    | OnMalformedMessage
    | OnDisconnected(persistent: bool, answer: bool)
  {
    /** The call that introduces an id: the offer of a new connection. */
    predicate IsOffer() {
      OnOutgoingConnection? || OnIncomingConnection?
    }

    predicate IsData() {
      !IsOffer() && !OnReadyForFirstSend? && !OnMalformedMessage? && !OnDisconnected?
    }
  }

  /** The three ways a connection attempt is reported as failed. */
  datatype FailureCall =
    | OnDnsFailure(failed: Endpoint, retry: bool, answer: bool)
    | OnProxyFailure(failed: Endpoint, retry: bool, answer: bool)
    | OnConnectionFailure(failed: Endpoint, resolved: Endpoint, retry: bool, answer: bool)

  /** Calls into the interface. The number of the attempt that failed, and what it
      was made for, are bookkeeping of the model: the interface is not told them. */
  datatype Callback =
    | OnStartup
    | OnShutdown
    | OnNeedOutgoingConnections(need: int)
    | OnBindFailure
    | OnDnsResponse(target: Target, results: seq<Addr>)
    | OnLookupFailure(target: Target, retry: bool, answer: bool)
    | Failed(attempt: int, from: Origin, report: FailureCall)
    | Of(id: int, call: ConnCall)
  {
    predicate Names(i: int) {
      Of? && id == i
    }

    predicate IsOffer() {
      Of? && call.IsOffer()
    }

    predicate IsAccept() {
      IsOffer() && call.answer
    }

    predicate IsDisconnect() {
      Of? && call.OnDisconnected?
    }

    predicate IsDnsFailure() {
      Failed? && report.OnDnsFailure?
    }

    /** A call that ends the connection attempt with number i. */
    predicate IsTerminalOf(i: int) {
      (Failed? && attempt == i) || (Of? && call.OnOutgoingConnection? && id == i)
    }
  }

  datatype Phase = Fresh | FirstSendDue | Open | DisconnectDue | Closed | Violation

  function NextNamed(p: Phase, call: ConnCall): Phase {
    match p
    case Fresh =>
      if call.OnOutgoingConnection? then (if call.answer then FirstSendDue else Closed)
      else if call.OnIncomingConnection? then (if call.answer then Open else Closed)
      else Violation
    case Open =>
      if call.IsData() then Open
      else if call.OnMalformedMessage? then DisconnectDue
      else if call.OnDisconnected? then Closed
      else Violation
    case _ => Violation
  }

  /** The protocol of one id as an automaton. FirstSendDue and DisconnectDue
      admit no other call at all, of whatever id. */
  function Next(p: Phase, cb: Callback, id: int): Phase {
    match p
    case FirstSendDue => if cb == Of(id, OnReadyForFirstSend) then Open else Violation
    case DisconnectDue => if cb.Names(id) && cb.IsDisconnect() then Closed else Violation
    case Violation => Violation
    case _ => if cb.Names(id) then NextNamed(p, cb.call) else p
  }

  function PhaseOf(trace: seq<Callback>, id: int): Phase {
    if trace == [] then Fresh
    else Next(PhaseOf(trace[..|trace| - 1], id), trace[|trace| - 1], id)
  }

  /** How many calls ended the attempt with this number. */
  function Terminals(trace: seq<Callback>, id: int): nat {
    if trace == [] then 0
    else Terminals(trace[..|trace| - 1], id) + if trace[|trace| - 1].IsTerminalOf(id) then 1 else 0
  }

  /** Connections the interface took, and disconnections it was told of. */
  function Accepts(trace: seq<Callback>): nat {
    if trace == [] then 0
    else Accepts(trace[..|trace| - 1]) +
         if trace[|trace| - 1].IsAccept() then 1 else 0
  }

  function Disconnects(trace: seq<Callback>): nat {
    if trace == [] then 0
    else Disconnects(trace[..|trace| - 1]) + if trace[|trace| - 1].IsDisconnect() then 1 else 0
  }

  datatype Life = Down | Running | BadLife

  /** OnStartup opens a run of the handler, OnShutdown closes it, and nothing is
      called outside a run. */
  function NextLife(l: Life, cb: Callback): Life {
    match l
    case Down => if cb.OnStartup? then Running else BadLife
    case Running => if cb.OnStartup? then BadLife else if cb.OnShutdown? then Down else Running
    case BadLife => BadLife
  }

  function LifeOf(trace: seq<Callback>): Life {
    if trace == [] then Down
    else NextLife(LifeOf(trace[..|trace| - 1]), trace[|trace| - 1])
  }

  /** One more call at the end of a trace moves every fold by one step. */
  lemma Extend(trace: seq<Callback>, cb: Callback, id: int)
    ensures PhaseOf(trace + [cb], id) == Next(PhaseOf(trace, id), cb, id)
    ensures Terminals(trace + [cb], id) == Terminals(trace, id) + if cb.IsTerminalOf(id) then 1 else 0
  {
    var t := trace + [cb];
    assert t[..|t| - 1] == trace && t[|t| - 1] == cb;
  }

  lemma ExtendCounts(trace: seq<Callback>, cb: Callback)
    ensures Accepts(trace + [cb]) == Accepts(trace) + if cb.IsAccept() then 1 else 0
    ensures Disconnects(trace + [cb]) == Disconnects(trace) + if cb.IsDisconnect() then 1 else 0
    ensures LifeOf(trace + [cb]) == NextLife(LifeOf(trace), cb)
  {
    var t := trace + [cb];
    assert t[..|t| - 1] == trace && t[|t| - 1] == cb;
  }

  predicate OfferAt(trace: seq<Callback>, i: nat, id: int)
    requires i < |trace|
  {
    trace[i].IsOffer() && trace[i].id == id
  }

  /** The call at position i ends the id: a disconnection or a refused offer. */
  predicate EndsAt(trace: seq<Callback>, i: nat, id: int)
    requires i < |trace|
  {
    trace[i].Names(id) && (trace[i].IsDisconnect() || (trace[i].IsOffer() && !trace[i].call.answer))
  }

  /** The rules of the interface for one id, in plain words, at one position. */
  ghost predicate Legal(trace: seq<Callback>, j: nat, id: int)
    requires j < |trace|
  {
    // an id comes up first in an offer, and is offered once
    && (OfferAt(trace, j, id) ==> forall i :: 0 <= i < j ==> !trace[i].Names(id))
    // any other call with the id needs an earlier accepted offer
    && (trace[j].Names(id) && !trace[j].IsOffer() ==>
          exists i :: 0 <= i < j && OfferAt(trace, i, id) && trace[i].call.answer)
    // nothing carries the id after a refusal or a disconnection
    && (trace[j].Names(id) ==> forall i :: 0 <= i < j ==> !EndsAt(trace, i, id))
    // the first-send notice comes right after an accepted outgoing offer, and only there
    && (trace[j] == Of(id, OnReadyForFirstSend) <==> 0 < j && trace[j - 1] == Of(id, OnOutgoingConnection(true)))
    // a malformed message is followed at once by the disconnection
    && (0 < j && trace[j - 1] == Of(id, OnMalformedMessage) ==> trace[j].Names(id) && trace[j].IsDisconnect())
  }

  ghost predicate Obeys(trace: seq<Callback>, id: int) {
    forall j :: 0 <= j < |trace| ==> Legal(trace, j, id)
  }

  /** The id was offered and taken, and has not ended. */
  ghost predicate Taken(trace: seq<Callback>, id: int) {
    && (exists i :: 0 <= i < |trace| && OfferAt(trace, i, id) && trace[i].call.answer)
    && forall i :: 0 <= i < |trace| ==> !EndsAt(trace, i, id)
  }

  /** What each phase of the automaton says about the trace behind it. */
  ghost predicate Remembers(trace: seq<Callback>, id: int, p: Phase) {
    var last := if trace == [] then OnStartup else trace[|trace| - 1];
    && (p == Fresh ==> forall i :: 0 <= i < |trace| ==> !trace[i].Names(id))
    && (p in {FirstSendDue, Open, DisconnectDue} ==> Taken(trace, id))
    && (p == Closed ==> exists i :: 0 <= i < |trace| && EndsAt(trace, i, id))
    && (p != Violation ==> (p == FirstSendDue <==> last == Of(id, OnOutgoingConnection(true))))
    && (p != Violation ==> (p == DisconnectDue <==> last == Of(id, OnMalformedMessage)))
  }

  lemma LastCall(t: seq<Callback>, cb: Callback, id: int)
    requires Remembers(t, id, PhaseOf(t, id))
    requires PhaseOf(t + [cb], id) != Violation
    ensures Remembers(t + [cb], id, PhaseOf(t + [cb], id))
    ensures Legal(t + [cb], |t|, id)
  {
    Extend(t, cb, id);
    var trace := t + [cb];
    forall i | 0 <= i < |t|
      ensures trace[i] == t[i] && OfferAt(trace, i, id) == OfferAt(t, i, id) && EndsAt(trace, i, id) == EndsAt(t, i, id)
    {
    }
    if cb.IsOffer() && cb.id == id {
      assert OfferAt(trace, |t|, id);
    } else if Taken(t, id) {
      var k :| 0 <= k < |t| && OfferAt(t, k, id) && t[k].call.answer;
      assert OfferAt(trace, k, id);
    }
    if PhaseOf(t, id) == Closed {
      var k :| 0 <= k < |t| && EndsAt(t, k, id);
      assert EndsAt(trace, k, id);
    } else if PhaseOf(trace, id) == Closed {
      assert EndsAt(trace, |t|, id);
    }
  }

  /** Legality of a position depends only on the calls up to it. */
  lemma PrefixLegal(trace: seq<Callback>, n: nat, j: nat, id: int)
    requires j < n <= |trace|
    ensures Legal(trace[..n], j, id) <==> Legal(trace, j, id)
  {
    var t := trace[..n];
    forall i | 0 <= i <= j
      ensures trace[i] == t[i] && OfferAt(trace, i, id) == OfferAt(t, i, id) && EndsAt(trace, i, id) == EndsAt(t, i, id)
    {
    }
    if exists i :: 0 <= i < j && OfferAt(t, i, id) && t[i].call.answer {
      var k :| 0 <= k < j && OfferAt(t, k, id) && t[k].call.answer;
      assert OfferAt(trace, k, id) && trace[k].call.answer;
    }
    if exists i :: 0 <= i < j && OfferAt(trace, i, id) && trace[i].call.answer {
      var k :| 0 <= k < j && OfferAt(trace, k, id) && trace[k].call.answer;
      assert OfferAt(t, k, id) && t[k].call.answer;
    }
  }

  /** A trace that never drives the automaton into Violation obeys the rules. */
  lemma {:induction false} AutomatonMeansProtocol(trace: seq<Callback>, id: int)
    requires PhaseOf(trace, id) != Violation
    ensures Obeys(trace, id)
    ensures Remembers(trace, id, PhaseOf(trace, id))
  {
    if trace != [] {
      var n := |trace| - 1;
      var t := trace[..n];
      assert trace == t + [trace[n]];
      AutomatonMeansProtocol(t, id);
      LastCall(t, trace[n], id);
      forall j | 0 <= j < n ensures Legal(trace, j, id) {
        PrefixLegal(trace, n, j, id);
      }
    }
  }

  lemma LastLegal(t: seq<Callback>, cb: Callback, id: int)
    requires PhaseOf(t, id) != Violation && Remembers(t, id, PhaseOf(t, id))
    requires Legal(t + [cb], |t|, id)
    ensures PhaseOf(t + [cb], id) != Violation
  {
    Extend(t, cb, id);
    var trace := t + [cb];
    forall i | 0 <= i < |t|
      ensures trace[i] == t[i] && OfferAt(trace, i, id) == OfferAt(t, i, id) && EndsAt(trace, i, id) == EndsAt(t, i, id)
    {
    }
    if Taken(t, id) {
      var k :| 0 <= k < |t| && OfferAt(t, k, id) && t[k].call.answer;
      assert trace[k].Names(id);
    }
    if PhaseOf(t, id) == Closed {
      var k :| 0 <= k < |t| && EndsAt(t, k, id);
      assert EndsAt(trace, k, id) && trace[k].Names(id);
    }
  }

  /** Conversely, a trace that obeys the rules never drives it there. */
  lemma {:induction false} ProtocolMeansAutomaton(trace: seq<Callback>, id: int)
    requires Obeys(trace, id)
    ensures PhaseOf(trace, id) != Violation
  {
    if trace != [] {
      var n := |trace| - 1;
      var t := trace[..n];
      assert trace == t + [trace[n]];
      forall j | 0 <= j < n ensures Legal(t, j, id) {
        assert Legal(trace, j, id);
        PrefixLegal(trace, n, j, id);
      }
      ProtocolMeansAutomaton(t, id);
      AutomatonMeansProtocol(t, id);
      LastLegal(t, trace[n], id);
    }
  }
}
