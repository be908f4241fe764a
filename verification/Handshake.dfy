/** The SOCKS5 handshake as it happens, against the same handshake read off all
    the bytes the server sends. */
module Handshake {
  import opened Bits
  import opened Framing
  import opened Socks5
  import opened Widths
  import opened Wrappers

  /** A proxied connection: what it asks for, its credentials, and whether the
      platform's plain char is signed. */
  datatype Client = Client(request: Request, authSet: bool, username: Bytes, password: Bytes, signedChar: bool)
  {
    predicate Valid() {
      request.Valid()
    }
  }

  function Greeting(c: Client): Bytes {
    if c.authSet then [5, 2, 2, 0] else [5, 1, 0]
  }

  // ----- the handshake on all the bytes of the server -----

  /** What is written in answer to the server's bytes, and how it ends. */
  datatype Talk = Talk(written: Bytes, outcome: Outcome)

  function After(written: Bytes, t: Talk): Talk {
    Talk(written + t.written, t.outcome)
  }

  function SendRequest(c: Client, s: Bytes): Talk
    requires c.Valid()
  {
    match RequestBytes(c.request)
    case None => Talk([], Failure)
    case Some(bytes) => Talk(bytes, ReplyOutcome(c.signedChar, c.request.Resolving(), s))
  }

  function AuthSent(c: Client, s: Bytes): Talk
    requires c.Valid()
  {
    if |s| < 2 then Talk([], NeedMore(2))
    else if s[0] != 1 && s[1] != 0 then Talk([], Failure)
    else SendRequest(c, s[2..])
  }

  function GreetingSent(c: Client, s: Bytes): Talk
    requires c.Valid()
  {
    if |s| < 2 then Talk([], NeedMore(2))
    else if s[0] != 5 then Talk([], Failure)
    else if s[1] != 2 then SendRequest(c, s[2..])
    else
      match AuthBytes(c.username, c.password)
      case None => Talk([], Failure)
      case Some(bytes) => After(bytes, AuthSent(c, s[2..]))
  }

  /** The whole handshake. */
  function Negotiated(c: Client, s: Bytes): Talk
    requires c.Valid()
  {
    After(Greeting(c), GreetingSent(c, s))
  }

  // ----- the handshake as it happens -----

  /** Which callback reads next, or none any more. */
  datatype Stage = ReceiveInit | CheckAuth | ReadFinal | Over

  /** What the owner of the handshake is told. */
  datatype ProxyCall = OnProxySuccess(resolved: Bytes) | OnProxyFailure

  /** read is what was taken out of the input so far. */
  datatype Machine = Machine(stage: Stage, read: Bytes, input: Bytes, low: int, output: Bytes,
                             calls: seq<ProxyCall>, lost: bool)
  {
    function Received(): Bytes {
      read + input
    }
  }

  function Begun(c: Client): Machine {
    Machine(ReceiveInit, [], [], 2, Greeting(c), [], false)
  }

  function Fail(m: Machine): Machine {
    m.(stage := Over, calls := m.calls + [OnProxyFailure])
  }

  function Take(m: Machine, n: nat): Machine
    requires n <= |m.input|
  {
    m.(read := m.read + m.input[..n], input := m.input[n..])
  }

  /** Ask for the connection and wait for the reply. */
  function WriteProto(c: Client, m: Machine): Machine
    requires c.Valid()
  {
    match RequestBytes(c.request)
    case None => Fail(m)
    case Some(bytes) => m.(stage := ReadFinal, low := 8, output := m.output + bytes)
  }

  function WriteAuth(c: Client, m: Machine): Machine {
    match AuthBytes(c.username, c.password)
    case None => Fail(m)
    case Some(bytes) => m.(stage := CheckAuth, low := 2, output := m.output + bytes)
  }

  /** Any method but username and password is taken for none, and credentials are
      sent even if none were set. */
  function ReceiveInitCb(c: Client, m: Machine): Machine
    requires c.Valid()
  {
    if |m.input| < 2 then Fail(Take(m, |m.input|))
    else if m.input[0] != 5 then Fail(Take(m, 2))
    else if m.input[1] == 2 then WriteAuth(c, Take(m, 2))
    else WriteProto(c, Take(m, 2))
  }

  function CheckAuthCb(c: Client, m: Machine): Machine
    requires c.Valid()
  {
    if |m.input| < 2 then Fail(Take(m, |m.input|))
    else if m.input[0] != 1 && m.input[1] != 0 then Fail(Take(m, 2))
    else WriteProto(c, Take(m, 2))
  }

  function ReadFinalCb(c: Client, m: Machine): Machine
    requires c.Valid()
  {
    match ReplyOutcome(c.signedChar, c.request.Resolving(), m.input)
    case NeedMore(mark) => m.(low := mark)
    case Failure => Fail(m)
    case Success(rest, resolved) =>
      Take(m, |m.input| - |rest|).(stage := Over, calls := m.calls + [OnProxySuccess(resolved)])
  }

  function Callback(c: Client, m: Machine): Machine
    requires c.Valid()
  {
    match m.stage
    case ReceiveInit => ReceiveInitCb(c, m)
    case CheckAuth => CheckAuthCb(c, m)
    case ReadFinal => ReadFinalCb(c, m)
    case Over => m
  }

  /** Bytes arrive, the callback runs at or above the low watermark, or the
      connection to the proxy breaks or times out. */
  datatype Event = Arrive(data: Bytes) | Fire | Lost

  function Step(c: Client, m: Machine, e: Event): Machine
    requires c.Valid()
  {
    if m.stage == Over then m
    else
      match e
      case Arrive(data) => m.(input := m.input + data)
      case Fire => if |m.input| >= m.low then Callback(c, m) else m
      case Lost => Fail(m).(lost := true)
  }

  function Run(c: Client, m: Machine, events: seq<Event>): Machine
    requires c.Valid()
    decreases |events|
  {
    if events == [] then m else Run(c, Step(c, m, events[0]), events[1..])
  }

  // ----- the two agree -----

  /** What was read and written on the way to a stage. */
  predicate WayTo(c: Client, stage: Stage, read: Bytes, output: Bytes)
    requires c.Valid()
  {
    var auth, request := AuthBytes(c.username, c.password), RequestBytes(c.request);
    match stage
    case ReceiveInit => read == [] && output == Greeting(c)
    case CheckAuth => read == [5, 2] && auth.Some? && output == Greeting(c) + auth.value
    case ReadFinal =>
      request.Some? &&
      if |read| == 2 then read[0] == 5 && read[1] != 2 && output == Greeting(c) + request.value
      else
        |read| == 4 && read[0] == 5 && read[1] == 2 && !(read[2] != 1 && read[3] != 0)
        && auth.Some? && output == Greeting(c) + auth.value + request.value
    case Over => false
  }

  /** What is still to come at a stage. */
  function Rest(c: Client, stage: Stage, s: Bytes): Talk
    requires c.Valid() && stage != Over
  {
    match stage
    case ReceiveInit => GreetingSent(c, s)
    case CheckAuth => AuthSent(c, s)
    case ReadFinal => Talk([], ReplyOutcome(c.signedChar, c.request.Resolving(), s))
  }

  /** The way so far and the rest make up the whole. */
  lemma WayAndRest(c: Client, stage: Stage, read: Bytes, output: Bytes, s: Bytes)
    requires c.Valid() && WayTo(c, stage, read, output)
    ensures Negotiated(c, read + s) == After(output, Rest(c, stage, s))
  {
    var t := Rest(c, stage, s);
    var g := Greeting(c);
    match stage
    case ReceiveInit =>
      assert read + s == s;
    case CheckAuth =>
      JoinAndCut(read, s);
      assert (read + s)[0] == 5 && (read + s)[1] == 2;
      Assoc(g, AuthBytes(c.username, c.password).value, t.written);
    case ReadFinal =>
      var request := RequestBytes(c.request).value;
      assert t.written == [];
      assert output + [] == output;
      assert (read + s)[0] == read[0] && (read + s)[1] == read[1];
      if |read| == 2 {
        assert (read + s)[2..] == s;
      } else {
        var auth := AuthBytes(c.username, c.password).value;
        assert (read + s)[2..][0] == read[2] && (read + s)[2..][1] == read[3];
        assert (read + s)[2..][2..] == s;
        Assoc(g, auth, request);
      }
  }

  /** The low watermark is what the bytes so far call for. */
  predicate LowOk(c: Client, m: Machine)
    requires c.Valid()
  {
    if m.stage == ReadFinal then
      m.low == 8 ||
      (|m.input| >= 8 && m.input[0] == 5 && m.input[1] == 0 && ReplySize(c.signedChar, m.input) == Option.Some(m.low))
    else m.low == 2
  }

  /** Until it is over the machine is on its way, and has told nobody; after that
      it has told how the handshake ended, once. */
  predicate MachineOk(c: Client, m: Machine)
    requires c.Valid()
  {
    var t := Negotiated(c, m.Received());
    if m.stage != Over then m.calls == [] && !m.lost && WayTo(c, m.stage, m.read, m.output) && LowOk(c, m)
    else
      && |m.calls| == 1
      && match m.calls[0]
         case OnProxySuccess(resolved) => !m.lost && t == Talk(m.output, Success(m.input, resolved))
         case OnProxyFailure => m.lost || t == Talk(m.output, Failure)
  }

  lemma TakeKeepsReceived(m: Machine, n: nat)
    requires n <= |m.input|
    ensures Take(m, n).Received() == m.Received()
  {
    CutAndJoin(m.input, n);
    Assoc(m.read, m.input[..n], m.input[n..]);
  }

  /** A failure at a stage that the rest of the talk agrees with. */
  lemma FailKeeps(c: Client, m: Machine, f: Machine)
    requires c.Valid() && MachineOk(c, m) && m.stage != Over
    requires Rest(c, m.stage, m.input) == Talk([], Failure)
    requires f.Received() == m.Received() && f.output == m.output && f.calls == []
    ensures MachineOk(c, Fail(f))
  {
    WayAndRest(c, m.stage, m.read, m.output, m.input);
    assert m.output + [] == m.output;
  }

  /** Two bytes read, and the request written or refused. */
  lemma RequestKeeps(c: Client, m: Machine)
    requires c.Valid() && MachineOk(c, m) && |m.input| >= 2
    requires m.stage == ReceiveInit || m.stage == CheckAuth
    requires Rest(c, m.stage, m.input) == SendRequest(c, m.input[2..])
    requires m.stage == ReceiveInit ==> m.input[0] == 5 && m.input[1] != 2
    requires m.stage == CheckAuth ==> !(m.input[0] != 1 && m.input[1] != 0)
    ensures MachineOk(c, WriteProto(c, Take(m, 2)))
  {
    TakeKeepsReceived(m, 2);
    if RequestBytes(c.request).None? {
      FailKeeps(c, m, Take(m, 2));
    }
  }

  lemma ReceiveInitKeeps(c: Client, m: Machine)
    requires c.Valid() && MachineOk(c, m) && m.stage == ReceiveInit && |m.input| >= 2
    ensures MachineOk(c, ReceiveInitCb(c, m))
  {
    TakeKeepsReceived(m, 2);
    if m.input[0] != 5 {
      FailKeeps(c, m, Take(m, 2));
    } else if m.input[1] != 2 {
      RequestKeeps(c, m);
    } else if AuthBytes(c.username, c.password).None? {
      FailKeeps(c, m, Take(m, 2));
    } else {
      assert Take(m, 2).read == [5, 2];
    }
  }

  lemma CheckAuthKeeps(c: Client, m: Machine)
    requires c.Valid() && MachineOk(c, m) && m.stage == CheckAuth && |m.input| >= 2
    ensures MachineOk(c, CheckAuthCb(c, m))
  {
    TakeKeepsReceived(m, 2);
    if m.input[0] != 1 && m.input[1] != 0 {
      FailKeeps(c, m, Take(m, 2));
    } else {
      RequestKeeps(c, m);
    }
  }

  lemma ReadFinalKeeps(c: Client, m: Machine)
    requires c.Valid() && MachineOk(c, m) && m.stage == ReadFinal
    ensures MachineOk(c, ReadFinalCb(c, m))
  {
    var o := ReplyOutcome(c.signedChar, c.request.Resolving(), m.input);
    if o.Failure? {
      FailKeeps(c, m, m);
    } else if o.Success? {
      var n := |m.input| - |o.rest|;
      TakeKeepsReceived(m, n);
      WayAndRest(c, m.stage, m.read, m.output, m.input);
      assert m.output + [] == m.output;
      assert m.input[n..] == o.rest;
    }
  }

  lemma ArriveKeeps(c: Client, m: Machine, data: Bytes)
    requires c.Valid() && MachineOk(c, m) && m.stage != Over
    ensures MachineOk(c, Step(c, m, Arrive(data)))
  {
  }

  lemma StepKeeps(c: Client, m: Machine, e: Event)
    requires c.Valid() && MachineOk(c, m)
    ensures MachineOk(c, Step(c, m, e))
  {
    if m.stage != Over {
      match e
      case Arrive(data) => ArriveKeeps(c, m, data);
      case Lost =>
      case Fire =>
        if |m.input| >= m.low {
          match m.stage
          case ReceiveInit => ReceiveInitKeeps(c, m);
          case CheckAuth => CheckAuthKeeps(c, m);
          case ReadFinal => ReadFinalKeeps(c, m);
        }
    }
  }

  lemma {:induction false} RunKeeps(c: Client, m: Machine, events: seq<Event>)
    requires c.Valid() && MachineOk(c, m)
    ensures MachineOk(c, Run(c, m, events))
    decreases |events|
  {
    if events != [] {
      StepKeeps(c, m, events[0]);
      RunKeeps(c, Step(c, m, events[0]), events[1..]);
    }
  }

  /** Below the low watermark nothing is decided. */
  lemma UndecidedBelowTheMark(c: Client, m: Machine)
    requires c.Valid() && MachineOk(c, m) && m.stage != Over && |m.input| < m.low
    ensures Negotiated(c, m.Received()) == Talk(m.output, NeedMore(m.low))
  {
    WayAndRest(c, m.stage, m.read, m.output, m.input);
    assert m.output + [] == m.output;
  }

  /** However the server's bytes are cut and whenever callbacks run, unless the
      connection is lost: when no callback is due, the client has written and
      decided what the whole of the server's bytes call for. Its owner is told
      once; on success everything after the reply is left in the input. */
  lemma EveryRunNegotiates(c: Client, events: seq<Event>)
    requires c.Valid()
    ensures var m := Run(c, Begun(c), events); var t := Negotiated(c, m.Received());
      && |m.calls| == (if m.stage == Over then 1 else 0)
      && (m.stage == Over && !m.lost ==>
            t == Talk(m.output,
                      match m.calls[0] case OnProxySuccess(r) => Success(m.input, r) case OnProxyFailure => Failure))
      && (m.stage != Over && |m.input| < m.low ==> t == Talk(m.output, NeedMore(m.low)))
  {
    RunKeeps(c, Begun(c), events);
    var m := Run(c, Begun(c), events);
    if m.stage != Over && |m.input| < m.low {
      UndecidedBelowTheMark(c, m);
    }
  }

  /** A decision stands: success leaves further bytes with the rest, failure stays. */
  predicate Stays(t: Talk, u: Talk, more: Bytes) {
    && (t.outcome.Failure? ==> u == t)
    && (t.outcome.Success? ==> u == Talk(t.written, Success(t.outcome.rest + more, t.outcome.resolved)))
  }

  lemma RequestStays(c: Client, s: Bytes, more: Bytes)
    requires c.Valid()
    ensures Stays(SendRequest(c, s), SendRequest(c, s + more), more)
  {
    ReplyOutcomeStays(c.signedChar, c.request.Resolving(), s, more);
  }

  lemma AuthStays(c: Client, s: Bytes, more: Bytes)
    requires c.Valid()
    ensures Stays(AuthSent(c, s), AuthSent(c, s + more), more)
  {
    if |s| >= 2 {
      RequestStays(c, s[2..], more);
      assert (s + more)[2..] == s[2..] + more;
    }
  }

  lemma GreetingStays(c: Client, s: Bytes, more: Bytes)
    requires c.Valid()
    ensures Stays(GreetingSent(c, s), GreetingSent(c, s + more), more)
  {
    if |s| >= 2 {
      RequestStays(c, s[2..], more);
      AuthStays(c, s[2..], more);
      assert (s + more)[2..] == s[2..] + more;
    }
  }

  /** Whatever else the server sends does not change a decision. */
  lemma NegotiatedStays(c: Client, s: Bytes, more: Bytes)
    requires c.Valid()
    ensures Stays(Negotiated(c, s), Negotiated(c, s + more), more)
  {
    GreetingStays(c, s, more);
  }

  /** No callback is due without the bytes it reads: the assert on the reply's
      length holds, and no read comes back short. */
  lemma MarksCoverReads(c: Client, events: seq<Event>)
    requires c.Valid()
    ensures var m := Run(c, Begun(c), events);
      m.stage != Over && |m.input| >= m.low ==> |m.input| >= (if m.stage == ReadFinal then 8 else 2)
  {
    RunKeeps(c, Begun(c), events);
  }

  /** The address a client takes from the reply: one it asked to be resolved. */
  function Resolved(c: Client, bound: Address): Bytes {
    if c.request.isDns && c.request.resolveOnly && !bound.Name? then bound.bytes else []
  }

  /** A server that takes the client's greeting without credentials and grants the
      request: the client writes its greeting and its request, and ends with exactly
      the bytes that follow the reply. */
  lemma GrantedWithoutAuth(c: Client, bound: Address, port: Bytes, more: Bytes)
    requires c.Valid() && RequestBytes(c.request).Some?
    requires bound.Valid() && |port| == 2 && |ReplyBytes(bound, port) + more| < SIZE_T_SPAN / 2
    requires |ReplyBytes(bound, port) + more| >= 8 && (bound.Name? && c.signedChar ==> |bound.bytes| < 128)
    ensures var t := Negotiated(c, [5, 0] + (ReplyBytes(bound, port) + more));
      && t.written == Greeting(c) + RequestBytes(c.request).value
      && t.outcome == Success(more, Resolved(c, bound))
  {
    var tail := ReplyBytes(bound, port) + more;
    JoinAndCut([5, 0], tail);
    assert ([5, 0] + tail)[0] == 5 && ([5, 0] + tail)[1] == 0;
    ReplyTransparent(c.signedChar, c.request.Resolving(), bound, port, more);
  }

  /** The same with credentials, whatever version the server answers them with. */
  lemma GrantedWithAuth(c: Client, version: byte, bound: Address, port: Bytes, more: Bytes)
    requires c.Valid() && RequestBytes(c.request).Some? && AuthBytes(c.username, c.password).Some?
    requires bound.Valid() && |port| == 2 && |ReplyBytes(bound, port) + more| < SIZE_T_SPAN / 2
    requires |ReplyBytes(bound, port) + more| >= 8 && (bound.Name? && c.signedChar ==> |bound.bytes| < 128)
    ensures var t := Negotiated(c, [5, 2, version, 0] + (ReplyBytes(bound, port) + more));
      && t.written == Greeting(c) + AuthBytes(c.username, c.password).value + RequestBytes(c.request).value
      && t.outcome == Success(more, Resolved(c, bound))
  {
    var tail := ReplyBytes(bound, port) + more;
    var s := [5, 2, version, 0] + tail;
    assert s[2..][2..] == tail && s[2..][0] == version && s[2..][1] == 0;
    Assoc(Greeting(c), AuthBytes(c.username, c.password).value, RequestBytes(c.request).value);
    ReplyTransparent(c.signedChar, c.request.Resolving(), bound, port, more);
  }

  /** The client takes an answer to its credentials for a refusal only if both the
      version and the status are wrong. Section 2 of RFC 1929 has the status decide
      alone; the two differ exactly on a right version with a bad status. */
  lemma AuthAnswer(c: Client, version: byte, status: byte, more: Bytes)
    requires c.Valid() && RequestBytes(c.request).Some?
    ensures AuthSent(c, [version, status] + more) ==
            (if version == 1 || status == 0 then SendRequest(c, more) else Talk([], Failure))
    ensures (AuthSent(c, [version, status] + more) == Talk([], Failure) <==> status != 0) <==> !(version == 1 && status != 0)
  {
    var s := [version, status] + more;
    assert s[0] == version && s[1] == status && s[2..] == more;
    assert RequestBytes(c.request).value != [];
  }

  /** The machine has nothing to do before more bytes come. */
  predicate AtRest(m: Machine) {
    m.stage == Over || |m.input| < m.low
  }

  lemma SuccessReached(c: Client, events: seq<Event>, rest: Bytes, resolved: Bytes)
    requires c.Valid()
    requires var m := Run(c, Begun(c), events); var t := Negotiated(c, m.Received());
      AtRest(m) && !m.lost && t.outcome == Success(rest, resolved)
    ensures var m := Run(c, Begun(c), events);
      m.stage == Over && m.calls == [OnProxySuccess(resolved)] && m.input == rest
      && m.output == Negotiated(c, m.Received()).written
  {
    EveryRunNegotiates(c, events);
  }

  /** A run that received a grant without credentials, and whatever follows it, cut and
      timed in any way and not lost: once no callback is due its owner was told of the
      success, and exactly what follows the reply is left for it. */
  lemma GrantedRunWithoutAuth(c: Client, events: seq<Event>, bound: Address, port: Bytes, more: Bytes)
    requires c.Valid() && RequestBytes(c.request).Some?
    requires bound.Valid() && |port| == 2 && |ReplyBytes(bound, port) + more| < SIZE_T_SPAN / 2
    requires |ReplyBytes(bound, port) + more| >= 8 && (bound.Name? && c.signedChar ==> |bound.bytes| < 128)
    requires var m := Run(c, Begun(c), events);
      AtRest(m) && !m.lost && m.Received() == [5, 0] + (ReplyBytes(bound, port) + more)
    ensures var m := Run(c, Begun(c), events);
      m.stage == Over && m.calls == [OnProxySuccess(Resolved(c, bound))] && m.input == more
      && m.output == Greeting(c) + RequestBytes(c.request).value
  {
    GrantedWithoutAuth(c, bound, port, more);
    SuccessReached(c, events, more, Resolved(c, bound));
  }

  lemma GrantedRunWithAuth(c: Client, events: seq<Event>, version: byte, bound: Address, port: Bytes, more: Bytes)
    requires c.Valid() && RequestBytes(c.request).Some? && AuthBytes(c.username, c.password).Some?
    requires bound.Valid() && |port| == 2 && |ReplyBytes(bound, port) + more| < SIZE_T_SPAN / 2
    requires |ReplyBytes(bound, port) + more| >= 8 && (bound.Name? && c.signedChar ==> |bound.bytes| < 128)
    requires var m := Run(c, Begun(c), events);
      AtRest(m) && !m.lost && m.Received() == [5, 2, version, 0] + (ReplyBytes(bound, port) + more)
    ensures var m := Run(c, Begun(c), events);
      m.stage == Over && m.calls == [OnProxySuccess(Resolved(c, bound))] && m.input == more
      && m.output == Greeting(c) + AuthBytes(c.username, c.password).value + RequestBytes(c.request).value
  {
    GrantedWithAuth(c, version, bound, port, more);
    SuccessReached(c, events, more, Resolved(c, bound));
  }

  // ----- the method the server picks, section 3 of RFC 1928 -----

  /** The methods the client's greeting offers. */
  predicate Offers(c: Client, m: byte) {
    m in Greeting(c)[2..]
  }

  /** The client does not give up on the server's choice. */
  predicate GoesOn(c: Client, m: byte, more: Bytes)
    requires c.Valid()
  {
    GreetingSent(c, [5, m] + more) != Talk([], Failure)
  }

  /** With a request and credentials that can be written the client goes on whatever
      method the server picks. Section 3 of RFC 1928 has it go on only with one it
      offered; the two agree exactly on no authentication, and on username and password
      if credentials are set. */
  lemma MethodAnswer(c: Client, m: byte, more: Bytes)
    requires c.Valid() && RequestBytes(c.request).Some? && AuthBytes(c.username, c.password).Some?
    ensures GoesOn(c, m, more)
    ensures (GoesOn(c, m, more) <==> Offers(c, m)) <==> m == 0 || (m == 2 && c.authSet)
  {
    var s := [5, m] + more;
    assert s[0] == 5 && s[1] == m && s[2..] == more;
    assert RequestBytes(c.request).value != [] && AuthBytes(c.username, c.password).value != [];
    assert Greeting(c)[2..] == if c.authSet then [2, 0] else [0];
  }

  /** A server that accepts none of the methods is sent the request all the same. */
  lemma NoMethodIsTakenForNone(c: Client, more: Bytes)
    requires c.Valid()
    ensures GreetingSent(c, [5, 0xff] + more) == SendRequest(c, more)
  {
    var s := [5, 0xff] + more;
    assert s[0] == 5 && s[1] == 0xff && s[2..] == more;
  }
}
