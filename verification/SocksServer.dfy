/** The other end of the handshake: what a server reads in the client's bytes, by the
    RFCs alone, and what its answers lead to. */
module SocksServer {
  import opened Bits
  import opened Framing
  import opened Handshake
  import opened Socks5
  import opened Widths
  import opened Wrappers

  /** A greeting, section 3 of RFC 1928: version 5, a count, so many methods, and what
      follows them. */
  function ReadGreeting(s: Bytes): Option<(Bytes, Bytes)> {
    if |s| < 2 || s[0] != 5 || |s| < 2 + s[1] as int then None
    else Some((s[2..2 + s[1] as int], s[2 + s[1] as int..]))
  }

  /** What the client greets with: username and password (2) and no authentication (0),
      in this order, or the latter alone. */
  lemma GreetingRoundTrip(c: Client, more: Bytes)
    ensures ReadGreeting(Greeting(c) + more) == Some((if c.authSet then [2, 0] else [0], more))
  {
    JoinAndCut(Greeting(c), more);
    var s := Greeting(c) + more;
    assert s[0] == 5 && s[1] as int == |Greeting(c)| - 2;
    assert s[2..|Greeting(c)|] == Greeting(c)[2..];
  }

  /** All a server hears from a client. */
  datatype Heard = Heard(
    methods: Bytes,
    credentials: Option<(Bytes, Bytes)>,
    command: byte,
    address: Address,
    port: Bytes,
    rest: Bytes)

  /** A server reads a greeting, credentials if it asked for them, and a request. */
  function Hears(credentials: bool, s: Bytes): Option<Heard> {
    match ReadGreeting(s)
    case None => None
    case Some((methods, s1)) =>
      if !credentials then
        match ReadRequest(s1)
        case None => None
        case Some((command, address, port, rest)) => Some(Heard(methods, None, command, address, port, rest))
      else
        match ReadAuth(s1)
        case None => None
        case Some((username, password, s2)) =>
          match ReadRequest(s2)
          case None => None
          case Some((command, address, port, rest)) =>
            Some(Heard(methods, Some((username, password)), command, address, port, rest))
  }

  /** The request is the one that was heard: by name, or by address with its own port. */
  predicate IsTheRequest(r: Request, h: Heard) {
    && h.command == (if r.isDns && r.resolveOnly then 0xf0 else 1)
    && |h.port| == 2
    && if r.isDns || r.proxyType == ForceDomain then
         h.address == Name(r.host) && h.port[0] as int * 256 + h.port[1] as int == r.port
       else
         (r.sock.Inet? || r.sock.Inet6?) && h.port == r.sock.port
         && h.address == if r.sock.Inet? then V4(r.sock.addr) else V6(r.sock.addr)
  }

  lemma RequestIsHeard(c: Client)
    requires c.Valid() && RequestBytes(c.request).Some?
    ensures var h := Hears(false, Greeting(c) + RequestBytes(c.request).value);
      && h.Some? && IsTheRequest(c.request, h.value)
      && h.value.methods == (if c.authSet then [2, 0] else [0]) && h.value.credentials == None && h.value.rest == []
  {
    var request := RequestBytes(c.request).value;
    GreetingRoundTrip(c, request);
    RequestRoundTrip(c.request, []);
    assert request + [] == request;
  }

  lemma AllIsHeard(c: Client)
    requires c.Valid() && RequestBytes(c.request).Some? && AuthBytes(c.username, c.password).Some?
    ensures var h := Hears(true, Greeting(c) + AuthBytes(c.username, c.password).value + RequestBytes(c.request).value);
      && h.Some? && IsTheRequest(c.request, h.value) && h.value.methods == (if c.authSet then [2, 0] else [0])
      && h.value.credentials == Some((c.username, c.password)) && h.value.rest == []
  {
    var auth, request := AuthBytes(c.username, c.password).value, RequestBytes(c.request).value;
    Assoc(Greeting(c), auth, request);
    GreetingRoundTrip(c, auth + request);
    AuthRoundTrip(c.username, c.password, request);
    RequestRoundTrip(c.request, []);
    assert request + [] == request;
  }

  /** In a run that was granted without credentials the server heard, in all that the
      client wrote, its methods and its request, and not a byte more. */
  lemma GrantedRunIsHeard(c: Client, events: seq<Event>, bound: Address, port: Bytes, more: Bytes)
    requires c.Valid() && RequestBytes(c.request).Some?
    requires bound.Valid() && |port| == 2 && |ReplyBytes(bound, port) + more| < SIZE_T_SPAN / 2
    requires |ReplyBytes(bound, port) + more| >= 8 && (bound.Name? && c.signedChar ==> |bound.bytes| < 128)
    requires var m := Run(c, Begun(c), events);
      AtRest(m) && !m.lost && m.Received() == [5, 0] + (ReplyBytes(bound, port) + more)
    ensures var m := Run(c, Begun(c), events); var h := Hears(false, m.output);
      && h.Some? && IsTheRequest(c.request, h.value)
      && h.value.methods == (if c.authSet then [2, 0] else [0]) && h.value.credentials == None && h.value.rest == []
      && m.input == more && m.calls == [OnProxySuccess(Resolved(c, bound))]
  {
    GrantedRunWithoutAuth(c, events, bound, port, more);
    RequestIsHeard(c);
  }

  /** The same with credentials, which the server heard too. */
  lemma GrantedRunIsHeardWithAuth(c: Client, events: seq<Event>, version: byte, bound: Address, port: Bytes, more: Bytes)
    requires c.Valid() && RequestBytes(c.request).Some? && AuthBytes(c.username, c.password).Some?
    requires bound.Valid() && |port| == 2 && |ReplyBytes(bound, port) + more| < SIZE_T_SPAN / 2
    requires |ReplyBytes(bound, port) + more| >= 8 && (bound.Name? && c.signedChar ==> |bound.bytes| < 128)
    requires var m := Run(c, Begun(c), events);
      AtRest(m) && !m.lost && m.Received() == [5, 2, version, 0] + (ReplyBytes(bound, port) + more)
    ensures var m := Run(c, Begun(c), events); var h := Hears(true, m.output);
      && h.Some? && IsTheRequest(c.request, h.value) && h.value.methods == (if c.authSet then [2, 0] else [0])
      && h.value.credentials == Some((c.username, c.password)) && h.value.rest == []
      && m.input == more && m.calls == [OnProxySuccess(Resolved(c, bound))]
  {
    GrantedRunWithAuth(c, events, version, bound, port, more);
    AllIsHeard(c);
  }

  // ----- runs that fail -----

  /** Over, with one failure told and no more than this written. */
  predicate FailedAfter(m: Machine, written: Bytes) {
    m.stage == Over && m.calls == [OnProxyFailure] && m.output == written
  }

  lemma FailureReached(c: Client, events: seq<Event>, written: Bytes)
    requires c.Valid()
    requires var m := Run(c, Begun(c), events);
      AtRest(m) && !m.lost && Negotiated(c, m.Received()) == Talk(written, Failure)
    ensures FailedAfter(Run(c, Begun(c), events), written)
  {
    EveryRunNegotiates(c, events);
  }

  /** A connection that is lost, at whatever point, is told as one failure. */
  lemma LostIsToldOnce(c: Client, events: seq<Event>)
    requires c.Valid() && Run(c, Begun(c), events).lost
    ensures FailedAfter(Run(c, Begun(c), events), Run(c, Begun(c), events).output)
  {
    RunKeeps(c, Begun(c), events);
  }

  /** A server of another version is sent no more than the greeting. */
  lemma WrongVersionFails(c: Client, events: seq<Event>)
    requires c.Valid()
    requires var m := Run(c, Begun(c), events);
      AtRest(m) && !m.lost && |m.Received()| >= 2 && m.Received()[0] != 5
    ensures FailedAfter(Run(c, Begun(c), events), Greeting(c))
  {
    assert Greeting(c) + [] == Greeting(c);
    FailureReached(c, events, Greeting(c));
  }

  /** A request that cannot be written fails after the answer to the greeting. */
  lemma UnwritableRequestFails(c: Client, events: seq<Event>, chosen: byte)
    requires c.Valid() && RequestBytes(c.request).None? && chosen != 2
    requires var m := Run(c, Begun(c), events);
      AtRest(m) && !m.lost && |m.Received()| >= 2 && m.Received()[..2] == [5, chosen]
    ensures FailedAfter(Run(c, Begun(c), events), Greeting(c))
  {
    var s := Run(c, Begun(c), events).Received();
    assert s[0] == s[..2][0] && s[1] == s[..2][1];
    assert Greeting(c) + [] == Greeting(c);
    FailureReached(c, events, Greeting(c));
  }

  /** A server that wants credentials of more than 255 bytes gets none. */
  lemma LongCredentialsFail(c: Client, events: seq<Event>)
    requires c.Valid() && (|c.username| > 255 || |c.password| > 255)
    requires var m := Run(c, Begun(c), events);
      AtRest(m) && !m.lost && |m.Received()| >= 2 && m.Received()[..2] == [5, 2]
    ensures FailedAfter(Run(c, Begun(c), events), Greeting(c))
  {
    var s := Run(c, Begun(c), events).Received();
    assert s[0] == s[..2][0] && s[1] == s[..2][1];
    assert Greeting(c) + [] == Greeting(c);
    FailureReached(c, events, Greeting(c));
  }

  /** A refused request, or a reply of no known form, fails once eight bytes are there,
      with the request written. */
  lemma RefusalFails(c: Client, events: seq<Event>, chosen: byte, reply: Bytes)
    requires c.Valid() && RequestBytes(c.request).Some? && chosen != 2 && |reply| >= 8
    requires reply[0] != 5 || reply[1] != 0 || reply[3] !in {1, 3, 4}
    requires var m := Run(c, Begun(c), events);
      AtRest(m) && !m.lost && m.Received() == [5, chosen] + reply
    ensures FailedAfter(Run(c, Begun(c), events), Greeting(c) + RequestBytes(c.request).value)
  {
    var s := [5, chosen] + reply;
    assert s[0] == 5 && s[1] == chosen && s[2..] == reply;
    FailureReached(c, events, Greeting(c) + RequestBytes(c.request).value);
  }

  /** Refused credentials, and a request that cannot be written after them, fail with
      the credentials written. */
  lemma RefusedCredentialsFail(c: Client, events: seq<Event>, version: byte, status: byte, more: Bytes)
    requires c.Valid() && AuthBytes(c.username, c.password).Some?
    requires (version != 1 && status != 0) || RequestBytes(c.request).None?
    requires var m := Run(c, Begun(c), events);
      AtRest(m) && !m.lost && m.Received() == [5, 2, version, status] + more
    ensures FailedAfter(Run(c, Begun(c), events), Greeting(c) + AuthBytes(c.username, c.password).value)
  {
    var s, auth := [5, 2, version, status] + more, AuthBytes(c.username, c.password).value;
    assert s[0] == 5 && s[1] == 2 && s[2..][0] == version && s[2..][1] == status;
    assert auth + [] == auth;
    FailureReached(c, events, Greeting(c) + auth);
  }

  /** After accepted credentials a refused request fails in the same way. */
  lemma RefusalFailsWithAuth(c: Client, events: seq<Event>, version: byte, status: byte, reply: Bytes)
    requires c.Valid() && AuthBytes(c.username, c.password).Some? && RequestBytes(c.request).Some?
    requires (version == 1 || status == 0) && |reply| >= 8 && (reply[0] != 5 || reply[1] != 0 || reply[3] !in {1, 3, 4})
    requires var m := Run(c, Begun(c), events);
      AtRest(m) && !m.lost && m.Received() == [5, 2, version, status] + reply
    ensures FailedAfter(Run(c, Begun(c), events),
                        Greeting(c) + (AuthBytes(c.username, c.password).value + RequestBytes(c.request).value))
  {
    var s := [5, 2, version, status] + reply;
    assert s[0] == 5 && s[1] == 2 && s[2..][0] == version && s[2..][1] == status && s[2..][2..] == reply;
    FailureReached(c, events, Greeting(c) + (AuthBytes(c.username, c.password).value + RequestBytes(c.request).value));
  }

  // ----- runs that wait -----

  lemma PartOfReply(signed: bool, resolving: bool, bound: Address, port: Bytes, n: nat)
    requires bound.Valid() && |port| == 2 && (bound.Name? && signed ==> |bound.bytes| < 128)
    requires 8 <= n < |ReplyBytes(bound, port)|
    ensures ReplyOutcome(signed, resolving, ReplyBytes(bound, port)[..n]) == NeedMore(|ReplyBytes(bound, port)|)
  {
    var r := ReplyBytes(bound, port);
    var s := r[..n];
    ReplyHead(bound, port, []);
    assert r + [] == r;
    assert s[0] == r[0] && s[1] == r[1] && s[3] == r[3] && s[4] == r[4];
    assert ReplySize(signed, s) == Option.Some(|r|);
  }

  /** Part of a reply, of eight bytes at least, is waited for to its end: the callback
      asks for exactly the bytes of the whole reply. */
  lemma PartOfReplyIsWaitedFor(c: Client, m: Machine, bound: Address, port: Bytes, n: nat)
    requires c.Valid() && m.stage == ReadFinal && bound.Valid() && |port| == 2
    requires bound.Name? && c.signedChar ==> |bound.bytes| < 128
    requires 8 <= n < |ReplyBytes(bound, port)| && m.input == ReplyBytes(bound, port)[..n] && m.low <= n
    ensures Step(c, m, Fire) == m.(low := |ReplyBytes(bound, port)|)
  {
    PartOfReply(c.signedChar, c.request.Resolving(), bound, port, n);
  }

  // ----- examples, byte by byte -----

  /** The greetings, and the credentials "me" and "pw". */
  lemma GreetingAndAuth(c: Client, me: Bytes, pw: Bytes)
    requires me == [109, 101] && pw == [112, 119]
    ensures Greeting(c) == if c.authSet then [5, 2, 2, 0] else [5, 1, 0]
    ensures AuthBytes(me, pw) == Some([1, 2, 109, 101, 2, 112, 119])
  {
    assert [1, 2] + me + [2] + pw == [1, 2, 109, 101, 2, 112, 119];
  }

  /** Requests for the name "a.b" at port 8333, to be connected to and to be resolved. */
  lemma NameRequest(name: Bytes, resolveOnly: bool)
    requires name == [97, 46, 98]
    ensures RequestBytes(Request(true, resolveOnly, ProxyType.Socks5, name, 8333, OtherFamily))
         == Some([5, if resolveOnly then 0xf0 else 1, 0, 3, 3, 97, 46, 98, 0x20, 0x8d])
  {
    var head: Bytes := [5, if resolveOnly then 0xf0 else 1, 0];
    assert head + [3, 3] + name + [0x20, 0x8d] == [head[0], head[1], head[2], 3, 3, 97, 46, 98, 0x20, 0x8d];
  }

  /** Requests for an IPv4 and an IPv6 address, which is 16 bytes long, at the same port. */
  lemma AddressRequests(four: Bytes, six: Bytes, port: Bytes)
    requires four == [192, 0, 2, 1] && |six| == 16 && port == [0x20, 0x8d]
    ensures RequestBytes(Request(false, true, ProxyType.Socks5, [], 0, Inet(four, port)))
         == Some([5, 1, 0, 1, 192, 0, 2, 1, 0x20, 0x8d])
    ensures RequestBytes(Request(false, true, ProxyType.Socks5, [], 0, Inet6(six, port)))
         == Some([5, 1, 0, 4] + six + [0x20, 0x8d])
  {
    assert [5, 1, 0] + [1] + four + port == [5, 1, 0, 1, 192, 0, 2, 1, 0x20, 0x8d];
    assert [5, 1, 0] + [4] + six + port == [5, 1, 0, 4] + six + [0x20, 0x8d];
  }

  /** The server's replies. */
  lemma Replies(four: Bytes, six: Bytes, name: Bytes, port: Bytes)
    requires four == [192, 0, 2, 1] && |six| == 16 && name == [97, 46, 98] && port == [0x20, 0x8d]
    ensures ReplyBytes(V4(four), port) == [5, 0, 0, 1, 192, 0, 2, 1, 0x20, 0x8d]
    ensures ReplyBytes(V6(six), port) == [5, 0, 0, 4] + six + [0x20, 0x8d]
    ensures ReplyBytes(Name(name), port) == [5, 0, 0, 3, 3, 97, 46, 98, 0x20, 0x8d]
  {
    assert [5, 0, 0] + ([4] + six) + port == [5, 0, 0, 4] + six + [0x20, 0x8d];
  }
}
