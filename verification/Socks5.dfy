/** The SOCKS5 client on values: what it writes, read back by a server, and what
    it makes of a server's bytes. */
module Socks5 {
  import opened Bits
  import opened Framing
  import opened Widths
  import opened Wrappers

  // ----- addresses on the wire, sections 4 to 6 of RFC 1928 -----

  datatype Address = V4(bytes: Bytes) | V6(bytes: Bytes) | Name(bytes: Bytes)
  {
    predicate Valid() {
      match this
      case V4(b) => |b| == 4
      case V6(b) => |b| == 16
      case Name(b) => |b| <= 255
    }
  }

  function AddressBytes(a: Address): Bytes
    requires a.Valid()
  {
    match a
    case V4(b) => [1] + b
    case V6(b) => [4] + b
    case Name(b) => [3, |b|] + b
  }

  /** An address at the front of s, with what follows it. */
  function ReadAddress(s: Bytes): Option<(Address, Bytes)> {
    if |s| >= 5 && s[0] == 1 then Some((V4(s[1..5]), s[5..]))
    else if |s| >= 17 && s[0] == 4 then Some((V6(s[1..17]), s[17..]))
    else if |s| >= 2 && s[0] == 3 && |s| >= 2 + s[1] as int then Some((Name(s[2..2 + s[1] as int]), s[2 + s[1] as int..]))
    else None
  }

  lemma AddressRoundTrip(a: Address, rest: Bytes)
    requires a.Valid()
    ensures ReadAddress(AddressBytes(a) + rest) == Some((a, rest))
  {
    var s := AddressBytes(a) + rest;
    var n := |AddressBytes(a)|;
    JoinAndCut(AddressBytes(a), rest);
    assert s[n - |a.bytes|..n] == a.bytes;
  }

  /** A port, most significant byte first. */
  function PortBytes(port: int): Bytes
    requires 0 <= port < 0x1_0000
  {
    [port / 256, port % 256]
  }

  // ----- the request, section 4 of RFC 1928 -----

  datatype ProxyType = Socks5 | ForceDomain | OtherType

  /** The socket address of a connection; the port is in network order there. */
  datatype SockAddr = Inet(addr: Bytes, port: Bytes) | Inet6(addr: Bytes, port: Bytes) | OtherFamily
  {
    predicate Valid() {
      match this
      case Inet(a, p) => |a| == 4 && |p| == 2
      case Inet6(a, p) => |a| == 16 && |p| == 2
      case OtherFamily => true
    }
  }

  /** What the client asks the proxy for. An onion address has no socket address. */
  datatype Request = Request(isDns: bool, resolveOnly: bool, proxyType: ProxyType, host: Bytes, port: int, sock: SockAddr)
  {
    predicate Valid() {
      0 <= port < 0x1_0000 && sock.Valid()
    }

    predicate ByName() {
      isDns || proxyType == ForceDomain
    }

    predicate Resolving() {
      isDns && resolveOnly
    }
  }

  const CONNECT: byte := 1
  const RESOLVE: byte := 0xf0

  /** The bytes of a request, or none if it cannot be made. */
  function RequestBytes(r: Request): Option<Bytes>
    requires r.Valid()
  {
    var head: Bytes := [5, if r.Resolving() then RESOLVE else CONNECT, 0];
    if r.ByName() then
      if |r.host| > 255 then None else Some(head + [3, |r.host|] + r.host + PortBytes(r.port))
    else if r.proxyType == Socks5 then
      match r.sock
      case Inet6(a, p) => Some(head + [4] + a + p)
      case Inet(a, p) => Some(head + [1] + a + p)
      case OtherFamily => None
    else None
  }

  /** What the request is about. */
  function Destination(r: Request): Address {
    if r.ByName() then Name(r.host)
    else
      match r.sock
      case Inet6(a, _) => V6(a)
      case Inet(a, _) => V4(a)
      case OtherFamily => Name([])
  }

  function DestinationPort(r: Request): Bytes
    requires r.Valid()
  {
    if r.ByName() || r.sock.OtherFamily? then PortBytes(r.port) else r.sock.port
  }

  /** A server's reading of a request: command, address, port, and what follows. */
  function ReadRequest(s: Bytes): Option<(byte, Address, Bytes, Bytes)> {
    if |s| < 3 || s[0] != 5 || s[2] != 0 then None
    else
      match ReadAddress(s[3..])
      case None => None
      case Some((a, rest)) => if |rest| < 2 then None else Some((s[1], a, rest[..2], rest[2..]))
  }

  /** Every request the client writes reads back as it was meant, whatever follows: by
      name for a name and for a proxy that is to be given names, by address otherwise.
      0xf0 asks the proxy to resolve a name, 1 to connect. */
  lemma RequestRoundTrip(r: Request, more: Bytes)
    requires r.Valid() && RequestBytes(r).Some?
    ensures ReadRequest(RequestBytes(r).value + more)
         == Some((if r.isDns && r.resolveOnly then 0xf0 else 1, Destination(r), DestinationPort(r), more))
    ensures r.isDns || r.proxyType == ForceDomain ==>
      && Destination(r) == Name(r.host)
      && |DestinationPort(r)| == 2 && DestinationPort(r)[0] as int * 256 + DestinationPort(r)[1] as int == r.port
    ensures !r.isDns && r.proxyType != ForceDomain ==>
      && !r.sock.OtherFamily? && DestinationPort(r) == r.sock.port
      && Destination(r) == if r.sock.Inet? then V4(r.sock.addr) else V6(r.sock.addr)
  {
    var head: Bytes := [5, if r.Resolving() then RESOLVE else CONNECT, 0];
    var a, port := Destination(r), DestinationPort(r);
    var s := RequestBytes(r).value + more;
    assert RequestBytes(r).value == head + AddressBytes(a) + port;
    Assoc(head + AddressBytes(a), port, more);
    Assoc(head, AddressBytes(a), port + more);
    JoinAndCut(head, AddressBytes(a) + (port + more));
    AddressRoundTrip(a, port + more);
    JoinAndCut(port, more);
    assert s[0] == 5 && s[1] == head[1] && s[2] == 0;
  }

  /** A request is refused for a name of more than 255 bytes, or if it goes by
      address and has none the proxy type can take. */
  lemma RequestRefused(r: Request)
    requires r.Valid()
    ensures RequestBytes(r).None? <==>
            if r.isDns || r.proxyType == ForceDomain then |r.host| > 255 else r.proxyType != Socks5 || r.sock.OtherFamily?
  {
  }

  // ----- username and password, section 2 of RFC 1929 -----

  function AuthBytes(username: Bytes, password: Bytes): Option<Bytes> {
    if |username| > 255 || |password| > 255 then None
    else Some([1, |username|] + username + [|password|] + password)
  }

  function ReadAuth(s: Bytes): Option<(Bytes, Bytes, Bytes)> {
    if |s| < 2 || s[0] != 1 || |s| < 3 + s[1] as int then None
    else
      var n := s[1] as int;
      var m := s[2 + n] as int;
      if |s| < 3 + n + m then None
      else Some((s[2..2 + n], s[3 + n..3 + n + m], s[3 + n + m..]))
  }

  /** Credentials read back as they are, whatever follows; they are refused, not
      cut, when one is longer than 255 bytes. */
  lemma AuthRoundTrip(username: Bytes, password: Bytes, more: Bytes)
    ensures AuthBytes(username, password).None? <==> |username| > 255 || |password| > 255
    ensures AuthBytes(username, password).Some? ==>
      ReadAuth(AuthBytes(username, password).value + more) == Some((username, password, more))
  {
    if |username| <= 255 && |password| <= 255 {
      var n, m := |username|, |password|;
      var s := [1, n] + username + [m] + password + more;
      assert s[0] == 1 && s[1] == n && s[2 + n] == m;
      assert s[2..2 + n] == username;
      assert s[3 + n..3 + n + m] == password;
      assert s[3 + n + m..] == more;
    }
  }

  // ----- the reply, section 6 of RFC 1928 -----

  /** A byte read as a C char and then taken for a size. */
  function CharAsSize(signed: bool, b: byte): int {
    if signed && b >= 128 then SIZE_T_SPAN + b - 256 else b
  }

  /** What the client makes of the bytes after its request. */
  datatype Outcome = NeedMore(mark: int) | Failure | Success(rest: Bytes, resolved: Bytes)

  /** How much of a reply the client waits for, from its first five bytes. */
  function ReplySize(signed: bool, s: Bytes): Option<int>
    requires |s| >= 5
  {
    if s[3] == 1 then Some(10)
    else if s[3] == 4 then Some(22)
    else if s[3] == 3 then Some((7 + CharAsSize(signed, s[4])) % SIZE_T_SPAN)
    else None
  }

  function ReplyOutcome(signed: bool, resolving: bool, s: Bytes): Outcome {
    if |s| < 8 then NeedMore(8)
    else if s[0] != 5 || s[1] != 0 then Failure
    else
      match ReplySize(signed, s)
      case None => Failure
      case Some(n) =>
        if |s| < n then NeedMore(n)
        else Success(s[n..], if resolving && s[3] != 3 then s[4..n - 2] else [])
  }

  /** A server's reply that the request was granted. */
  function ReplyBytes(bound: Address, port: Bytes): Bytes
    requires bound.Valid() && |port| == 2
  {
    [5, 0, 0] + AddressBytes(bound) + port
  }

  /** A long name is either waited for for ever or cut short. */
  lemma LongNameMeetsSignedChar(b: byte)
    requires b >= 128
    ensures (7 + CharAsSize(true, b)) % SIZE_T_SPAN == if b < 249 then SIZE_T_SPAN + b - 249 else b - 249
  {
  }

  lemma ReplyHead(bound: Address, port: Bytes, more: Bytes)
    requires bound.Valid() && |port| == 2
    ensures var r := ReplyBytes(bound, port); var s := r + more;
      && |r| == 5 + |AddressBytes(bound)| && s[|r|..] == more
      && s[0] == 5 && s[1] == 0 && s[3] == AddressBytes(bound)[0] && s[4] == AddressBytes(bound)[1]
      && s[4..|r| - 2] == AddressBytes(bound)[1..]
  {
    JoinAndCut(ReplyBytes(bound, port), more);
  }

  lemma NameReply(signed: bool, resolving: bool, bound: Address, port: Bytes, more: Bytes)
    requires bound.Valid() && |port| == 2 && bound.Name?
    requires |ReplyBytes(bound, port) + more| < SIZE_T_SPAN / 2
    ensures var s := ReplyBytes(bound, port) + more; var o := ReplyOutcome(signed, resolving, s);
      && (o.Success? && o.rest == more <==> |s| >= 8 && (signed ==> |bound.bytes| < 128))
      && (o.Success? ==> o.resolved == [])
  {
    ReplyHead(bound, port, more);
    if signed && |bound.bytes| >= 128 {
      LongNameMeetsSignedChar(|bound.bytes|);
    }
  }

  lemma AddressReply(signed: bool, resolving: bool, bound: Address, port: Bytes, more: Bytes)
    requires bound.Valid() && |port| == 2 && !bound.Name?
    ensures ReplyOutcome(signed, resolving, ReplyBytes(bound, port) + more)
         == Success(more, if resolving then bound.bytes else [])
  {
    ReplyHead(bound, port, more);
  }

  /** For every reply and whatever application bytes follow: the client takes exactly
      the reply and leaves the rest, unless a name of 128 bytes or more meets a
      signed char, or the reply is one of seven bytes and nothing follows it. It
      takes an address from the reply if it asked for one. */
  lemma ReplyTransparent(signed: bool, resolving: bool, bound: Address, port: Bytes, more: Bytes)
    requires bound.Valid() && |port| == 2
    requires |ReplyBytes(bound, port) + more| < SIZE_T_SPAN / 2
    ensures var s := ReplyBytes(bound, port) + more; var o := ReplyOutcome(signed, resolving, s);
      && (o.Success? && o.rest == more <==> |s| >= 8 && (bound.Name? && signed ==> |bound.bytes| < 128))
      && (o.Success? ==> o.resolved == if resolving && !bound.Name? then bound.bytes else [])
  {
    if bound.Name? {
      NameReply(signed, resolving, bound, port, more);
    } else {
      AddressReply(signed, resolving, bound, port, more);
    }
  }

  /** A name of 128 bytes in the reply makes a client with a signed char wait for all
      but 121 bytes of the address space. */
  lemma LongNameIsWaitedFor(name: Bytes, port: Bytes, more: Bytes)
    requires name == seq(128, _ => 'a' as byte) && port == [0, 80] && more == [7]
    ensures ReplyOutcome(true, false, ReplyBytes(Name(name), port) + more) == NeedMore(SIZE_T_SPAN - 121)
  {
    ReplyHead(Name(name), port, more);
  }

  /** A reply of seven bytes, with an empty name, waits for an eighth. */
  lemma ShortReplyWaits(signed: bool)
    ensures ReplyOutcome(signed, false, ReplyBytes(Name([]), [0, 80])) == NeedMore(8)
  {
  }

  /** A reply carries the resolved address to a client that asked for it. */
  lemma ReplyResolves(signed: bool, bound: Address, port: Bytes, more: Bytes)
    requires bound.Valid() && |port| == 2 && !bound.Name?
    ensures ReplyOutcome(signed, true, ReplyBytes(bound, port) + more) == Success(more, bound.bytes)
  {
    AddressReply(signed, true, bound, port, more);
  }

  /** A verdict stands: more bytes only add to what is left over. */
  lemma ReplyOutcomeStays(signed: bool, resolving: bool, s: Bytes, more: Bytes)
    ensures var o := ReplyOutcome(signed, resolving, s); var p := ReplyOutcome(signed, resolving, s + more);
      && (o.Failure? ==> p.Failure?)
      && (o.Success? ==> p == o.(rest := o.rest + more))
  {
    var o := ReplyOutcome(signed, resolving, s);
    if o.Success? {
      var n := ReplySize(signed, s).value;
      assert (s + more)[n..] == s[n..] + more;
      assert s[3] != 3 ==> (s + more)[4..n - 2] == s[4..n - 2];
    }
  }
}
