/** The host and port a connection is asked for: the constructor that takes them
    out of one string, and printing them back. */
module HostPort {
  import opened Base32
  import opened Widths
  import opened Wrappers

  const NPOS: int := SIZE_T_SPAN - 1

  // ----- strings -----

  /** The characters before the first terminator, as C sees a string. */
  function CStr(s: string): (r: string)
    ensures '\0' !in r && |r| <= |s|
    ensures '\0' !in s ==> r == s
  {
    if s == "" || s[0] == '\0' then "" else [s[0]] + CStr(s[1..])
  }

  /** Where a character occurs last, or -1. */
  function LastIndex(s: string, c: char): (i: int)
    ensures -1 <= i < |s|
    ensures i >= 0 ==> s[i] == c
    ensures forall j :: i < j < |s| ==> s[j] != c
  {
    if s == "" then -1
    else if s[|s| - 1] == c then |s| - 1
    else LastIndex(s[..|s| - 1], c)
  }

  /** find_last_of, up to a position and with its way of saying no. */
  function FindLastOf(s: string, c: char, pos: int): (i: int)
    requires 0 <= pos <= NPOS
  {
    var i := LastIndex(if pos + 1 < |s| then s[..pos + 1] else s, c);
    if i < 0 then NPOS else i
  }

  function Count(s: string, c: char): nat {
    if s == "" then 0 else Count(s[..|s| - 1], c) + if s[|s| - 1] == c then 1 else 0
  }

  // ----- counting colons -----

  lemma {:induction false} CountSplit(s: string, t: string, c: char)
    ensures Count(s + t, c) == Count(s, c) + Count(t, c)
    decreases |t|
  {
    if t == "" {
      assert s + t == s;
    } else {
      assert (s + t)[..|s + t| - 1] == s + t[..|t| - 1];
      CountSplit(s, t[..|t| - 1], c);
    }
  }

  lemma {:induction false} CountNone(s: string, c: char)
    ensures Count(s, c) == 0 <==> forall j :: 0 <= j < |s| ==> s[j] != c
  {
    if s != "" {
      CountNone(s[..|s| - 1], c);
      assert forall j :: 0 <= j < |s| - 1 ==> s[..|s| - 1][j] == s[j];
    }
  }

  /** One colon means one that is last and none before it. */
  lemma CountAtLast(s: string, c: char)
    ensures var i := LastIndex(s, c);
      if i < 0 then Count(s, c) == 0 else Count(s, c) == Count(s[..i], c) + 1
  {
    var i := LastIndex(s, c);
    if i < 0 {
      CountNone(s, c);
    } else {
      CountNone(s[i + 1..], c);
      assert s == s[..i] + [c] + s[i + 1..];
      CountSplit(s[..i] + [c], s[i + 1..], c);
      CountSplit(s[..i], [c], c);
      assert Count([c], c) == Count([], c) + 1;
    }
  }

  lemma NoneBefore(s: string, c: char)
    ensures LastIndex(s, c) < 0 <==> Count(s, c) == 0
  {
    CountAtLast(s, c);
  }

  // ----- decimal numbers -----

  predicate IsDigit(c: char) {
    '0' <= c <= '9'
  }

  function Decimal(n: nat): (s: string)
    ensures s != "" && forall i :: 0 <= i < |s| ==> IsDigit(s[i])
  {
    var d := ['0' + (n % 10) as char];
    if n < 10 then d else Decimal(n / 10) + d
  }

  function DigitValue(c: char): nat
    requires IsDigit(c)
  {
    c as int - '0' as int
  }

  function DigitsValue(s: string): nat
    requires forall i :: 0 <= i < |s| ==> IsDigit(s[i])
  {
    if s == "" then 0 else 10 * DigitsValue(s[..|s| - 1]) + DigitValue(s[|s| - 1])
  }

  lemma {:induction false} DecimalValue(n: nat)
    ensures DigitsValue(Decimal(n)) == n
  {
    var s := Decimal(n);
    if n >= 10 {
      DecimalValue(n / 10);
      assert s[..|s| - 1] == Decimal(n / 10);
    }
  }

  /** The number of digits a string starts with. */
  function DigitCount(s: string): (n: nat)
    ensures n <= |s| && forall i :: 0 <= i < n ==> IsDigit(s[i])
    ensures n < |s| ==> !IsDigit(s[n])
  {
    if s == "" || !IsDigit(s[0]) then 0
    else
      var n := 1 + DigitCount(s[1..]);
      assert forall i :: 0 < i < n ==> s[i] == s[1..][i - 1];
      n
  }

  predicate IsSpace(c: char) {
    c == ' ' || 9 as char <= c <= 13 as char
  }

  function SkipSpaces(s: string): string {
    if s != "" && IsSpace(s[0]) then SkipSpaces(s[1..]) else s
  }

  /** std::stoul: leading space, a sign, digits; none when there are no digits or
      too many. A negative number wraps around. */
  function Stoul(s: string): Option<nat> {
    var t := SkipSpaces(s);
    var negative := t != "" && t[0] == '-';
    var u := if t != "" && (t[0] == '-' || t[0] == '+') then t[1..] else t;
    var n := DigitCount(u);
    if n == 0 then None
    else
      var v := DigitsValue(u[..n]);
      if v >= SIZE_T_SPAN then None
      else Some(if negative && v > 0 then SIZE_T_SPAN - v else v)
  }

  lemma StoulOfDecimal(n: nat)
    requires n < SIZE_T_SPAN
    ensures Stoul(Decimal(n)) == Option.Some(n)
  {
    var s := Decimal(n);
    DecimalValue(n);
    assert IsDigit(s[0]);
    assert DigitCount(s) == |s| && s[..|s|] == s;
  }

  /** The port a string names: zero unless it is a number of at most 16 bits. */
  function PortOf(s: string): (port: nat)
    ensures port < 0x1_0000
  {
    match Stoul(s)
    case None => 0
    case Some(v) => if v <= 65535 then v else 0
  }

  // ----- what a string stands for -----

  /** The socket address of a literal; it has a port only in the IP families. */
  datatype SockLiteral = Ip4(address: int, port: int) | Ip6(address: int, port: int) | OtherSock(address: int)

  function WithDefaultPort(a: SockLiteral, port: int): SockLiteral {
    match a
    case Ip4(x, p) => Ip4(x, if p == 0 then port else p)
    case Ip6(x, p) => Ip6(x, if p == 0 then port else p)
    case OtherSock(_) => a
  }

  datatype Endpoint = Endpoint(
    host: string,
    port: int,
    isDns: bool,
    isOnion: bool,
    isSet: bool,
    addr: Option<SockLiteral>)

  const UNSET := Endpoint("", 0, false, false, false, None)

  const ONION := ".onion"

  /** A name that ends in .onion after what the base32 decoder calls valid. */
  ghost predicate IsOnionName(host: string) {
    |host| > 6 && host[|host| - 6..] == ONION && Accepts(CStr(host[..|host| - 6]))
  }

  ghost function Named(host: string, port: int): Endpoint {
    Endpoint(host, port, !IsOnionName(host), IsOnionName(host), true, None)
  }

  /** A name, and its own port if it has exactly one colon and something after it. */
  function HostAndPort(s: string, port: int): (string, int) {
    NoneBefore(s, ':');
    if Count(s, ':') != 1 then (s, port)
    else
      var colon := LastIndex(s, ':');
      var after := s[colon + 1..];
      (s[..colon], if after == "" then port else PortOf(after))
  }

  /** What a string and a default port stand for, given how address literals are
      read: nothing, an address, or a name. */
  ghost function Parsed(lit: string -> Option<SockLiteral>, s: string, port: int): Endpoint {
    if s == "" then UNSET
    else
      match lit(CStr(s))
      case Some(a) => Endpoint("", 0, false, false, true, Some(WithDefaultPort(a, port)))
      case None =>
        var (host, own) := HostAndPort(s, port);
        Named(host, own)
  }

  /** One less, as a size: before zero comes the largest. */
  function Before(i: int): (r: int)
    requires 0 <= i <= NPOS
    ensures 0 <= r <= NPOS
  {
    if i == 0 then NPOS else i - 1
  }

  /** The test the constructor makes is that there is exactly one colon. */
  lemma ColonTest(s: string)
    requires |s| < NPOS
    ensures var colon := FindLastOf(s, ':', NPOS);
      && (colon != NPOS && (colon == 0 || FindLastOf(s, ':', Before(colon)) == NPOS) <==> Count(s, ':') == 1)
      && (Count(s, ':') == 1 ==> colon == LastIndex(s, ':'))
  {
    var i := LastIndex(s, ':');
    CountAtLast(s, ':');
    if i >= 0 {
      NoneBefore(s[..i], ':');
    }
  }

  /** Whether the base32 decoder calls a string invalid. */
  method NoBase32(name: string) returns (invalid: bool)
    requires '\0' !in name
    ensures invalid <==> !Accepts(name)
  {
    var p := name + ['\0'];
    assert p[..|p| - 1] == name;
    var decoded;
    decoded, invalid := DecodeBase32(p);
  }

  method ReadPort(portstr: string) returns (port: int)
    ensures port == PortOf(portstr)
  {
    port := 0;
    match Stoul(portstr) {
      case Some(longport) =>
        if longport <= 65535 {
          port := longport;
        }
      case None =>
    }
  }

  function Printed(show: SockLiteral -> string, e: Endpoint): string
    requires e.port >= 0
  {
    if e.isDns || e.isOnion then e.host + ":" + Decimal(e.port)
    else
      match e.addr
      case Some(a) => show(a)
      case None => ""
  }

  // ----- the connection object -----

  class ConnectionBase {
    var host: string
    var port: int
    var isDns: bool
    var isOnion: bool
    var isSet: bool
    var addr: Option<SockLiteral>
    var connectionString: string

    function Val(): Endpoint
      reads this
    {
      Endpoint(host, port, isDns, isOnion, isSet, addr)
    }

    constructor (lit: string -> Option<SockLiteral>, hostIn: string, portIn: int)
      requires 0 <= portIn < 0x1_0000 && |hostIn| < NPOS
      ensures Val() == Parsed(lit, hostIn, portIn)
    {
      host, port, isDns, isOnion, isSet := hostIn, portIn, true, false, true;
      addr, connectionString := None, hostIn;
      new;
      if host == "" {
        host, port, isDns, isOnion, isSet := "", 0, false, false, false;
        connectionString := "";
        return;
      }
      match lit(CStr(host)) {
        case Some(a) =>
          host, port, isDns := "", 0, false;
          addr := Some(WithDefaultPort(a, portIn));
        case None =>
          TakePort();
          Classify();
      }
    }

    /** Take a port off the end of the name. */
    method TakePort()
      requires |host| < NPOS
      modifies `host, `port
      ensures (host, port) == HostAndPort(old(host), old(port))
    {
      ColonTest(host);
      var colon := FindLastOf(host, ':', NPOS);
      var haveColon := colon != NPOS;
      var multiColon := haveColon && FindLastOf(host, ':', Before(colon)) != NPOS;
      if haveColon && (colon == 0 || !multiColon) {
        var portstr := host[colon + 1..];
        if portstr != "" {
          port := ReadPort(portstr);
        }
        host := host[..colon];
      }
    }

    /** Tell an onion address from any other name. */
    method Classify()
      requires isDns && !isOnion
      modifies `isDns, `isOnion
      ensures isOnion == IsOnionName(host) && isDns == !IsOnionName(host)
    {
      if |host| > 6 && host[|host| - 6..] == ONION {
        var invalid := NoBase32(CStr(host[..|host| - 6]));
        if !invalid {
          isOnion := true;
          isDns := false;
        }
      }
    }

    /** show is how an address literal is printed. */
    method ToString(show: SockLiteral -> string) returns (s: string)
      requires port >= 0
      ensures s == Printed(show, Val())
    {
      if isDns || isOnion {
        return host + ":" + Decimal(port);
      }
      match addr
      case Some(a) => s := show(a);
      case None => s := "";
    }
  }

  // ----- round trips -----

  lemma OnlyColon(s: string, i: nat)
    requires i < |s| && s[i] == ':' && Count(s, ':') == 1
    ensures LastIndex(s, ':') == i
  {
    var k := LastIndex(s, ':');
    CountAtLast(s, ':');
    CountNone(s[..k], ':');
    forall j | 0 <= j < k ensures s[j] != ':' {
      assert s[..k][j] == s[j];
    }
  }

  lemma OneColon(host: string, d: string)
    requires ':' !in host && ':' !in d
    ensures Count(host + ":" + d, ':') == 1 && LastIndex(host + ":" + d, ':') == |host|
  {
    CountNone(host, ':');
    CountNone(d, ':');
    CountSplit(host + ":", d, ':');
    CountSplit(host, ":", ':');
    assert Count(":", ':') == Count("", ':') + 1;
    OnlyColon(host + ":" + d, |host|);
  }

  /** A name without colons and a port, put together and taken apart again, with
      whatever default port. */
  lemma HostPortRoundTrip(lit: string -> Option<SockLiteral>, host: string, port: int, other: int)
    requires ':' !in host && 0 <= port < 0x1_0000
    requires lit(CStr(host + ":" + Decimal(port))) == None
    ensures Parsed(lit, host + ":" + Decimal(port), other) == Named(host, port)
  {
    var d := Decimal(port);
    StoulOfDecimal(port);
    OneColon(host, d);
    var s := host + ":" + d;
    assert s[..|host|] == host && s[|host| + 1..] == d;
  }

  /** A name and a port, printed as text, are read back as the same name and port,
      whatever the default port, exactly if the name has no colon and the text is not
      read as an address. */
  lemma NamedRoundTrip(lit: string -> Option<SockLiteral>, host: string, port: int, other: int, text: string)
    requires 0 <= port < 0x1_0000 && text == host + ":" + Decimal(port)
    ensures Parsed(lit, text, other) == Named(host, port) <==> ':' !in host && lit(CStr(text)) == None
  {
    var d := Decimal(port);
    if lit(CStr(text)) == None {
      if ':' !in host {
        HostPortRoundTrip(lit, host, port, other);
      } else {
        CountSplit(host + ":", d, ':');
        CountSplit(host, ":", ':');
        assert Count(":", ':') == Count("", ':') + 1;
        CountNone(host, ':');
        assert Parsed(lit, text, other).host == text;
      }
    }
  }

  /** So for every name a string was read as: what is printed for it gives the same
      host, port and kind again exactly under that condition. */
  lemma PrintedRoundTrip(lit: string -> Option<SockLiteral>, show: SockLiteral -> string, s: string, port: int, other: int,
                         e: Endpoint)
    requires 0 <= port < 0x1_0000 && e == Parsed(lit, s, port) && (e.isDns || e.isOnion)
    ensures Parsed(lit, Printed(show, e), other) == e <==> ':' !in e.host && lit(CStr(Printed(show, e))) == None
  {
    NamedRoundTrip(lit, e.host, e.port, other, Printed(show, e));
  }

  /** A string with two colons is all host, and is not read back as printed. */
  lemma TwoColonsStay(show: SockLiteral -> string)
    ensures Parsed(_ => None, "a:b:c", 80) == Named("a:b:c", 80)
    ensures Parsed(_ => None, Printed(show, Named("a:b:c", 80)), 80) != Named("a:b:c", 80)
  {
    CountSplit("a:b", ":c", ':');
    CountSplit("a", ":b", ':');
    CountSplit(":", "b", ':');
    CountSplit(":", "c", ':');
    assert "a:b" + ":c" == "a:b:c" && "a" + ":b" == "a:b" && ":" + "b" == ":b" && ":" + "c" == ":c";
    assert Count(":", ':') == Count("", ':') + 1;
    NamedRoundTrip(_ => None, "a:b:c", 80, 80, Printed(show, Named("a:b:c", 80)));
    assert "a:b:c"[1] == ':';
  }

  /** An address reader that takes one literal, with its port. */
  const ONLY_LITERAL: string -> Option<SockLiteral> := s => if s == "1.2.3.4:80" then Some(Ip4(0x0102_0304, 80)) else None

  lemma NameWithNoPort()
    ensures HostAndPort("1.2.3.4:", 80) == ("1.2.3.4", 80)
    ensures Parsed(ONLY_LITERAL, "1.2.3.4:", 80) == Named("1.2.3.4", 80)
  {
    var s := "1.2.3.4:";
    CountNone("1.2.3.4", ':');
    CountSplit("1.2.3.4", ":", ':');
    assert "1.2.3.4" + ":" == s;
    assert Count(":", ':') == Count("", ':') + 1;
    assert LastIndex(s, ':') == 7 && s[..7] == "1.2.3.4" && s[8..] == "";
  }

  lemma PrintedWithPort(show: SockLiteral -> string, e: Endpoint)
    requires e == Endpoint("1.2.3.4", 80, true, false, true, None)
    ensures Printed(show, e) == "1.2.3.4:80"
  {
    assert Decimal(8) == "8" && Decimal(80) == "80";
    assert "1.2.3.4" + ":" + "80" == "1.2.3.4:80";
  }

  lemma LiteralIsRead(s: string)
    requires s == "1.2.3.4:80"
    ensures Parsed(ONLY_LITERAL, s, 80) == Endpoint("", 0, false, false, true, Some(Ip4(0x0102_0304, 80)))
  {
    assert '\0' !in s;
  }

  lemma NotAnOnion()
    ensures Named("1.2.3.4", 80) == Endpoint("1.2.3.4", 80, true, false, true, None)
    ensures ':' !in "1.2.3.4"
  {
    assert "1.2.3.4"[1..][0] == '.' && "1.2.3.4"[1..][1] == '2';
    assert ONION[1] == 'o';
  }

  /** A name that is printed as an address: an empty port makes "1.2.3.4:" a name, with
      the default port; it is printed with that port, and then read as an address. */
  lemma AddressWithNoPort(s: string, show: SockLiteral -> string)
    requires s == "1.2.3.4:"
    ensures var e := Parsed(ONLY_LITERAL, s, 80);
      && e.isDns && ':' !in e.host && Printed(show, e) == "1.2.3.4:80"
      && Parsed(ONLY_LITERAL, Printed(show, e), 80) == Endpoint("", 0, false, false, true, Some(Ip4(0x0102_0304, 80)))
  {
    NameWithNoPort();
    NotAnOnion();
    PrintedWithPort(show, Named("1.2.3.4", 80));
    LiteralIsRead(Printed(show, Named("1.2.3.4", 80)));
  }

  /** A string is nothing, an address, a DNS name or an onion name, and only one of them. */
  lemma OneKind(lit: string -> Option<SockLiteral>, s: string, port: int)
    ensures var e := Parsed(lit, s, port);
      && (e.isSet <==> s != "")
      && (e.isSet ==> (e.addr.Some? <==> !e.isDns && !e.isOnion) && !(e.isDns && e.isOnion))
      && (!e.isSet ==> e == UNSET)
      && (e.isOnion ==> IsOnionName(e.host))
  {
  }

  lemma SpelledHasNoTerminator(name: string)
    requires Spells(name)
    ensures '\0' !in name
  {
    forall i | 0 <= i < |name| ensures name[i] != '\0' {
      assert Value('\0') < 0;
    }
  }

  /** A label of whole base32 groups makes an onion name, with or without a port. */
  lemma WholeGroupsAreOnion(name: string, groups: nat)
    requires Spells(name) && |name| == 8 * groups && groups > 0
    ensures IsOnionName(name + ONION)
  {
    assert Prefix(name) == |name|;
    WholeGroupsAccepted(name, groups);
    assert (name + ONION)[..|name + ONION| - 6] == name;
    assert (name + ONION)[|name + ONION| - 6..] == ONION;
    SpelledHasNoTerminator(name);
  }
}
