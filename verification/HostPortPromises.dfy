/** What a string gives for a host and a port, told by the string alone: where its
    colons are, and which digits follow the only one. */
module HostPortPromises {
  import opened Base32
  import opened HostPort
  import opened Widths
  import opened Wrappers

  /** A name, and no address. */
  predicate IsName(e: Endpoint, host: string, port: int) {
    e.isSet && e.addr == None && e.host == host && e.port == port && (e.isDns <==> !e.isOnion)
  }

  // ----- colons -----

  /** Without a colon all of the string is the host, and the port is the one given. */
  lemma NoColon(lit: string -> Option<SockLiteral>, s: string, port: int)
    requires s != "" && lit(CStr(s)) == None && ':' !in s
    ensures IsName(Parsed(lit, s, port), s, port)
  {
    CountNone(s, ':');
  }

  lemma ManyAreNotOne(s: string, i: nat, j: nat)
    requires i < j < |s| && s[i] == ':' && s[j] == ':'
    ensures Count(s, ':') >= 2
  {
    var before, after := s[..j], s[j..];
    assert before + after == s && before[i] == ':' && after[0] == ':';
    CountSplit(before, after, ':');
    CountNone(before, ':');
    CountNone(after, ':');
  }

  /** With two colons or more, too. */
  lemma ManyColons(lit: string -> Option<SockLiteral>, s: string, port: int, i: nat, j: nat)
    requires lit(CStr(s)) == None && i < j < |s| && s[i] == ':' && s[j] == ':'
    ensures IsName(Parsed(lit, s, port), s, port)
  {
    ManyAreNotOne(s, i, j);
  }

  /** A colon at the end is dropped. */
  lemma ColonAtTheEnd(lit: string -> Option<SockLiteral>, host: string, port: int)
    requires lit(CStr(host + ":")) == None && ':' !in host
    ensures IsName(Parsed(lit, host + ":", port), host, port)
  {
    OneColon(host, "");
    assert host + ":" + "" == host + ":";
    assert (host + ":")[..|host|] == host && (host + ":")[|host| + 1..] == "";
  }

  lemma OwnPort(lit: string -> Option<SockLiteral>, host: string, d: string, port: int)
    requires lit(CStr(host + ":" + d)) == None && ':' !in host && ':' !in d && d != ""
    ensures IsName(Parsed(lit, host + ":" + d, port), host, PortOf(d))
  {
    OneColon(host, d);
    var s := host + ":" + d;
    assert s[..|host|] == host && s[|host| + 1..] == d;
  }

  // ----- the number after the only colon -----

  predicate AllDigits(s: string) {
    forall i :: 0 <= i < |s| ==> '0' <= s[i] <= '9'
  }

  predicate NoDigits(s: string) {
    forall i :: 0 <= i < |s| ==> !('0' <= s[i] <= '9')
  }

  /** A string of digits by itself, or with something else after it, is read as its value. */
  lemma DigitsAreRead(d: string, after: string)
    requires d != "" && AllDigits(d) && (after == "" || !('0' <= after[0] <= '9'))
    ensures PortOf(d + after) == if DigitsValue(d) <= 65535 then DigitsValue(d) else 0
  {
    var s := d + after;
    assert IsDigit(s[0]);
    assert s[..|d|] == d;
    assert DigitCount(s) == |d|;
  }

  lemma {:induction false} ZerosInFront(zeros: string, d: string)
    requires AllDigits(d) && forall i :: 0 <= i < |zeros| ==> zeros[i] == '0'
    ensures AllDigits(zeros + d) && DigitsValue(zeros + d) == DigitsValue(d)
    decreases |zeros| + |d|
  {
    if d != "" {
      assert (zeros + d)[..|zeros + d| - 1] == zeros + d[..|d| - 1];
      ZerosInFront(zeros, d[..|d| - 1]);
    } else if zeros != "" {
      assert zeros + d == zeros;
      ZerosInFront(zeros[..|zeros| - 1], d);
      assert zeros[..|zeros| - 1] + d == zeros[..|zeros| - 1];
    }
  }

  lemma OneMoreDigit(d: string, k: nat)
    requires AllDigits(d) && k < |d|
    ensures DigitsValue(d[..k + 1]) == 10 * DigitsValue(d[..k]) + (d[k] as int - '0' as int)
  {
    assert d[..k + 1][..k] == d[..k];
  }

  lemma ThreeDigits(d: string)
    requires AllDigits(d) && |d| >= 3
    ensures DigitsValue(d[..3]) == 100 * (d[0] as int - '0' as int) + 10 * (d[1] as int - '0' as int)
                                 + (d[2] as int - '0' as int)
  {
    OneMoreDigit(d, 0);
    OneMoreDigit(d, 1);
    OneMoreDigit(d, 2);
  }

  lemma FiveDigits(d: string)
    requires AllDigits(d) && |d| == 5
    ensures DigitsValue(d) == 10000 * (d[0] as int - '0' as int) + 1000 * (d[1] as int - '0' as int)
                            + 100 * (d[2] as int - '0' as int) + 10 * (d[3] as int - '0' as int) + (d[4] as int - '0' as int)
  {
    ThreeDigits(d);
    OneMoreDigit(d, 3);
    OneMoreDigit(d, 4);
    assert d[..5] == d;
  }

  lemma SixDigits(d: string)
    requires AllDigits(d) && |d| == 6 && d[0] != '0'
    ensures DigitsValue(d) >= 100000
  {
    FiveDigits(d[..5]);
  }

  lemma {:induction false} ManyDigitsAreMuch(d: string)
    requires AllDigits(d) && |d| >= 6 && d[0] != '0'
    ensures DigitsValue(d) >= 100000
  {
    if |d| > 6 {
      ManyDigitsAreMuch(d[..|d| - 1]);
    } else {
      SixDigits(d);
    }
  }

  /** Five digits are read as a number, the first of them for the ten thousands; a number
      that does not fit a port gives port 0, and so the given port never comes back. */
  lemma FiveDigitPort(lit: string -> Option<SockLiteral>, host: string, d: string, port: int, n: nat)
    requires lit(CStr(host + ":" + d)) == None && ':' !in host && AllDigits(d) && |d| == 5
    requires n == 10000 * (d[0] as int - '0' as int) + 1000 * (d[1] as int - '0' as int)
                + 100 * (d[2] as int - '0' as int) + 10 * (d[3] as int - '0' as int) + (d[4] as int - '0' as int)
    ensures IsName(Parsed(lit, host + ":" + d, port), host, if n <= 65535 then n else 0)
  {
    OwnPort(lit, host, d, port);
    FiveDigits(d);
    DigitsAreRead(d, "");
    assert d + "" == d;
  }

  lemma SameNumber(zeros: string, d: string, after: string)
    requires d != "" && AllDigits(d) && forall i :: 0 <= i < |zeros| ==> zeros[i] == '0'
    requires after == "" || !('0' <= after[0] <= '9')
    ensures PortOf(zeros + d + after) == PortOf(d)
  {
    ZerosInFront(zeros, d);
    DigitsAreRead(d, "");
    DigitsAreRead(zeros + d, after);
    assert d + "" == d;
  }

  /** Zeros in front do not count, so this covers numbers of fewer digits; nor does
      anything that follows the digits. */
  lemma PortAmongOthers(lit: string -> Option<SockLiteral>, host: string, zeros: string, d: string, after: string,
                        port: int, other: int, text: string)
    requires ':' !in host && d != "" && AllDigits(d) && forall i :: 0 <= i < |zeros| ==> zeros[i] == '0'
    requires ':' !in after && (after == "" || !('0' <= after[0] <= '9')) && text == zeros + d + after
    requires lit(CStr(host + ":" + d)) == None && lit(CStr(host + ":" + text)) == None
    ensures exists own :: IsName(Parsed(lit, host + ":" + d, other), host, own)
                       && IsName(Parsed(lit, host + ":" + text, port), host, own)
  {
    SameNumber(zeros, d, after);
    OwnPort(lit, host, d, other);
    OwnPort(lit, host, text, port);
  }

  lemma TooMany(d: string)
    requires AllDigits(d) && |d| >= 6 && d[0] != '0'
    ensures PortOf(d) == 0
  {
    ManyDigitsAreMuch(d);
    DigitsAreRead(d, "");
    assert d + "" == d;
  }

  /** Six digits or more that do not start with a zero give port 0. */
  lemma TooManyDigits(lit: string -> Option<SockLiteral>, host: string, d: string, port: int)
    requires lit(CStr(host + ":" + d)) == None && ':' !in host && AllDigits(d) && |d| >= 6 && d[0] != '0'
    ensures IsName(Parsed(lit, host + ":" + d, port), host, 0)
  {
    OwnPort(lit, host, d, port);
    TooMany(d);
  }

  lemma {:induction false} SkippedIsASuffix(s: string)
    ensures |SkipSpaces(s)| <= |s| && SkipSpaces(s) == s[|s| - |SkipSpaces(s)|..]
  {
    if s != "" && IsSpace(s[0]) {
      SkippedIsASuffix(s[1..]);
    }
  }

  lemma NoDigitNoPort(d: string)
    requires NoDigits(d)
    ensures PortOf(d) == 0
  {
    SkippedIsASuffix(d);
  }

  /** What has no digit in it is not a number, and gives port 0. */
  lemma NoNumber(lit: string -> Option<SockLiteral>, host: string, d: string, port: int)
    requires lit(CStr(host + ":" + d)) == None && ':' !in host && ':' !in d && d != "" && NoDigits(d)
    ensures IsName(Parsed(lit, host + ":" + d, port), host, 0)
  {
    OwnPort(lit, host, d, port);
    NoDigitNoPort(d);
  }

  predicate AllSpaces(s: string) {
    forall i :: 0 <= i < |s| ==> s[i] == ' ' || 9 <= s[i] as int <= 13
  }

  lemma {:induction false} SpacesAreSkipped(spaces: string, s: string)
    requires AllSpaces(spaces) && (s == "" || !IsSpace(s[0]))
    ensures SkipSpaces(spaces + s) == s
  {
    if spaces == "" {
      assert spaces + s == s;
    } else {
      assert (spaces + s)[1..] == spaces[1..] + s;
      SpacesAreSkipped(spaces[1..], s);
    }
  }

  lemma SpacesDoNotCount(spaces: string, s: string)
    requires AllSpaces(spaces) && s != "" && !IsSpace(s[0])
    ensures PortOf(spaces + s) == PortOf(s)
  {
    SpacesAreSkipped(spaces, s);
    assert Stoul(spaces + s) == Stoul(s);
  }

  lemma PlusIsTaken(d: string)
    requires d != "" && AllDigits(d)
    ensures PortOf("+" + d) == PortOf(d)
  {
    var s := "+" + d;
    assert s[0] == '+' && s[1..] == d && IsDigit(d[0]);
    assert SkipSpaces(s) == s && SkipSpaces(d) == d;
  }

  lemma MinusWraps(d: string)
    requires d != "" && AllDigits(d) && DigitsValue(d) <= 99999
    ensures PortOf("-" + d) == 0
  {
    var s := "-" + d;
    assert s[0] == '-' && s[1..] == d && IsDigit(d[0]);
    assert DigitCount(d) == |d| && d[..|d|] == d;
  }

  lemma SignIsTaken(spaces: string, sign: string, d: string)
    requires AllSpaces(spaces) && AllDigits(d) && |d| == 5 && sign in ["", "+", "-"]
    ensures PortOf(spaces + (sign + d)) == if sign == "-" then 0 else PortOf(d)
  {
    var s := sign + d;
    assert s[0] == if sign == "" then d[0] else sign[0];
    SpacesDoNotCount(spaces, s);
    if sign == "" {
      assert s == d;
    } else if sign == "+" {
      PlusIsTaken(d);
    } else {
      FiveDigits(d);
      MinusWraps(d);
    }
  }

  lemma NoColonInNumber(spaces: string, sign: string, d: string)
    requires AllSpaces(spaces) && AllDigits(d) && sign in ["", "+", "-"]
    ensures ':' !in spaces + (sign + d)
  {
  }

  /** Spaces and a plus sign may stand in front of the number; a negative one, of
      five digits, gives port 0. */
  lemma SignedPort(lit: string -> Option<SockLiteral>, host: string, spaces: string, sign: string, d: string,
                   port: int, other: int, text: string)
    requires ':' !in host && AllSpaces(spaces) && sign in ["", "+", "-"] && AllDigits(d) && |d| == 5
    requires text == spaces + (sign + d)
    requires lit(CStr(host + ":" + d)) == None && lit(CStr(host + ":" + text)) == None
    ensures exists own :: IsName(Parsed(lit, host + ":" + d, other), host, own)
                       && IsName(Parsed(lit, host + ":" + text, port), host, if sign == "-" then 0 else own)
  {
    SignIsTaken(spaces, sign, d);
    NoColonInNumber(spaces, sign, d);
    OwnPort(lit, host, d, other);
    OwnPort(lit, host, text, port);
  }

  /** White space and signs, which may stand in front of a number. */
  predicate MayPrecede(c: char) {
    c == ' ' || c == '+' || c == '-' || 9 <= c as int <= 13
  }

  lemma LeadingTextNoPort(d: string)
    requires d != "" && !('0' <= d[0] <= '9') && !MayPrecede(d[0])
    ensures PortOf(d) == 0
  {
  }

  /** Nor is what begins with anything but a digit, a space or a sign. */
  lemma NumberComesFirst(lit: string -> Option<SockLiteral>, host: string, d: string, port: int)
    requires lit(CStr(host + ":" + d)) == None && ':' !in host && ':' !in d && d != ""
    requires !('0' <= d[0] <= '9') && !MayPrecede(d[0])
    ensures IsName(Parsed(lit, host + ":" + d, port), host, 0)
  {
    OwnPort(lit, host, d, port);
    LeadingTextNoPort(d);
  }

  // ----- addresses -----

  /** A port that is written in the literal is kept; a missing one is the one given. */
  lemma LiteralPort(lit: string -> Option<SockLiteral>, s: string, port: int)
    requires s != "" && lit(CStr(s)).Some?
    ensures var e := Parsed(lit, s, port); var a := lit(CStr(s)).value;
      && e.isSet && !e.isDns && !e.isOnion && e.host == "" && e.port == 0 && e.addr.Some?
      && (a.Ip4? && a.port != 0 ==> e.addr.value == a)
      && (a.Ip6? && a.port != 0 ==> e.addr.value == a)
      && (a.Ip4? && a.port == 0 ==> e.addr.value == Ip4(a.address, port))
      && (a.Ip6? && a.port == 0 ==> e.addr.value == Ip6(a.address, port))
      && (a.OtherSock? ==> e.addr.value == a)
  {
  }

  /** The literal is looked for in what comes before the first terminator. */
  lemma {:induction false} LiteralEnds(s: string, more: string)
    requires '\0' !in s
    ensures CStr(s + ['\0'] + more) == s
  {
    if s != "" {
      LiteralEnds(s[1..], more);
      assert (s + ['\0'] + more)[1..] == s[1..] + ['\0'] + more;
    }
  }

  // ----- onion names -----

  /** An onion name ends in .onion and has something in front of it. */
  lemma OnionEnds(lit: string -> Option<SockLiteral>, s: string, port: int)
    requires lit(CStr(s)) == None
    ensures var e := Parsed(lit, s, port); e.isOnion ==> exists name :: name != "" && e.host == name + ".onion"
  {
    var e := Parsed(lit, s, port);
    if e.isOnion {
      assert e.host == e.host[..|e.host| - 6] + ".onion";
    }
  }

  lemma NoColonInSeed(seed: string)
    requires seed == "seed.example.org"
    ensures seed != "" && ':' !in seed
  {
  }

  /** A seed with no port keeps the default one. */
  lemma SeedKeepsThePort(lit: string -> Option<SockLiteral>, seed: string)
    requires seed == "seed.example.org" && lit(CStr(seed)) == None
    ensures IsName(Parsed(lit, seed, 8333), seed, 8333)
  {
    NoColonInSeed(seed);
    NoColon(lit, seed, 8333);
  }
}
