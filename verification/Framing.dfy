/** Message framing on values: the first message of a stream, a parser of a
    whole stream, and a reader that is handed the stream in arbitrary pieces. */
module Framing {
  import opened Bits

  type Bytes = seq<byte>

  /** The network configuration; a message has its total size less header_size in
      four bytes, least significant first, at offset. */
  datatype Config = Config(
    messageStart: Bytes,
    offset: int,
    sizeSize: int,
    headerSize: int,
    maxSize: int,
    chunkSize: int)
  {
    predicate WellFormed() {
      && sizeSize == 4
      && 0 <= offset && offset + 4 <= headerSize < 0x8000_0000
      && |messageStart| <= offset + 4
      && 0 <= maxSize < 0x1_0000_0000 && (maxSize == 0 || headerSize <= maxSize)
    }

    /** How many bytes tell the size of a message. */
    function Needed(): int {
      offset + sizeSize
    }
  }

  function LittleEndian(s: Bytes): (n: nat)
    decreases |s|
  {
    if s == [] then 0 else s[0] + 256 * LittleEndian(s[1..])
  }

  lemma FourBytes(s: Bytes)
    requires |s| == 4
    ensures LittleEndian(s) == s[0] as int + 0x100 * s[1] as int + 0x1_0000 * s[2] as int + 0x100_0000 * s[3] as int
    ensures LittleEndian(s) < 0x1_0000_0000
  {
    var s1, s2, s3 := s[1..], s[2..], s[3..];
    assert s1[1..] == s2 && s2[1..] == s3 && s3[1..] == [];
    assert LittleEndian(s3) == s[3];
    assert LittleEndian(s2) == s[2] as int + 256 * s[3] as int;
    assert LittleEndian(s1) == s[1] as int + 256 * LittleEndian(s2);
  }

  lemma Assoc<T>(a: seq<T>, b: seq<T>, c: seq<T>)
    ensures a + b + c == a + (b + c)
  {
  }

  lemma CutAndJoin<T>(s: seq<T>, n: nat)
    requires n <= |s|
    ensures s[..n] + s[n..] == s
  {
  }

  lemma JoinAndCut<T>(a: seq<T>, b: seq<T>)
    ensures (a + b)[..|a|] == a && (a + b)[|a|..] == b
  {
  }

  // ----- the first message of a buffer -----

  predicate HasHeader(cfg: Config, s: Bytes) {
    cfg.Needed() <= |s|
  }

  predicate StartsRight(cfg: Config, s: Bytes)
    requires cfg.WellFormed() && HasHeader(cfg, s)
  {
    s[..|cfg.messageStart|] == cfg.messageStart
  }

  function MessageSize(cfg: Config, s: Bytes): (n: nat)
    requires cfg.WellFormed() && HasHeader(cfg, s)
    ensures cfg.headerSize <= n
  {
    LittleEndian(s[cfg.offset..cfg.offset + 4]) + cfg.headerSize
  }

  predicate TooBig(cfg: Config, s: Bytes)
    requires cfg.WellFormed() && HasHeader(cfg, s)
  {
    cfg.maxSize > 0 && MessageSize(cfg, s) > cfg.maxSize
  }

  /** What can be said about the first message of a buffer. */
  datatype Look = NoHeader | BadStart | Oversize(size: nat) | Partial(size: nat) | Whole(size: nat)

  function LookAt(cfg: Config, s: Bytes): (l: Look)
    requires cfg.WellFormed()
    ensures l.Whole? ==> cfg.headerSize <= l.size <= |s|
    ensures l.Partial? ==> |s| < l.size && cfg.Needed() <= |s|
  {
    if !HasHeader(cfg, s) then NoHeader
    else if !StartsRight(cfg, s) then BadStart
    else
      var n := MessageSize(cfg, s);
      if TooBig(cfg, s) then Oversize(n)
      else if n <= |s| then Whole(n)
      else Partial(n)
  }

  // ----- the whole stream -----

  datatype Parsed = Parsed(msgs: seq<Bytes>, rest: Bytes, malformed: bool)

  /** The messages of a stream, up to where it ends or goes wrong. An oversize
      message that is there in full is thrown away. */
  function Parse(cfg: Config, s: Bytes): (p: Parsed)
    requires cfg.WellFormed()
    decreases |s|
  {
    match LookAt(cfg, s)
    case NoHeader => Parsed([], s, false)
    case BadStart => Parsed([], s, true)
    case Oversize(n) => Parsed([], if n <= |s| then s[n..] else s, true)
    case Partial(_) => Parsed([], s, false)
    case Whole(n) =>
      var p := Parse(cfg, s[n..]);
      p.(msgs := [s[..n]] + p.msgs)
  }

  /** What one message looks like on the wire. */
  predicate IsMessage(cfg: Config, m: Bytes)
    requires cfg.WellFormed()
  {
    HasHeader(cfg, m) && StartsRight(cfg, m) && !TooBig(cfg, m) && MessageSize(cfg, m) == |m|
  }

  function Joined(msgs: seq<Bytes>): Bytes {
    if msgs == [] then [] else msgs[0] + Joined(msgs[1..])
  }

  function TotalSize(msgs: seq<Bytes>): nat {
    if msgs == [] then 0 else |msgs[0]| + TotalSize(msgs[1..])
  }

  lemma {:induction false} TotalSizeOfJoined(msgs: seq<Bytes>)
    ensures TotalSize(msgs) == |Joined(msgs)|
  {
    if msgs != [] {
      TotalSizeOfJoined(msgs[1..]);
    }
  }

  /** What is added at the end does not change what is seen of the first message
      once its header is there, except that it may become whole. */
  lemma LookStays(cfg: Config, s: Bytes, more: Bytes)
    requires cfg.WellFormed() && HasHeader(cfg, s)
    ensures HasHeader(cfg, s + more)
    ensures StartsRight(cfg, s + more) == StartsRight(cfg, s)
    ensures MessageSize(cfg, s + more) == MessageSize(cfg, s)
  {
    assert (s + more)[..|cfg.messageStart|] == s[..|cfg.messageStart|];
    assert (s + more)[cfg.offset..cfg.offset + 4] == s[cfg.offset..cfg.offset + 4];
  }

  lemma FirstIsMessage(cfg: Config, s: Bytes, n: nat)
    requires cfg.WellFormed() && LookAt(cfg, s) == Whole(n)
    ensures IsMessage(cfg, s[..n])
  {
    LookStays(cfg, s[..n], s[n..]);
    assert s[..n] + s[n..] == s;
  }

  lemma MessageIsFirst(cfg: Config, m: Bytes, more: Bytes)
    requires cfg.WellFormed() && IsMessage(cfg, m)
    ensures LookAt(cfg, m + more) == Whole(|m|)
  {
    LookStays(cfg, m, more);
  }

  /** Where the parser stops: nothing whole is in front. */
  predicate Stuck(cfg: Config, t: Bytes)
    requires cfg.WellFormed()
  {
    !LookAt(cfg, t).Whole?
  }

  /** What is left of t when the parser stops there, and its verdict. */
  function Verdict(cfg: Config, t: Bytes): (p: Parsed)
    requires cfg.WellFormed()
    ensures p.msgs == [] && (p.malformed <==> LookAt(cfg, t).BadStart? || LookAt(cfg, t).Oversize?)
  {
    match LookAt(cfg, t)
    case BadStart => Parsed([], t, true)
    case Oversize(n) => Parsed([], if n <= |t| then t[n..] else t, true)
    case _ => Parsed([], t, false)
  }

  /** The suffix of a stream at which the parser stops. */
  function StuckAt(cfg: Config, s: Bytes): (t: Bytes)
    requires cfg.WellFormed()
    ensures Stuck(cfg, t)
    decreases |s|
  {
    var l := LookAt(cfg, s);
    if l.Whole? then StuckAt(cfg, s[l.size..]) else s
  }

  /** A stream is the messages the parser delivers, all of them in the wire format,
      and a remainder that has no whole message in front and decides the verdict. */
  lemma {:induction false} ParseIsSound(cfg: Config, s: Bytes)
    requires cfg.WellFormed()
    ensures Joined(Parse(cfg, s).msgs) + StuckAt(cfg, s) == s
    ensures forall i :: 0 <= i < |Parse(cfg, s).msgs| ==> IsMessage(cfg, Parse(cfg, s).msgs[i])
    ensures Parse(cfg, s) == Verdict(cfg, StuckAt(cfg, s)).(msgs := Parse(cfg, s).msgs)
    decreases |s|
  {
    var l := LookAt(cfg, s);
    if l.Whole? {
      var rest := s[l.size..];
      ParseIsSound(cfg, rest);
      FirstIsMessage(cfg, s, l.size);
      var p, q := Parse(cfg, s), Parse(cfg, rest);
      assert p.msgs[0] == s[..l.size] && p.msgs[1..] == q.msgs;
      CutAndJoin(s, l.size);
      Assoc(s[..l.size], Joined(q.msgs), StuckAt(cfg, rest));
    }
  }

  /** And the other way round: however a stream is put together from messages and
      such a remainder, the parser takes it apart again. */
  lemma {:induction false} ParseIsComplete(cfg: Config, msgs: seq<Bytes>, t: Bytes)
    requires cfg.WellFormed() && Stuck(cfg, t)
    requires forall i :: 0 <= i < |msgs| ==> IsMessage(cfg, msgs[i])
    ensures Parse(cfg, Joined(msgs) + t) == Verdict(cfg, t).(msgs := msgs)
    decreases |msgs|
  {
    if msgs == [] {
      assert Joined(msgs) + t == t;
    } else {
      var m, more := msgs[0], Joined(msgs[1..]) + t;
      ParseIsComplete(cfg, msgs[1..], t);
      MessageIsFirst(cfg, m, more);
      Assoc(m, Joined(msgs[1..]), t);
      JoinAndCut(m, more);
      assert [m] + msgs[1..] == msgs;
    }
  }

  lemma {:induction false} JoinedConcat(a: seq<Bytes>, b: seq<Bytes>)
    ensures Joined(a + b) == Joined(a) + Joined(b)
    decreases |a|
  {
    if a == [] {
      assert a + b == b;
    } else {
      JoinedConcat(a[1..], b);
      assert (a + b)[0] == a[0] && (a + b)[1..] == a[1..] + b;
    }
  }

  /** A stream that went wrong stays wrong; otherwise what arrives later is parsed
      together with what was left. */
  lemma ParseGoesOn(cfg: Config, s: Bytes, more: Bytes)
    requires cfg.WellFormed()
    ensures var p := Parse(cfg, s);
      if p.malformed then Parse(cfg, s + more).malformed && Parse(cfg, s + more).msgs == p.msgs
      else Parse(cfg, s + more) == var q := Parse(cfg, p.rest + more); q.(msgs := p.msgs + q.msgs)
  {
    var p := Parse(cfg, s);
    var t := StuckAt(cfg, s);
    ParseIsSound(cfg, s);
    if p.malformed {
      LookStays(cfg, t, more);
      assert Stuck(cfg, t + more) && Verdict(cfg, t + more).malformed;
      ParseIsComplete(cfg, p.msgs, t + more);
      Assoc(Joined(p.msgs), t, more);
    } else {
      assert p.rest == t;
      var q := Parse(cfg, t + more);
      var u := StuckAt(cfg, t + more);
      ParseIsSound(cfg, t + more);
      JoinedConcat(p.msgs, q.msgs);
      Assoc(Joined(p.msgs), Joined(q.msgs), u);
      Assoc(Joined(p.msgs), t, more);
      ParseIsComplete(cfg, p.msgs + q.msgs, u);
    }
  }
}
