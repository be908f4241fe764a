/** A connection's input as it happens: bytes arrive in any pieces, the read
    callback runs when the low watermark is reached, and what was delivered is
    what the parser finds in everything received. */
module FramingRuns {
  import opened Bits
  import opened Framing

  /** Which read callback a connection gets, and its first watermarks. A high
      watermark of zero stands for no limit. */
  datatype Setup = NoReader | Setup(chunks: bool, low: int, high: int)

  function InitConnection(cfg: Config): Setup {
    if cfg.chunkSize > 0 then Setup(true, cfg.chunkSize, 0)
    else if cfg.headerSize > 0 then Setup(false, cfg.Needed(), cfg.maxSize)
    else NoReader
  }

  /** The input side of a connection. received is everything that arrived. */
  datatype Input = Input(
    buffer: Bytes,
    low: int,
    high: int,
    delivered: seq<Bytes>,
    closed: bool,
    received: Bytes)

  function Opened(cfg: Config): Input {
    Input([], cfg.Needed(), cfg.maxSize, [], false, [])
  }

  /** The marks the callback sets, from what it saw last. */
  function LowMark(cfg: Config, low: int, l: Look): int {
    match l
    case NoHeader => cfg.Needed()
    case BadStart => low
    case Oversize(n) => n
    case Partial(n) => n
    case Whole(n) => n
  }

  function HighMark(cfg: Config, high: int, l: Look): int {
    match l
    case NoHeader => cfg.maxSize
    case BadStart => high
    case Oversize(n) => n + cfg.maxSize
    case Partial(n) => n + cfg.maxSize
    case Whole(n) => n + cfg.maxSize
  }

  /** The read callback for messages. */
  function ReadCallback(cfg: Config, s: Input): Input
    requires cfg.WellFormed()
  {
    var p := Parse(cfg, s.buffer);
    var l := LookAt(cfg, StuckAt(cfg, s.buffer));
    Input(p.rest, LowMark(cfg, s.low, l), HighMark(cfg, s.high, l), s.delivered + p.msgs, p.malformed, s.received)
  }

  datatype Event = Arrive(data: Bytes) | Fire

  /** Reading stops for good once the stream went wrong. The callback runs only at
      or above the low watermark. */
  function Step(cfg: Config, s: Input, e: Event): Input
    requires cfg.WellFormed()
  {
    if s.closed then s
    else
      match e
      case Arrive(data) => s.(buffer := s.buffer + data, received := s.received + data)
      case Fire => if |s.buffer| >= s.low then ReadCallback(cfg, s) else s
  }

  function Run(cfg: Config, s: Input, events: seq<Event>): Input
    requires cfg.WellFormed()
    decreases |events|
  {
    if events == [] then s else Run(cfg, Step(cfg, s, events[0]), events[1..])
  }

  /** The low watermark is what the bytes buffered so far call for. */
  predicate MarksOk(cfg: Config, s: Input)
    requires cfg.WellFormed()
  {
    || (s.low == cfg.Needed() && s.high == cfg.maxSize)
    || (HasHeader(cfg, s.buffer) && StartsRight(cfg, s.buffer) && !TooBig(cfg, s.buffer)
        && s.low == MessageSize(cfg, s.buffer) && s.high == s.low + cfg.maxSize)
  }

  /** Every message delivered is one of the wire format; together with the buffer
      they are all that was received, until the parser's verdict closes the input. */
  predicate InputOk(cfg: Config, s: Input)
    requires cfg.WellFormed()
  {
    if s.closed then Parse(cfg, s.received) == Parsed(s.delivered, s.buffer, true)
    else
      && MarksOk(cfg, s)
      && Joined(s.delivered) + s.buffer == s.received
      && forall i :: 0 <= i < |s.delivered| ==> IsMessage(cfg, s.delivered[i])
  }

  lemma OpenedOk(cfg: Config)
    requires cfg.WellFormed()
    ensures InputOk(cfg, Opened(cfg))
  {
  }

  /** Everything received parses to what was delivered and then what is buffered. */
  lemma ParseOfReceived(cfg: Config, s: Input)
    requires cfg.WellFormed() && InputOk(cfg, s) && !s.closed
    ensures var p := Parse(cfg, s.buffer); Parse(cfg, s.received) == p.(msgs := s.delivered + p.msgs)
  {
    var p, t := Parse(cfg, s.buffer), StuckAt(cfg, s.buffer);
    ParseIsSound(cfg, s.buffer);
    JoinedConcat(s.delivered, p.msgs);
    Assoc(Joined(s.delivered), Joined(p.msgs), t);
    ParseIsComplete(cfg, s.delivered + p.msgs, t);
  }

  lemma ArriveKeeps(cfg: Config, s: Input, data: Bytes)
    requires cfg.WellFormed() && InputOk(cfg, s) && !s.closed
    ensures InputOk(cfg, Step(cfg, s, Arrive(data)))
  {
    Assoc(Joined(s.delivered), s.buffer, data);
    if HasHeader(cfg, s.buffer) {
      LookStays(cfg, s.buffer, data);
    }
  }

  /** What is left after a callback has nothing more in it. */
  lemma LeftOver(cfg: Config, s: Bytes)
    requires cfg.WellFormed() && !Parse(cfg, s).malformed
    ensures Parse(cfg, s).rest == StuckAt(cfg, s)
    ensures Parse(cfg, Parse(cfg, s).rest) == Parsed([], Parse(cfg, s).rest, false)
  {
    ParseIsSound(cfg, s);
  }

  lemma CallbackKeeps(cfg: Config, s: Input)
    requires cfg.WellFormed() && InputOk(cfg, s) && !s.closed
    ensures InputOk(cfg, ReadCallback(cfg, s))
  {
    var p := Parse(cfg, s.buffer);
    ParseOfReceived(cfg, s);
    if !p.malformed {
      ParseIsSound(cfg, s.buffer);
      LeftOver(cfg, s.buffer);
      JoinedConcat(s.delivered, p.msgs);
      Assoc(Joined(s.delivered), Joined(p.msgs), p.rest);
    }
  }

  lemma StepKeeps(cfg: Config, s: Input, e: Event)
    requires cfg.WellFormed() && InputOk(cfg, s)
    ensures InputOk(cfg, Step(cfg, s, e))
  {
    if !s.closed {
      match e
      case Arrive(data) => ArriveKeeps(cfg, s, data);
      case Fire => CallbackKeeps(cfg, s);
    }
  }

  lemma {:induction false} RunKeeps(cfg: Config, s: Input, events: seq<Event>)
    requires cfg.WellFormed() && InputOk(cfg, s)
    ensures InputOk(cfg, Run(cfg, s, events))
    decreases |events|
  {
    if events != [] {
      StepKeeps(cfg, s, events[0]);
      RunKeeps(cfg, Step(cfg, s, events[0]), events[1..]);
    }
  }

  // ----- watermarks -----

  /** Below the low watermark there is nothing to deliver and nothing to report. */
  lemma NothingBelowTheMark(cfg: Config, s: Input)
    requires cfg.WellFormed() && InputOk(cfg, s) && !s.closed && |s.buffer| < s.low
    ensures Parse(cfg, s.buffer) == Parsed([], s.buffer, false)
    ensures ReadCallback(cfg, s) == s
  {
    assert s.delivered + [] == s.delivered;
  }

  /** The callback delivered, found the stream wrong, or set a higher mark. */
  predicate Progress(cfg: Config, s: Input, r: Input) {
    |r.delivered| > |s.delivered| || r.closed || r.low > s.low
  }

  lemma AtTheMark(cfg: Config, s: Input)
    requires cfg.WellFormed() && InputOk(cfg, s) && !s.closed && |s.buffer| >= s.low
    ensures Progress(cfg, s, ReadCallback(cfg, s))
  {
  }

  /** After a callback the low watermark is above what is buffered, whatever was
      buffered before; bytes that stay below it yield nothing; and as soon as it is
      reached the callback delivers, reports, or asks for more. The high watermark
      leaves room for the low one. */
  lemma MarksAreExact(cfg: Config, s: Input, more: Bytes)
    requires cfg.WellFormed() && InputOk(cfg, s) && !s.closed
    requires !ReadCallback(cfg, s).closed
    ensures var r := ReadCallback(cfg, s);
      && |r.buffer| < r.low
      && (r.high == 0 || r.low <= r.high)
      && (|r.buffer + more| < r.low ==> Parse(cfg, r.buffer + more) == Parsed([], r.buffer + more, false))
      && (|r.buffer + more| >= r.low ==> Progress(cfg, r, ReadCallback(cfg, Step(cfg, r, Arrive(more)))))
  {
    var r := ReadCallback(cfg, s);
    CallbackKeeps(cfg, s);
    LeftOver(cfg, s.buffer);
    ArriveKeeps(cfg, r, more);
    var r1 := Step(cfg, r, Arrive(more));
    if |r1.buffer| < r1.low {
      NothingBelowTheMark(cfg, r1);
    } else {
      AtTheMark(cfg, r1);
    }
  }

  // ----- every run -----

  /** However the stream is cut into arrivals and whenever the callback runs: when
      no callback is due, what was delivered is exactly what the parser finds in
      all bytes received, and the connection was found wrong exactly when the
      parser says so. While one is due, what was delivered is the first part of it. */
  lemma EveryRunParses(cfg: Config, events: seq<Event>)
    requires cfg.WellFormed()
    ensures var s := Run(cfg, Opened(cfg), events); var all := Parse(cfg, s.received);
      && s.delivered <= all.msgs
      && (s.closed || |s.buffer| < s.low ==> s.delivered == all.msgs && s.closed == all.malformed)
  {
    OpenedOk(cfg);
    RunKeeps(cfg, Opened(cfg), events);
    var s := Run(cfg, Opened(cfg), events);
    if !s.closed {
      ParseOfReceived(cfg, s);
      if |s.buffer| < s.low {
        NothingBelowTheMark(cfg, s);
        assert s.delivered + [] == s.delivered;
      }
    }
  }

  /** Two connections that received the same bytes and have no callback due have
      delivered the same, however the bytes were cut. */
  lemma CutsDoNotMatter(cfg: Config, a: seq<Event>, b: seq<Event>)
    requires cfg.WellFormed()
    requires var s, t := Run(cfg, Opened(cfg), a), Run(cfg, Opened(cfg), b);
      s.received == t.received && (s.closed || |s.buffer| < s.low) && (t.closed || |t.buffer| < t.low)
    ensures var s, t := Run(cfg, Opened(cfg), a), Run(cfg, Opened(cfg), b);
      s.delivered == t.delivered && s.closed == t.closed
  {
    EveryRunParses(cfg, a);
    EveryRunParses(cfg, b);
  }

  /** The oversize message a stream ends in, if it is there in full. */
  function ThrownAway(cfg: Config, s: Bytes): Bytes
    requires cfg.WellFormed()
  {
    var t := StuckAt(cfg, s);
    match LookAt(cfg, t)
    case Oversize(n) => if n <= |t| then t[..n] else []
    case _ => []
  }

  lemma VerdictKeepsRest(cfg: Config, t: Bytes, thrown: Bytes)
    requires cfg.WellFormed() && Stuck(cfg, t)
    requires thrown == match LookAt(cfg, t) case Oversize(n) => (if n <= |t| then t[..n] else []) case _ => []
    ensures thrown + Verdict(cfg, t).rest == t
  {
  }

  lemma ClosedConserves(cfg: Config, s: Input)
    requires cfg.WellFormed() && InputOk(cfg, s) && s.closed
    ensures forall i :: 0 <= i < |s.delivered| ==> IsMessage(cfg, s.delivered[i])
    ensures Joined(s.delivered) + ThrownAway(cfg, s.received) + s.buffer == s.received
  {
    var t := StuckAt(cfg, s.received);
    ParseIsSound(cfg, s.received);
    Assoc(Joined(s.delivered), ThrownAway(cfg, s.received), s.buffer);
    VerdictKeepsRest(cfg, t, ThrownAway(cfg, s.received));
  }

  /** No byte is lost, made up or reordered: delivered messages, all of them in the
      wire format, the oversize message that was thrown away, if any, and the
      buffer are what was received. */
  lemma EveryRunConserves(cfg: Config, events: seq<Event>)
    requires cfg.WellFormed()
    ensures var s := Run(cfg, Opened(cfg), events);
      && (forall i :: 0 <= i < |s.delivered| ==> IsMessage(cfg, s.delivered[i]))
      && Joined(s.delivered) + (if s.closed then ThrownAway(cfg, s.received) else []) + s.buffer == s.received
  {
    OpenedOk(cfg);
    RunKeeps(cfg, Opened(cfg), events);
    var s := Run(cfg, Opened(cfg), events);
    if s.closed {
      ClosedConserves(cfg, s);
    } else {
      assert Joined(s.delivered) + [] == Joined(s.delivered);
    }
  }

  // ----- chunks -----

  datatype Chunks = Chunks(msgs: seq<Bytes>, rest: Bytes)

  /** The read callback for chunks. */
  function Chunked(size: int, s: Bytes): Chunks
    requires size > 0
    decreases |s|
  {
    if |s| < size then Chunks([], s)
    else
      var c := Chunked(size, s[size..]);
      c.(msgs := [s[..size]] + c.msgs)
  }

  /** Chunks of the exact size and less than a chunk left over, in order. */
  lemma {:induction false} ChunksPartition(size: int, s: Bytes)
    requires size > 0
    ensures var c := Chunked(size, s);
      && Joined(c.msgs) + c.rest == s
      && |c.rest| < size
      && (forall i :: 0 <= i < |c.msgs| ==> |c.msgs[i]| == size)
      && TotalSize(c.msgs) == |c.msgs| * size
    decreases |s|
  {
    if |s| >= size {
      ChunksPartition(size, s[size..]);
      var c := Chunked(size, s[size..]);
      CutAndJoin(s, size);
      Assoc(s[..size], Joined(c.msgs), c.rest);
      assert ([s[..size]] + c.msgs)[1..] == c.msgs;
    }
  }

  /** Chunks do not depend on how the stream arrived. */
  lemma {:induction false} ChunksGoOn(size: int, s: Bytes, more: Bytes)
    requires size > 0
    ensures var c := Chunked(size, s); var d := Chunked(size, c.rest + more);
      Chunked(size, s + more) == d.(msgs := c.msgs + d.msgs)
    decreases |s|
  {
    var c := Chunked(size, s);
    if |s| >= size {
      ChunksGoOn(size, s[size..], more);
      assert (s + more)[..size] == s[..size] && (s + more)[size..] == s[size..] + more;
      var d := Chunked(size, c.rest + more);
      Assoc([s[..size]], Chunked(size, s[size..]).msgs, d.msgs);
    } else {
      var d := Chunked(size, c.rest + more);
      assert c.msgs + d.msgs == d.msgs;
    }
  }
}
