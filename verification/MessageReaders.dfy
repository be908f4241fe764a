/** The read callbacks of a connection, over a segmented input buffer. */
module MessageReaders {
  import opened Bits
  import opened Framing
  import opened FramingRuns
  import opened FramingWire
  import opened EvBuffers

  /** Four bytes at a position, the first the least significant. */
  method GetMessageLength(buf: Bytes, at: nat) returns (length: nat)
    requires at + 4 <= |buf|
    ensures length == LittleEndian(buf[at..at + 4])
  {
    FourBytes(buf[at..at + 4]);
    SmallPowers();
    LargePowers();
    var low := BitOr(buf[at + 1] as int * 0x100, buf[at], buf[at + 1], 8, 0x100);
    var mid := BitOr(buf[at + 2] as int * 0x1_0000, low, buf[at + 2], 16, 0x1_0000);
    length := BitOr(buf[at + 3] as int * 0x100_0000, mid, buf[at + 3], 24, 0x100_0000);
  }

  /** The size of the first message, whether it is there in full, and whether it
      starts as messages must. */
  datatype Found = Found(size: nat, complete: bool, badStart: bool)

  /** What the look at the first message amounts to. */
  function FoundBy(l: Look, buffered: nat): Found {
    match l
    case NoHeader => Found(0, false, false)
    case BadStart => Found(0, false, true)
    case Oversize(n) => Found(n, n <= buffered, false)
    case Partial(n) => Found(n, false, false)
    case Whole(n) => Found(n, true, false)
  }

  /** The same in terms of the bytes on the wire. */
  lemma FoundOnTheWire(cfg: Config, s: Bytes)
    requires cfg.WellFormed()
    ensures var f := FoundBy(LookAt(cfg, s), |s|);
      && (|s| < cfg.offset + 4 ==> f == Found(0, false, false))
      && (forall n: nat :: Announces(cfg, s, n) ==> f == Found(cfg.headerSize + n, cfg.headerSize + n <= |s|, false))
      && (|s| >= cfg.offset + 4 && s[..|cfg.messageStart|] != cfg.messageStart ==> f == Found(0, false, true))
  {
    forall n: nat | Announces(cfg, s, n)
      ensures FoundBy(LookAt(cfg, s), |s|) == Found(cfg.headerSize + n, cfg.headerSize + n <= |s|, false)
    {
      AnnouncedSize(cfg, s, n);
    }
  }

  /** Any prefix that holds the header shows what the whole buffer shows. */
  lemma HeaderIsEnough(cfg: Config, s: Bytes, header: Bytes)
    requires cfg.WellFormed() && cfg.Needed() <= |header| <= |s| && s[..|header|] == header
    ensures StartsRight(cfg, s) == StartsRight(cfg, header) && MessageSize(cfg, s) == MessageSize(cfg, header)
  {
    LookStays(cfg, header, s[|header|..]);
    CutAndJoin(s, |header|);
  }

  /** Looks at the header in place if it is in one segment, and at a copy if not.
      The answer is about the contents only, not about the segments. */
  method FirstCompleteMessageSize(cfg: Config, input: EvBuffer) returns (f: Found)
    requires cfg.WellFormed()
    ensures f == FoundBy(LookAt(cfg, input.Contents()), |input.Contents()|)
    ensures var s := input.Contents();
      && (|s| < cfg.offset + 4 ==> f == Found(0, false, false))
      && (forall n: nat :: Announces(cfg, s, n) ==> f == Found(cfg.headerSize + n, cfg.headerSize + n <= |s|, false))
      && (|s| >= cfg.offset + 4 && s[..|cfg.messageStart|] != cfg.messageStart ==> f == Found(0, false, true))
  {
    FoundOnTheWire(cfg, input.Contents());
    var total := |input.Contents()|;
    var needed := cfg.offset + cfg.sizeSize;
    assert cfg.sizeSize == 4;
    if total < needed {
      return Found(0, false, false);
    }
    var size;
    var extents, header := input.Peek(needed);
    if extents != 1 {
      header := input.CopyOut(needed);
    }
    HeaderIsEnough(cfg, input.Contents(), header);
    if cfg.messageStart != [] && header[..|cfg.messageStart|] != cfg.messageStart {
      return Found(0, false, true);
    }
    var length := GetMessageLength(header, cfg.offset);
    size := length + cfg.headerSize;
    return Found(size, total >= size, false);
  }

  /** The read callback for chunks: whole chunks out, less than one left. */
  method ReadCbChunk(cfg: Config, input: EvBuffer) returns (msgs: seq<Bytes>)
    requires cfg.chunkSize > 0
    modifies input
    ensures msgs == Chunked(cfg.chunkSize, old(input.Contents())).msgs
    ensures input.Contents() == Chunked(cfg.chunkSize, old(input.Contents())).rest
  {
    msgs := [];
    var remaining := |input.Contents()|;
    while remaining >= cfg.chunkSize
      invariant remaining == |input.Contents()|
      invariant var all, c := Chunked(cfg.chunkSize, old(input.Contents())), Chunked(cfg.chunkSize, input.Contents());
        all.msgs == msgs + c.msgs && all.rest == c.rest
    {
      Assoc(msgs, [input.Contents()[..cfg.chunkSize]],
            Chunked(cfg.chunkSize, input.Contents()[cfg.chunkSize..]).msgs);
      var chunk := input.Remove(cfg.chunkSize);
      msgs := msgs + [chunk];
      remaining := remaining - cfg.chunkSize;
    }
  }

  function Before(msgs: seq<Bytes>, p: Parsed): Parsed {
    p.(msgs := msgs + p.msgs)
  }

  lemma {:induction false} TotalSizeAppend(msgs: seq<Bytes>, m: Bytes)
    ensures TotalSize(msgs + [m]) == TotalSize(msgs) + |m|
  {
    if msgs != [] {
      assert (msgs + [m])[0] == msgs[0] && (msgs + [m])[1..] == msgs[1..] + [m];
      TotalSizeAppend(msgs[1..], m);
    }
  }

  /** One whole message more. */
  lemma TakeParsed(cfg: Config, msgs: seq<Bytes>, t: Bytes)
    requires cfg.WellFormed()
    ensures var l := LookAt(cfg, t);
      if l.Whole? then
        && Before(msgs, Parse(cfg, t)) == Before(msgs + [t[..l.size]], Parse(cfg, t[l.size..]))
        && TotalSize(msgs + [t[..l.size]]) == TotalSize(msgs) + l.size
      else Before(msgs, Parse(cfg, t)) == Verdict(cfg, t).(msgs := msgs)
  {
    var l := LookAt(cfg, t);
    if l.Whole? {
      Assoc(msgs, [t[..l.size]], Parse(cfg, t[l.size..]).msgs);
      TotalSizeAppend(msgs, t[..l.size]);
    } else {
      assert msgs + [] == msgs;
    }
  }

  /** No bytes delivered means no messages: none is empty. */
  lemma NothingDelivered(cfg: Config, s: Bytes)
    requires cfg.WellFormed() && TotalSize(Parse(cfg, s).msgs) == 0
    ensures Parse(cfg, s).msgs == []
  {
  }

  /** The input side of a connection that reads messages. */
  class MessageReader {
    const cfg: Config
    const input: EvBuffer
    var low: int
    var high: int
    var delivered: seq<Bytes>
    var closed: bool
    ghost var received: Bytes

    ghost function State(): Input
      reads this, input
    {
      Input(input.Contents(), low, high, delivered, closed, received)
    }

    constructor (cfg: Config)
      requires cfg.WellFormed() && cfg.chunkSize <= 0
      ensures this.cfg == cfg && fresh(input) && State() == Opened(cfg)
      ensures InitConnection(cfg) == Setup(false, low, high)
    {
      this.cfg := cfg;
      input := new EvBuffer();
      low, high := cfg.offset + cfg.sizeSize, cfg.maxSize;
      delivered, closed, received := [], false, [];
    }

    /** Bytes from the network, as one more segment. */
    method Receive(data: Bytes)
      requires cfg.WellFormed() && !closed
      modifies `received, input
      ensures State() == Step(cfg, old(State()), Arrive(data))
    {
      input.Add(data);
      received := received + data;
    }

    /** One turn of the callback's loop: a whole message comes out, an oversize one
        is thrown away if it is there in full. */
    method TakeOne() returns (msgs: seq<Bytes>, found: Found, tooBig: bool)
      requires cfg.WellFormed()
      modifies input
      ensures var t := old(input.Contents()); var l := LookAt(cfg, t);
        && found == FoundBy(l, |t|) && tooBig == l.Oversize?
        && msgs == (if l.Whole? then [t[..l.size]] else [])
        && input.Contents() == if l.Whole? then t[l.size..] else Verdict(cfg, t).rest
    {
      msgs, tooBig := [], false;
      found := FirstCompleteMessageSize(cfg, input);
      if cfg.maxSize > 0 && found.size > cfg.maxSize {
        if found.complete {
          input.Drain(found.size);
        }
        tooBig := true;
      } else if !found.badStart && found.size != 0 && found.complete {
        var msg := input.Remove(found.size);
        msgs := [msg];
      }
    }

    /** Takes whole messages out of the buffer until something else is in front. */
    method TakeMessages() returns (msgs: seq<Bytes>, totalsize: nat, found: Found, tooBig: bool)
      requires cfg.WellFormed()
      modifies input
      ensures var s := old(input.Contents()); var t := StuckAt(cfg, s); var p := Parse(cfg, s);
        && msgs == p.msgs && totalsize == TotalSize(msgs)
        && input.Contents() == p.rest
        && found == FoundBy(LookAt(cfg, t), |t|)
        && tooBig == LookAt(cfg, t).Oversize?
    {
      msgs, totalsize, tooBig := [], 0, false;
      ghost var s := input.Contents();
      while true
        invariant Parse(cfg, s) == Before(msgs, Parse(cfg, input.Contents()))
        invariant StuckAt(cfg, s) == StuckAt(cfg, input.Contents())
        invariant totalsize == TotalSize(msgs)
        decreases |input.Contents()|
      {
        var more;
        TakeParsed(cfg, msgs, input.Contents());
        more, found, tooBig := TakeOne();
        msgs := msgs + more;
        if tooBig || !found.complete {
          break;
        }
        totalsize := totalsize + found.size;
      }
      assert msgs + [] == msgs;
    }

    /** The read callback for messages: everything whole is delivered in order, the
        marks are set for what is in front now, and a wrong stream is closed. */
    method ReadCbMessage() returns (msgs: seq<Bytes>, totalsize: nat, malformed: bool)
      requires cfg.WellFormed() && !closed
      modifies this, input
      ensures State() == ReadCallback(cfg, old(State()))
      ensures delivered == old(delivered) + msgs && totalsize == TotalSize(msgs) && malformed == closed
    {
      var found, tooBig;
      ParseIsSound(cfg, input.Contents());
      msgs, totalsize, found, tooBig := TakeMessages();
      if found.size != 0 && !found.badStart {
        low, high := found.size, found.size + cfg.maxSize;
      } else if !found.badStart && !tooBig {
        low, high := cfg.offset + cfg.sizeSize, cfg.maxSize;
      }
      if totalsize != 0 {
        delivered := delivered + msgs;
      } else {
        NothingDelivered(cfg, old(input.Contents()));
        assert delivered + [] == delivered;
      }
      malformed := tooBig || found.badStart;
      closed := malformed;
    }
  }
}
