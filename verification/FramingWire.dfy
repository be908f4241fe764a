/** Message framing told from the sender's side: bytes on the wire, and what the
    reader makes of them, without a word about how it goes about it. */
module FramingWire {
  import opened Bits
  import opened Framing
  import opened FramingRuns

  /** The bytes begin with the message start and have n in the four bytes of the size
      field, the least significant first. */
  predicate Announces(cfg: Config, s: Bytes, n: nat)
    requires cfg.WellFormed()
  {
    && n < 0x1_0000_0000 && |s| >= cfg.offset + 4
    && s[..|cfg.messageStart|] == cfg.messageStart
    && s[cfg.offset] == n % 0x100 && s[cfg.offset + 1] == n / 0x100 % 0x100
    && s[cfg.offset + 2] == n / 0x1_0000 % 0x100 && s[cfg.offset + 3] == n / 0x100_0000
  }

  /** A payload of n bytes is within the maximum, if there is one, which counts the
      header too. */
  predicate Fits(cfg: Config, n: nat) {
    cfg.maxSize > 0 ==> cfg.headerSize + n <= cfg.maxSize
  }

  lemma FourDigits(n: nat, b0: nat, b1: nat, b2: nat, b3: nat)
    requires n < 0x1_0000_0000
    requires b0 == n % 0x100 && b1 == n / 0x100 % 0x100 && b2 == n / 0x1_0000 % 0x100 && b3 == n / 0x100_0000
    ensures b0 + 0x100 * b1 + 0x1_0000 * b2 + 0x100_0000 * b3 == n
  {
    var q := n / 0x100;
    assert n == 0x100 * q + b0;
    assert n / 0x1_0000 == q / 0x100 && n / 0x100_0000 == q / 0x1_0000;
  }

  lemma AnnouncedSize(cfg: Config, s: Bytes, n: nat)
    requires cfg.WellFormed() && Announces(cfg, s, n)
    ensures HasHeader(cfg, s) && StartsRight(cfg, s) && MessageSize(cfg, s) == cfg.headerSize + n
    ensures TooBig(cfg, s) <==> !Fits(cfg, n)
  {
    var f := s[cfg.offset..cfg.offset + 4];
    FourBytes(f);
    FourDigits(n, f[0], f[1], f[2], f[3]);
  }

  // ----- what the parser makes of it -----

  /** A header that announces n bytes, within the maximum, and n bytes of payload are
      delivered as one message, and what follows is parsed by itself. */
  lemma MessageIsDelivered(cfg: Config, header: Bytes, n: nat, payload: Bytes, more: Bytes)
    requires cfg.WellFormed() && |header| == cfg.headerSize && Announces(cfg, header, n)
    requires |payload| == n && Fits(cfg, n)
    ensures var p := Parse(cfg, header + payload + more); var q := Parse(cfg, more);
      p.msgs == [header + payload] + q.msgs && p.rest == q.rest && p.malformed == q.malformed
  {
    var m := header + payload;
    AnnouncedSize(cfg, header, n);
    LookStays(cfg, header, payload);
    LookStays(cfg, m, more);
    JoinAndCut(m, more);
  }

  /** Fewer bytes of it are waited for. */
  lemma PartIsWaitedFor(cfg: Config, s: Bytes, n: nat)
    requires cfg.WellFormed() && Announces(cfg, s, n) && Fits(cfg, n) && |s| < cfg.headerSize + n
    ensures Parse(cfg, s) == Parsed([], s, false)
  {
    AnnouncedSize(cfg, s, n);
  }

  /** More than the maximum is malformed, and thrown away if it is there in full. */
  lemma TooMuchIsMalformed(cfg: Config, s: Bytes, n: nat)
    requires cfg.WellFormed() && Announces(cfg, s, n) && !Fits(cfg, n)
    ensures Parse(cfg, s) == Parsed([], if |s| >= cfg.headerSize + n then s[cfg.headerSize + n..] else s, true)
  {
    AnnouncedSize(cfg, s, n);
  }

  /** A byte that is not that of the message start is malformed, as soon as the size
      field is there. */
  lemma WrongStartIsMalformed(cfg: Config, s: Bytes, k: nat)
    requires cfg.WellFormed() && |s| >= cfg.offset + 4 && k < |cfg.messageStart| && s[k] != cfg.messageStart[k]
    ensures Parse(cfg, s) == Parsed([], s, true)
  {
    assert s[..|cfg.messageStart|][k] == s[k];
  }

  lemma NoSizeIsWaitedFor(cfg: Config, s: Bytes)
    requires cfg.WellFormed() && |s| < cfg.offset + 4
    ensures Parse(cfg, s) == Parsed([], s, false)
  {
  }

  lemma DigitsOf(b0: byte, b1: byte, b2: byte, b3: byte) returns (n: nat)
    ensures n == b0 as int + 0x100 * b1 as int + 0x1_0000 * b2 as int + 0x100_0000 * b3 as int
    ensures n < 0x1_0000_0000
    ensures b0 == n % 0x100 && b1 == n / 0x100 % 0x100 && b2 == n / 0x1_0000 % 0x100 && b3 == n / 0x100_0000
  {
    n := b0 as int + 0x100 * b1 as int + 0x1_0000 * b2 as int + 0x100_0000 * b3 as int;
    var q := b1 as int + 0x100 * b2 as int + 0x1_0000 * b3 as int;
    var r := b2 as int + 0x100 * b3 as int;
    assert n == 0x100 * q + b0 as int && q == 0x100 * r + b1 as int;
  }

  /** These are all the cases: bytes that are enough and start right announce some n. */
  lemma SomethingIsAnnounced(cfg: Config, s: Bytes) returns (n: nat)
    requires cfg.WellFormed() && |s| >= cfg.offset + 4 && s[..|cfg.messageStart|] == cfg.messageStart
    ensures Announces(cfg, s, n)
  {
    n := DigitsOf(s[cfg.offset], s[cfg.offset + 1], s[cfg.offset + 2], s[cfg.offset + 3]);
  }

  // ----- whole streams -----

  /** A message as it is sent: a header that announces the rest of it, within the maximum. */
  predicate OnTheWire(cfg: Config, m: Bytes)
    requires cfg.WellFormed()
  {
    |m| >= cfg.headerSize && Announces(cfg, m, |m| - cfg.headerSize) && Fits(cfg, |m| - cfg.headerSize)
  }

  /** This is what the parser takes for a message. */
  lemma WireMessages(cfg: Config, m: Bytes)
    requires cfg.WellFormed()
    ensures IsMessage(cfg, m) <==> OnTheWire(cfg, m)
  {
    if OnTheWire(cfg, m) {
      AnnouncedSize(cfg, m, |m| - cfg.headerSize);
    } else if IsMessage(cfg, m) {
      var n := SomethingIsAnnounced(cfg, m);
      AnnouncedSize(cfg, m, n);
    }
  }

  lemma SentIsParsed(cfg: Config, msgs: seq<Bytes>, t: Bytes)
    requires cfg.WellFormed() && |t| < cfg.offset + 4
    requires forall i :: 0 <= i < |msgs| ==> OnTheWire(cfg, msgs[i])
    ensures Parse(cfg, Joined(msgs) + t) == Parsed(msgs, t, false)
  {
    forall i | 0 <= i < |msgs| ensures IsMessage(cfg, msgs[i]) {
      WireMessages(cfg, msgs[i]);
    }
    ParseIsComplete(cfg, msgs, t);
  }

  /** A run in which any messages of that form were received, however they were cut:
      once no callback is due they have been delivered, all of them, whole and in order,
      and the connection is not found wrong. */
  lemma EveryRunDelivers(cfg: Config, events: seq<Event>, msgs: seq<Bytes>, t: Bytes)
    requires cfg.WellFormed() && |t| < cfg.offset + 4
    requires forall i :: 0 <= i < |msgs| ==> OnTheWire(cfg, msgs[i])
    requires var s := Run(cfg, Opened(cfg), events); s.received == Joined(msgs) + t && (s.closed || |s.buffer| < s.low)
    ensures var s := Run(cfg, Opened(cfg), events); s.delivered == msgs && !s.closed
  {
    SentIsParsed(cfg, msgs, t);
    EveryRunParses(cfg, events);
  }

  // ----- marks -----

  /** After a callback the marks are those for what is buffered: the end of the message
      that is announced, or of the size field; and room for another one after it. */
  lemma MarksOnTheWire(cfg: Config, s: Input, n: nat)
    requires cfg.WellFormed() && InputOk(cfg, s) && !s.closed && !ReadCallback(cfg, s).closed
    ensures var r := ReadCallback(cfg, s);
      && (|r.buffer| < cfg.offset + 4 ==> r.low == cfg.offset + 4 && r.high == cfg.maxSize)
      && (Announces(cfg, r.buffer, n) ==> r.low == cfg.headerSize + n && r.high == cfg.headerSize + n + cfg.maxSize)
  {
    LeftOver(cfg, s.buffer);
    var r := ReadCallback(cfg, s);
    if Announces(cfg, r.buffer, n) {
      AnnouncedSize(cfg, r.buffer, n);
    }
  }

  /** The first marks: of a reader of messages the size field, of one of chunks a chunk,
      at which it has something to deliver and below which it has not. */
  lemma FirstMarks(cfg: Config, s: Bytes)
    requires cfg.WellFormed()
    ensures Opened(cfg).low == cfg.offset + 4 && Opened(cfg).high == cfg.maxSize
    ensures cfg.chunkSize <= 0 ==> InitConnection(cfg) == Setup(false, cfg.offset + 4, cfg.maxSize)
    ensures cfg.chunkSize > 0 ==>
      var i := InitConnection(cfg);
      i.Setup? && i.chunks && i.high == 0 && (Chunked(cfg.chunkSize, s).msgs != [] <==> |s| >= i.low)
  {
  }

  // ----- an example -----

  /** The headers of the Bitcoin network: four bytes of message start, twelve of command,
      four of size and four of checksum. */
  const BITCOIN := Config([0xf9, 0xbe, 0xb4, 0xd9], 16, 4, 24, 0, 0)

  /** A message without a payload is its header, and the next one is left alone. */
  lemma VerackThenPing(command: Bytes, checksum: Bytes, ping: Bytes)
    requires |command| == 12 && |checksum| == 4
    ensures var verack := [0xf9, 0xbe, 0xb4, 0xd9] + command + [0, 0, 0, 0] + checksum;
      |verack| == 24 && Parse(BITCOIN, verack + ping).msgs == [verack] + Parse(BITCOIN, ping).msgs
  {
    var verack := [0xf9, 0xbe, 0xb4, 0xd9] + command + [0, 0, 0, 0] + checksum;
    assert verack[..4] == [0xf9, 0xbe, 0xb4, 0xd9];
    assert verack + [] == verack;
    MessageIsDelivered(BITCOIN, verack, 0, [], ping);
  }
}
