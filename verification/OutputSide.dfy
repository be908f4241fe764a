/** The output side of a connection: a full write buffer is reported, its emptying
    is reported, and a connection can be closed once everything is sent. */
module OutputSide {
  import opened Widths

  /** The write callback that is set: none, the one that reports a buffer with room
      again, or the one that closes. */
  datatype WriteCb = NoCb | ReadyCb | CloseCb

  /** What the handler is told. */
  datatype Call = Full(size: nat) | Ready(size: nat) | Disconnect

  datatype Output = Output(buffered: nat, cb: WriteCb, low: int, checkDue: bool, calls: seq<Call>)
  {
    predicate Gone() {
      calls != [] && calls[|calls| - 1].Disconnect?
    }
  }

  function Opened(maxSend: int): Output {
    Output(0, NoCb, ToSizeT(maxSend), false, [])
  }

  /** Bytes are written by the user, checked, and sent by the network; finishing is
      the user's request to close when everything is sent. An error, the end of the
      peer's data, a timeout or a request to close at once aborts. */
  datatype Event = Write(size: nat) | Check | Finish | Sent(size: nat) | Abort

  predicate TooFull(maxSend: int, o: Output) {
    ToInt(o.buffered) >= maxSend
  }

  function CheckWriteBuffer(maxSend: int, o: Output): Output {
    var o1 := o.(checkDue := false);
    if TooFull(maxSend, o) then o1.(cb := ReadyCb, calls := o.calls + [Full(o.buffered)]) else o1
  }

  function DisconnectNow(o: Output): Output {
    o.(cb := NoCb, calls := o.calls + [Disconnect])
  }

  function DisconnectWhenFinished(o: Output): Output {
    if o.buffered != 0 then o.(low := 0, cb := CloseCb) else DisconnectNow(o)
  }

  /** The network took bytes; at or below the low watermark the callback runs. */
  function AfterSending(o: Output): Output {
    if o.buffered > o.low then o
    else
      match o.cb
      case NoCb => o
      case ReadyCb => o.(cb := NoCb, calls := o.calls + [Ready(o.buffered)])
      case CloseCb => DisconnectNow(o)
  }

  function Step(maxSend: int, o: Output, e: Event): Output {
    if o.Gone() then o
    else
      match e
      case Write(n) => o.(buffered := o.buffered + n, checkDue := true)
      case Check => if o.checkDue then CheckWriteBuffer(maxSend, o) else o
      case Finish => DisconnectWhenFinished(o)
      case Sent(n) => if 0 < n <= o.buffered then AfterSending(o.(buffered := o.buffered - n)) else o
      case Abort => DisconnectNow(o)
  }

  function Run(maxSend: int, o: Output, events: seq<Event>): Output
    decreases |events|
  {
    if events == [] then o else Run(maxSend, Step(maxSend, o, events[0]), events[1..])
  }

  // ----- what the handler is told -----

  /** A buffer is reported full when it is, reported to have room when it holds no
      more than allowed and was reported full just before, and nothing is told after
      the disconnection. */
  predicate CallOk(maxSend: int, calls: seq<Call>, i: nat)
    requires i < |calls|
  {
    && (calls[i].Full? ==> ToInt(calls[i].size) >= maxSend)
    && (calls[i].Ready? ==> i > 0 && calls[i - 1].Full? && calls[i].size <= ToSizeT(maxSend))
    && (calls[i].Disconnect? ==> i == |calls| - 1)
  }

  predicate CallsOk(maxSend: int, calls: seq<Call>) {
    forall i :: 0 <= i < |calls| ==> CallOk(maxSend, calls, i)
  }

  predicate LastIsFull(o: Output) {
    o.calls != [] && o.calls[|o.calls| - 1].Full?
  }

  predicate OutputOk(maxSend: int, o: Output) {
    && CallsOk(maxSend, o.calls)
    && o.low <= ToSizeT(maxSend)
    && (o.cb == ReadyCb ==> LastIsFull(o))
    && (o.cb == CloseCb ==> !o.Gone() && o.low == 0 && o.buffered > 0)
  }

  lemma OneMoreCall(maxSend: int, calls: seq<Call>, c: Call)
    requires CallsOk(maxSend, calls) && (calls == [] || !calls[|calls| - 1].Disconnect?)
    requires c.Full? ==> ToInt(c.size) >= maxSend
    requires c.Ready? ==> calls != [] && calls[|calls| - 1].Full? && c.size <= ToSizeT(maxSend)
    ensures CallsOk(maxSend, calls + [c])
  {
    var t := calls + [c];
    forall i | 0 <= i < |t| ensures CallOk(maxSend, t, i) {
      if i < |calls| {
        assert CallOk(maxSend, calls, i) && t[i] == calls[i] && (i > 0 ==> t[i - 1] == calls[i - 1]);
      }
    }
  }

  lemma StepKeeps(maxSend: int, o: Output, e: Event)
    requires OutputOk(maxSend, o)
    ensures OutputOk(maxSend, Step(maxSend, o, e))
  {
    if !o.Gone() {
      if TooFull(maxSend, o) {
        OneMoreCall(maxSend, o.calls, Full(o.buffered));
      }
      if e.Sent? && e.size <= o.buffered && o.cb == ReadyCb && o.buffered - e.size <= o.low {
        OneMoreCall(maxSend, o.calls, Ready(o.buffered - e.size));
      }
      OneMoreCall(maxSend, o.calls, Disconnect);
    }
  }

  lemma {:induction false} RunKeeps(maxSend: int, o: Output, events: seq<Event>)
    requires OutputOk(maxSend, o)
    ensures OutputOk(maxSend, Run(maxSend, o, events))
    decreases |events|
  {
    if events != [] {
      StepKeeps(maxSend, o, events[0]);
      RunKeeps(maxSend, Step(maxSend, o, events[0]), events[1..]);
    }
  }

  /** In every run a buffer is reported full only when it is, reported to have room
      only right after it was reported full and with no more in it than allowed, and
      nothing follows the disconnection. */
  lemma EveryRunReports(maxSend: int, events: seq<Event>)
    ensures CallsOk(maxSend, Run(maxSend, Opened(maxSend), events).calls)
  {
    RunKeeps(maxSend, Opened(maxSend), events);
  }

  /** As long as nobody asked to finish: room is waited for exactly since the last
      full report. */
  predicate NotFinishing(maxSend: int, o: Output) {
    o.Gone() || (o.low == ToSizeT(maxSend) && o.cb == if LastIsFull(o) then ReadyCb else NoCb)
  }

  lemma {:induction false} NotFinishingRun(maxSend: int, o: Output, events: seq<Event>)
    requires NotFinishing(maxSend, o) && Finish !in events
    ensures NotFinishing(maxSend, Run(maxSend, o, events))
    decreases |events|
  {
    if events != [] {
      NotFinishingRun(maxSend, Step(maxSend, o, events[0]), events[1..]);
    }
  }

  /** Once a buffer was reported full, bytes that are sent lead to a report of room
      exactly if what they leave is no more than allowed. */
  lemma RoomIsReported(maxSend: int, events: seq<Event>, n: nat)
    requires Finish !in events
    ensures var o := Run(maxSend, Opened(maxSend), events);
      LastIsFull(o) && 0 < n <= o.buffered ==>
        Step(maxSend, o, Sent(n)).calls ==
        if o.buffered - n <= ToSizeT(maxSend) then o.calls + [Ready(o.buffered - n)] else o.calls
  {
    NotFinishingRun(maxSend, Opened(maxSend), events);
  }

  lemma RunThree(maxSend: int, o: Output, a: Event, b: Event, c: Event)
    ensures Run(maxSend, o, [a, b, c]) == Step(maxSend, Step(maxSend, Step(maxSend, o, a), b), c)
  {
    var o1 := Step(maxSend, o, a);
    var o2 := Step(maxSend, o1, b);
    assert [a, b, c][1..] == [b, c] && [b, c][1..] == [c] && [c][1..] == [];
    assert Run(maxSend, o2, [c]) == Step(maxSend, o2, c);
    assert Run(maxSend, o1, [b, c]) == Run(maxSend, o2, [c]);
  }

  /** Room is reported at the maximum already, where the interface's documentation
      has it below. */
  lemma RoomAtTheMaximum(maxSend: int)
    requires 0 <= maxSend < INT_MAX
    ensures Run(maxSend, Opened(maxSend), [Write(maxSend + 1), Check, Sent(1)]).calls == [Full(maxSend + 1), Ready(maxSend)]
  {
    var o := Step(maxSend, Opened(maxSend), Write(maxSend + 1));
    var o1 := Step(maxSend, o, Check);
    assert o1.calls == [Full(maxSend + 1)];
    RunThree(maxSend, Opened(maxSend), Write(maxSend + 1), Check, Sent(1));
  }

  /** The network takes bytes. */
  predicate AllSent(events: seq<Event>) {
    forall e :: e in events ==> e.Sent?
  }

  lemma {:induction false} StillDue(maxSend: int, o: Output, sends: seq<Event>)
    requires o.checkDue && AllSent(sends)
    ensures Run(maxSend, o, sends).checkDue
    decreases |sends|
  {
    if sends != [] {
      assert sends[0] in sends;
      StillDue(maxSend, Step(maxSend, o, sends[0]), sends[1..]);
    }
  }

  lemma {:induction false} GoneStays(maxSend: int, o: Output, events: seq<Event>)
    requires o.Gone()
    ensures Run(maxSend, o, events) == o
    decreases |events|
  {
    if events != [] {
      GoneStays(maxSend, o, events[1..]);
    }
  }

  /** Whatever is written is checked once: after a write, and any bytes sent since, the
      check reports the buffer if and only if what is in it shows as at least the maximum;
      a second check reports nothing. */
  lemma WrittenIsChecked(maxSend: int, o: Output, n: nat, sends: seq<Event>)
    requires AllSent(sends)
    ensures var r := Run(maxSend, Step(maxSend, o, Write(n)), sends); var c := Step(maxSend, r, Check);
      !r.Gone() ==>
        && c.calls == (if ToInt(r.buffered) >= maxSend then r.calls + [Full(r.buffered)] else r.calls)
        && c.buffered == r.buffered && Step(maxSend, c, Check) == c
  {
    if o.Gone() {
      GoneStays(maxSend, o, sends);
    } else {
      StillDue(maxSend, Step(maxSend, o, Write(n)), sends);
    }
  }

  // ----- what is in the buffer -----

  /** The bytes written. */
  function Written(events: seq<Event>): nat {
    if events == [] then 0
    else Written(events[1..]) + if events[0].Write? then events[0].size else 0
  }

  /** The bytes sent; the network takes no more than there are. */
  function Taken(buffered: nat, events: seq<Event>): nat
    decreases |events|
  {
    if events == [] then 0
    else
      match events[0]
      case Write(n) => Taken(buffered + n, events[1..])
      case Sent(n) => if n <= buffered then n + Taken(buffered - n, events[1..]) else Taken(buffered, events[1..])
      case _ => Taken(buffered, events[1..])
  }

  /** As long as the connection is there, what is buffered and what was sent is what was
      written. */
  lemma {:induction false} BytesAddUp(maxSend: int, o: Output, events: seq<Event>)
    requires !Run(maxSend, o, events).Gone()
    ensures Run(maxSend, o, events).buffered + Taken(o.buffered, events) == o.buffered + Written(events)
    decreases |events|
  {
    if events != [] {
      if o.Gone() {
        GoneStays(maxSend, o, events);
      } else {
        var o1 := Step(maxSend, o, events[0]);
        BytesAddUp(maxSend, o1, events[1..]);
        if o1.Gone() {
          GoneStays(maxSend, o1, events[1..]);
        }
      }
    }
  }

  // ----- closing when finished -----

  lemma {:induction false} OpenUnasked(maxSend: int, o: Output, events: seq<Event>)
    requires !o.Gone() && o.cb != CloseCb && Finish !in events && Abort !in events
    ensures !Run(maxSend, o, events).Gone()
    decreases |events|
  {
    if events != [] {
      OpenUnasked(maxSend, Step(maxSend, o, events[0]), events[1..]);
    }
  }

  /** Without a request or an abort a connection is never closed; an abort closes it at
      once, and nothing is told or changed after that. */
  lemma ClosesOnlyIfAsked(maxSend: int, events: seq<Event>, more: seq<Event>)
    ensures Finish !in events && Abort !in events ==> !Run(maxSend, Opened(maxSend), events).Gone()
    ensures var o := Run(maxSend, Opened(maxSend), events); var a := Step(maxSend, o, Abort);
      && a.Gone() && a.calls == (if o.Gone() then o.calls else o.calls + [Disconnect])
      && Run(maxSend, a, more) == a
  {
    if Finish !in events && Abort !in events {
      OpenUnasked(maxSend, Opened(maxSend), events);
    }
    GoneStays(maxSend, Step(maxSend, Run(maxSend, Opened(maxSend), events), Abort), more);
  }

  /** The largest int among the sizes from one up to this one. */
  function MostAsInt(size: nat): int {
    if size <= INT_MAX then size else INT_MAX
  }

  /** A check of the buffer that is still due, and may find it full, will forget that
      it is to be closed. */
  predicate MayForget(maxSend: int, o: Output) {
    o.checkDue && MostAsInt(o.buffered) >= maxSend
  }

  /** It is closed, or will be when the last byte is sent. */
  predicate WillClose(maxSend: int, o: Output) {
    o.Gone() || (o.cb == CloseCb && o.low == 0 && o.buffered > 0 && !MayForget(maxSend, o))
  }

  /** Nothing is written and nothing else is asked for. */
  predicate OnlySends(events: seq<Event>) {
    forall e :: e in events ==> !e.Write? && !e.Finish?
  }

  lemma {:induction false} WillCloseRun(maxSend: int, o: Output, events: seq<Event>)
    requires WillClose(maxSend, o) && OnlySends(events)
    ensures WillClose(maxSend, Run(maxSend, o, events))
    decreases |events|
  {
    if events != [] {
      assert events[0] in events;
      WillCloseRun(maxSend, Step(maxSend, o, events[0]), events[1..]);
    }
  }

  /** Bytes go out until the buffer's size shows as the largest int it can, the check
      that was due finds it full, and the rest goes out. */
  function Forgotten(o: Output): seq<Event> {
    [Sent(o.buffered - MostAsInt(o.buffered)), Check, Sent(MostAsInt(o.buffered))]
  }

  /** All was sent, and the connection is still there. */
  lemma ClosingForgotten(maxSend: int, o: Output)
    requires !o.Gone() && o.buffered > 0 && MayForget(maxSend, o)
    ensures OnlySends(Forgotten(o))
    ensures var r := Run(maxSend, Step(maxSend, o, Finish), Forgotten(o)); r.buffered == 0 && !r.Gone()
  {
    var k := MostAsInt(o.buffered);
    var o1 := Step(maxSend, o, Finish);
    var o2 := Step(maxSend, o1, Sent(o.buffered - k));
    assert o2 == o1.(buffered := k);
    var o3 := Step(maxSend, o2, Check);
    assert o3.cb == ReadyCb && o3.calls[|o3.calls| - 1].Full?;
    RunThree(maxSend, o1, Sent(o.buffered - k), Check, Sent(k));
  }

  /** A connection asked to close when finished, with bytes still to send and no more
      written to it: that it is closed once they are all sent is certain if and only if,
      when it was asked, no check of its buffer was due that could find it full. */
  lemma ClosesWhenFinished(maxSend: int, o: Output)
    requires !o.Gone() && o.buffered > 0
    ensures (forall events :: OnlySends(events) ==>
               var r := Run(maxSend, Step(maxSend, o, Finish), events); r.buffered == 0 ==> r.Gone())
      <==> !MayForget(maxSend, o)
  {
    var o1 := Step(maxSend, o, Finish);
    if MayForget(maxSend, o) {
      ClosingForgotten(maxSend, o);
    } else {
      forall events | OnlySends(events) ensures var r := Run(maxSend, o1, events); r.buffered == 0 ==> r.Gone() {
        WillCloseRun(maxSend, o1, events);
      }
    }
  }

  /** Closing waits for the last byte, unless it is aborted. */
  predicate NotCutOff(o: Output) {
    && (o.cb == CloseCb ==> o.low == 0)
    && (o.Gone() ==> o.buffered == 0)
  }

  lemma {:induction false} NotCutOffRun(maxSend: int, o: Output, events: seq<Event>)
    requires NotCutOff(o) && Abort !in events
    ensures NotCutOff(Run(maxSend, o, events))
    decreases |events|
  {
    if events != [] {
      NotCutOffRun(maxSend, Step(maxSend, o, events[0]), events[1..]);
    }
  }

  /** And nothing is cut off: in every run without an abort, a connection that is closed
      has sent everything that was written to it before. */
  lemma NothingIsCutOff(maxSend: int, events: seq<Event>)
    requires Abort !in events
    ensures var r := Run(maxSend, Opened(maxSend), events); r.Gone() ==> r.buffered == 0
  {
    NotCutOffRun(maxSend, Opened(maxSend), events);
  }

  /** Bytes written after the request can make it forget. */
  lemma WritingForgets(maxSend: int, o: Output, n: nat)
    requires !o.Gone() && 0 < o.buffered < INT_MAX && maxSend <= INT_MAX && n == INT_MAX - o.buffered
    ensures var r := Run(maxSend, Step(maxSend, o, Finish), [Write(n), Check, Sent(INT_MAX)]); r.buffered == 0 && !r.Gone()
  {
    var o1 := Step(maxSend, o, Finish);
    var o3 := Step(maxSend, Step(maxSend, o1, Write(n)), Check);
    assert o3.cb == ReadyCb && o3.calls[|o3.calls| - 1].Full?;
    RunThree(maxSend, o1, Write(n), Check, Sent(INT_MAX));
  }

  /** With nothing to send it is disconnected at once. */
  lemma ClosesAtOnce(maxSend: int, o: Output)
    requires !o.Gone() && o.buffered == 0
    ensures Step(maxSend, o, Finish).Gone()
  {
  }

  // ----- the connection's output -----

  class ConnectionOutput {
    const maxSend: int
    var buffered: nat
    var cb: WriteCb
    var low: int
    var checkDue: bool
    var calls: seq<Call>

    function State(): Output
      reads this
    {
      Output(buffered, cb, low, checkDue, calls)
    }

    constructor (maxSend: int)
      ensures this.maxSend == maxSend && State() == Opened(maxSend)
    {
      this.maxSend := maxSend;
      buffered, cb, low, checkDue, calls := 0, NoCb, ToSizeT(maxSend), false, [];
    }

    method Write(size: nat)
      requires !State().Gone()
      modifies `buffered, `checkDue
      ensures State() == Step(maxSend, old(State()), Event.Write(size))
    {
      buffered := buffered + size;
      checkDue := true;
    }

    method CheckWriteBufferInt()
      requires !State().Gone() && checkDue
      modifies `checkDue, `cb, `calls
      ensures State() == Step(maxSend, old(State()), Check)
    {
      checkDue := false;
      var buflen := buffered;
      var full := false;
      if ToInt(buflen) >= maxSend {
        full := true;
        cb := ReadyCb;
      }
      if full {
        calls := calls + [Full(buflen)];
      }
    }

    method DisconnectInt()
      requires !State().Gone()
      modifies `cb, `calls
      ensures State() == Step(maxSend, old(State()), Abort)
    {
      cb := NoCb;
      calls := calls + [Disconnect];
    }

    method DisconnectWhenFinishedInt()
      requires !State().Gone()
      modifies `low, `cb, `calls
      ensures State() == Step(maxSend, old(State()), Finish)
    {
      var now;
      if buffered != 0 {
        low := 0;
        cb := CloseCb;
        now := false;
      } else {
        cb := NoCb;
        now := true;
      }
      if now {
        DisconnectInt();
      }
    }

    /** The network took bytes: the callback that is set runs when few are left. */
    method OnSent(size: nat)
      requires !State().Gone() && 0 < size <= buffered
      modifies `buffered, `cb, `calls
      ensures State() == Step(maxSend, old(State()), Sent(size))
    {
      buffered := buffered - size;
      if buffered <= low {
        match cb
        case NoCb =>
        case ReadyCb =>
          cb := NoCb;
          calls := calls + [Ready(buffered)];
        case CloseCb => DisconnectInt();
      }
    }
  }
}
