/** The SOCKS5 client as it is: an input buffer in segments, a current callback,
    and bytes written. Every callback does what the machine of Handshake does. */
module BareProxies {
  import opened Bits
  import opened Framing
  import opened EvBuffers
  import opened Socks5
  import opened Widths
  import opened Wrappers
  import opened Handshake

  lemma HeadIsEnough(c: Client, m: Machine, head: Bytes)
    requires c.Valid() && |m.input| >= 8 && head == m.input[..5]
    ensures ReplySize(c.signedChar, head) == ReplySize(c.signedChar, m.input)
    ensures head[0] == m.input[0] && head[1] == m.input[1] && head[3] == m.input[3]
    ensures head[0] != 5 || head[1] != 0 || ReplySize(c.signedChar, head).None? ==> ReadFinalCb(c, m) == Fail(m)
  {
  }

  /** A granted request, once the size of the reply is known. */
  lemma GrantedIs(c: Client, m: Machine, n: int)
    requires c.Valid() && |m.input| >= 8 && m.input[0] == 5 && m.input[1] == 0
    requires ReplySize(c.signedChar, m.input) == Option.Some(n)
    ensures ReadFinalCb(c, m) ==
            if |m.input| < n then m.(low := n)
            else Take(m, n).(stage := Over, calls := m.calls + [OnProxySuccess(
              if c.request.Resolving() && m.input[3] != 3 then m.input[4..n - 2] else [])])
  {
  }

  class BareProxy {
    const client: Client
    const input: EvBuffer
    var stage: Stage
    var low: int
    var output: Bytes
    var calls: seq<ProxyCall>
    ghost var read: Bytes
    ghost var lost: bool

    ghost function State(): Machine
      reads this, input
    {
      Machine(stage, read, input.Contents(), low, output, calls, lost)
    }

    /** InitProxy: the greeting is written and two bytes are waited for. */
    constructor (client: Client)
      requires client.Valid()
      ensures this.client == client && fresh(input) && State() == Begun(client)
    {
      this.client := client;
      input := new EvBuffer();
      stage, low := ReceiveInit, 2;
      output := if client.authSet then [5, 2, 2, 0] else [5, 1, 0];
      calls, read, lost := [], [], false;
    }

    method ProxyFailure()
      modifies `stage, `calls
      ensures State() == Fail(old(State()))
    {
      stage := Over;
      calls := calls + [OnProxyFailure];
    }

    /** Take up to two bytes. */
    method ReadTwo() returns (data: Bytes)
      modifies input, `read
      ensures var n := if old(|input.Contents()|) < 2 then old(|input.Contents()|) else 2;
        data == old(input.Contents())[..n] && State() == Take(old(State()), n)
    {
      var len := |input.Contents()|;
      data := input.Remove(if len < 2 then len else 2);
      read := read + data;
    }

    /** Build and write the request. */
    method WriteProto() returns (ok: bool)
      requires client.Valid()
      modifies `low, `output
      ensures ok == RequestBytes(client.request).Some?
      ensures ok ==> low == 8 && output == old(output) + RequestBytes(client.request).value
      ensures !ok ==> low == old(low) && output == old(output)
    {
      var r := client.request;
      var request: Bytes := [5];
      if r.isDns && r.resolveOnly {
        request := request + [RESOLVE];
      } else {
        request := request + [CONNECT];
      }
      request := request + [0];
      if r.isDns || r.proxyType == ForceDomain {
        if |r.host| > 255 {
          return false;
        }
        request := request + [3];
        request := request + [|r.host|];
        request := request + r.host;
        request := request + [r.port / 256];
        request := request + [r.port % 256];
      } else if r.proxyType == ProxyType.Socks5 {
        match r.sock
        case Inet6(addr, port) =>
          request := request + [4];
          request := request + addr;
          request := request + port;
          assert |request| == 22;
        case Inet(addr, port) =>
          request := request + [1];
          request := request + addr;
          request := request + port;
          assert |request| == 10;
        case OtherFamily => return false;
      } else {
        return false;
      }
      low := 8;
      assert request == RequestBytes(r).value;
      output := output + request;
      return true;
    }

    /** Build and write the credentials. */
    method WriteAuth() returns (ok: bool)
      modifies `low, `output
      ensures ok == AuthBytes(client.username, client.password).Some?
      ensures ok ==> low == 2 && output == old(output) + AuthBytes(client.username, client.password).value
      ensures !ok ==> low == old(low) && output == old(output)
    {
      var username, password := client.username, client.password;
      var auth: Bytes := [1];
      if |username| > 255 || |password| > 255 {
        return false;
      }
      auth := auth + [|username|];
      auth := auth + username;
      auth := auth + [|password|];
      auth := auth + password;
      low := 2;
      assert auth == AuthBytes(username, password).value;
      output := output + auth;
      return true;
    }

    /** Make the request and leave the rest to ReadFinal. */
    method Request()
      requires client.Valid() && stage != Over
      modifies `stage, `low, `output, `calls
      ensures State() == Handshake.WriteProto(client, old(State()))
    {
      stage := ReadFinal;
      var ok := WriteProto();
      if !ok {
        ProxyFailure();
      }
    }

    method ReceiveInitCallback()
      requires client.Valid() && stage == ReceiveInit
      modifies this, input
      ensures State() == ReceiveInitCb(client, old(State()))
    {
      var methodReply := ReadTwo();
      if |methodReply| != 2 {
        ProxyFailure();
        return;
      }
      if methodReply[0] != 5 {
        ProxyFailure();
        return;
      }
      if methodReply[1] == 2 {
        stage := CheckAuth;
        var ok := WriteAuth();
        if !ok {
          ProxyFailure();
        }
      } else {
        Request();
      }
    }

    method CheckAuthResponse()
      requires client.Valid() && stage == CheckAuth
      modifies this, input
      ensures State() == CheckAuthCb(client, old(State()))
    {
      var authReply := ReadTwo();
      if |authReply| != 2 {
        ProxyFailure();
        return;
      }
      if authReply[0] != 1 && authReply[1] != 0 {
        ProxyFailure();
        return;
      }
      Request();
    }

    /** From the first five bytes of a reply: the kind and size of its address, and
        how many bytes the reply has. */
    method ReplyNeeds(head: Bytes) returns (known: bool, ip: bool, addrsize: int, needSize: int)
      requires |head| == 5
      ensures known == ReplySize(client.signedChar, head).Some?
      ensures known ==> needSize == ReplySize(client.signedChar, head).value && ip == (head[3] != 3)
      ensures known ==>
        if ip then addrsize >= 0 && needSize == 4 + addrsize + 2 else needSize == (5 + addrsize + 2) % SIZE_T_SPAN
    {
      needSize, addrsize, ip := 6, 0, true;
      if head[3] == 1 {
        addrsize := 4;
      } else if head[3] == 4 {
        addrsize := 16;
      } else if head[3] == 3 {
        addrsize := CharAsSize(client.signedChar, head[4]);
        needSize := needSize + 1;
        ip := false;
      } else {
        return false, ip, addrsize, needSize;
      }
      needSize := (needSize + addrsize) % SIZE_T_SPAN;
      known := true;
    }

    /** Take the reply out, and keep its address if one was asked for. */
    method TakeReply(ip: bool, addrsize: int, ghost needSize: int) returns (resolved: Bytes)
      requires if ip then addrsize >= 0 && needSize == 4 + addrsize + 2 else needSize == (5 + addrsize + 2) % SIZE_T_SPAN
      requires needSize <= |input.Contents()|
      modifies input
      ensures input.Contents() == old(input.Contents())[needSize..]
      ensures resolved == if client.request.Resolving() && ip then old(input.Contents())[4..needSize - 2] else []
    {
      resolved := [];
      if ip {
        input.Drain(4);
        var writeip := input.Remove(addrsize);
        var port := input.Remove(2);
        if client.request.isDns && client.request.resolveOnly {
          resolved := writeip;
        }
      } else {
        input.Drain((5 + addrsize + 2) % SIZE_T_SPAN);
      }
    }

    /** The reply: its verdict first, and once it is there in full it is taken out. */
    method ReadFinalCallback()
      requires client.Valid() && stage == ReadFinal && |input.Contents()| >= 8
      modifies this, input
      ensures State() == ReadFinalCb(client, old(State()))
    {
      var len := |input.Contents()|;
      var head := input.CopyOut(5);
      HeadIsEnough(client, State(), head);
      if head[0] != 5 || head[1] != 0 {
        ProxyFailure();
        return;
      }
      var known, ip, addrsize, needSize := ReplyNeeds(head);
      if !known {
        ProxyFailure();
        return;
      }
      GrantedIs(client, State(), needSize);
      if len < needSize {
        low := needSize;
        return;
      }
      read := read + input.Contents()[..needSize];
      var resolved := TakeReply(ip, addrsize, needSize);
      stage := Over;
      calls := calls + [OnProxySuccess(resolved)];
    }

    /** Whichever callback is due. The first two need what the watermark asks for;
        that the third has eight bytes is part of the machine's invariant. */
    method Fire()
      requires client.Valid() && MachineOk(client, State()) && stage != Over && |input.Contents()| >= low
      modifies this, input
      ensures State() == Step(client, old(State()), Event.Fire) && MachineOk(client, State())
    {
      StepKeeps(client, State(), Event.Fire);
      match stage
      case ReceiveInit => ReceiveInitCallback();
      case CheckAuth => CheckAuthResponse();
      case ReadFinal => ReadFinalCallback();
    }

    method Receive(data: Bytes)
      requires stage != Over
      modifies input
      ensures client.Valid() ==> State() == Step(client, old(State()), Arrive(data))
    {
      input.Add(data);
    }

    /** An error, an end of file or a timeout. */
    method EventCallback()
      requires stage != Over
      modifies `stage, `calls, `lost
      ensures client.Valid() ==> State() == Step(client, old(State()), Lost)
    {
      lost := true;
      ProxyFailure();
    }
  }
}
