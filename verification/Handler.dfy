/** The connection objects and the handler as they are: objects whose methods
    update their fields. Every method is proved to do what the machine of
    HandlerModel does to the abstract state, so every run of the objects is a
    run of the machine. */
module Handler {
  import opened Connections
  import opened Protocol
  import opened Maps
  import opened Widths
  import opened HandlerInvariant
  import opened HandlerRuns
  import Model = HandlerModel

  /** A connection object. Its kind stands for the class it is an instance of,
      its stage for the event it has armed. */
  class Connection {
    const kind: Kind
    const target: Target
    var id: int
    var retries: int
    var stage: Stage
    var resolved: seq<Addr>
    var iter: Iter

    ghost function Val(): Conn
      reads this
    {
      Conn(id, kind, target, retries, stage, resolved, iter)
    }

    constructor (kind: Kind, conn: Target, id: int)
      ensures Val() == NewConn(id, kind, conn)
    {
      this.kind := kind;
      target := conn;
      this.id := id;
      retries := conn.nRetries;
      stage := Waiting;
      resolved := [];
      iter := End;
    }

    predicate IsOutgoing() {
      kind != Incoming
    }

    /** Arm the reconnect timer under a new id. */
    method Retry(newId: int)
      modifies `id, `stage
      ensures Val() == old(Val()).(id := newId, stage := Waiting)
    {
      id := newId;
      stage := Waiting;
    }

    /** Start a connect, a lookup or a handshake. */
    method Begin(next: Stage)
      modifies `stage
      ensures Val() == old(Val()).(stage := next)
    {
      stage := next;
    }

    /** Take one attempt off the budget and say whether to retry. */
    method SpendRetry() returns (retry: bool)
      modifies `retries
      ensures Val() == old(Val()).(retries := Spend(old(retries)).0)
      ensures retry == Spend(old(retries)).1
    {
      retry := retries != 0;
      if retries > 0 {
        retries := retries - 1;
      }
    }

    /** The attempt succeeded: the budget is restored, and a response let go. */
    method Restore()
      modifies `retries, `resolved, `iter
      ensures Val() == Model.Restored(old(Val()))
    {
      if kind == Dns {
        resolved := [];
        iter := End;
      }
      retries := target.nRetries;
    }

    /** A DNS response arrived. */
    method TakeResponse(response: seq<Addr>)
      modifies `resolved, `iter
      ensures Val() == old(Val()).(resolved := response, iter := At(0))
    {
      resolved := response;
      iter := At(0);
    }

    /** Move on to the next address; at the last one the response is let go. */
    method NextAddress()
      requires Val().WalkOk() && iter != End
      modifies `resolved, `iter
      ensures Val() == Model.Advance(old(Val()))
    {
      if iter.pos + 1 == |resolved| {
        iter := End;
        resolved := [];
      } else {
        iter := At(iter.pos + 1);
      }
    }
  }

  /** The objects of a map and the values they stand for: each object is held
      under the id it carries. */
  ghost predicate Mirrors(m: map<int, Connection>, vals: map<int, Conn>)
    reads m.Values
  {
    && (forall id :: id in m <==> id in vals)
    && (forall id :: id in m ==> m[id].Val() == vals[id] && m[id].id == id)
  }

  /** There is room, in slots and in ids, for n more connections. */
  ghost predicate Starting(s: Model.State, n: int) {
    Inv(s) && s.running && !s.shutdown && s.issued + 2 * n <= Model.ID_SPAN && Room(s, n)
  }

  lemma DropFirst(s: Model.State, dropping: map<int, Conn>, id: int)
    requires dropping != map[] && id == Least(dropping.Keys)
    ensures Model.DropConnected(s, dropping) == Model.DropConnected(Model.DropOne(s, id, dropping[id]), dropping - {id})
  {
  }

  lemma SameKeys(m: map<int, Connection>, vals: map<int, Conn>)
    requires Mirrors(m, vals)
    ensures m.Keys == vals.Keys && |m| == |vals| && (m == map[] <==> vals == map[])
  {
    forall id ensures id in m.Keys <==> id in vals.Keys {}
    assert m.Keys == vals.Keys;
  }

  ghost function OutgoingOf(m: map<int, Connection>): set<int> {
    set id | id in m && m[id].IsOutgoing()
  }

  ghost function IncomingOf(m: map<int, Connection>): set<int> {
    set id | id in m && !m[id].IsOutgoing()
  }

  lemma SameKinds(m: map<int, Connection>, vals: map<int, Conn>)
    requires Mirrors(m, vals)
    ensures OutgoingOf(m) == OutgoingKeys(vals) && IncomingOf(m) == IncomingKeys(vals)
  {
    forall id
      ensures (id in OutgoingOf(m) <==> id in OutgoingKeys(vals)) && (id in IncomingOf(m) <==> id in IncomingKeys(vals))
    {
      if id in m {
        assert id in vals && m[id].Val() == vals[id];
      }
    }
  }

  /** The key a walk in key order comes to first. */
  method FirstKey(m: map<int, Connection>, ghost vals: map<int, Conn>) returns (id: int)
    requires Mirrors(m, vals) && m != map[]
    ensures id in m && id in vals && vals != map[] && id == Least(vals.Keys)
  {
    LeastOfAny(m.Keys);
    id :| IsLeast(id, m.Keys);
    SameKeys(m, vals);
    OneLeast(id, Least(vals.Keys), vals.Keys);
  }

  /** Each event is armed when it comes. */
  ghost predicate AllArmed(s: Model.State, events: seq<Model.Event>)
    decreases |events|
  {
    events == [] || (Inv(s) && Model.Enabled(s, events[0]) && AllArmed(Step(s, events[0]), events[1..]))
  }

  /** A run without the events that were not armed, which did nothing. */
  ghost function ArmedOnly(s: Model.State, events: seq<Model.Event>): seq<Model.Event>
    requires Inv(s)
    decreases |events|
  {
    if events == [] then []
    else
      StepKeeps(s, events[0]);
      (if Model.Enabled(s, events[0]) then [events[0]] else []) + ArmedOnly(Step(s, events[0]), events[1..])
  }

  lemma ArmedFirst(s: Model.State, e: Model.Event, events: seq<Model.Event>, r: Model.State)
    requires Inv(s) && Inv(r) && r == Step(s, e) && AllArmed(r, events) && Model.Enabled(s, e)
    ensures AllArmed(s, [e] + events) && Run(s, [e] + events) == Run(r, events)
  {
    assert ([e] + events)[1..] == events;
  }

  lemma {:induction false} OnlyArmedCount(s: Model.State, events: seq<Model.Event>)
    requires Inv(s)
    ensures AllArmed(s, ArmedOnly(s, events)) && Run(s, ArmedOnly(s, events)) == Run(s, events)
    decreases |events|
  {
    if events != [] {
      StepKeeps(s, events[0]);
      var r := Step(s, events[0]);
      OnlyArmedCount(r, events[1..]);
      if Model.Enabled(s, events[0]) {
        ArmedFirst(s, events[0], ArmedOnly(r, events[1..]), r);
      } else {
        assert [] + ArmedOnly(r, events[1..]) == ArmedOnly(r, events[1..]);
      }
    }
  }

  lemma NextArmed(s: Model.State, events: seq<Model.Event>, i: nat, e: Model.Event)
    requires Inv(s) && i < |events| && e == events[i] && AllArmed(s, events[i..])
    ensures Model.Enabled(s, e) && Inv(Step(s, e)) && AllArmed(Step(s, e), events[i + 1..])
    ensures Run(s, events[i..]) == Run(Step(s, e), events[i + 1..])
  {
    StepKeeps(s, e);
    assert events[i..][0] == e && events[i..][1..] == events[i + 1..];
  }

  class ConnectionHandler {
    var connected: map<int, Connection>
    var connecting: map<int, Connection>
    var dnsResolves: map<int, Lookup>
    var binds: map<int, Target>
    var connectionIndex: int
    var outgoingConnCount: int
    var incomingConnCount: int
    var outgoingConnLimit: int
    var eventBase: bool
    var shutdown: bool
    /** The abstract state: the values of the objects held, the calls made into
        the interface and the ids used so far come on top of the fields. */
    ghost var abs: Model.State
    /** Every connection object this handler ever held. */
    ghost var repr: set<Connection>

    /** The scalar fields show the abstract state. */
    ghost predicate Settings()
      reads `abs, `connectionIndex, `outgoingConnCount, `incomingConnCount, `outgoingConnLimit,
            `eventBase, `shutdown, `dnsResolves, `binds
    {
      abs == abs.(resolves := dnsResolves, binds := binds.Keys, index := connectionIndex,
                  outgoing := outgoingConnCount, incoming := incomingConnCount,
                  limit := outgoingConnLimit, running := eventBase, shutdown := shutdown)
    }

    /** Every object is held once, under the id it carries. */
    ghost predicate Valid()
      reads this, connected.Values, connecting.Values
    {
      && Settings()
      && Mirrors(connected, abs.connected)
      && Mirrors(connecting, abs.connecting)
      && (forall id :: id in connected ==> id !in connecting && connected[id] in repr)
      && (forall id :: id in connecting ==> connecting[id] in repr)
    }

    ghost predicate Holds(c: Connection)
      reads this, c, connected.Values, connecting.Values
    {
      Valid() && c.id in connecting && connecting[c.id] == c
    }

    ghost predicate Serves(c: Connection)
      reads this, c, connected.Values, connecting.Values
    {
      Valid() && c.id in connected && connected[c.id] == c
    }

    /** No map holds the object. */
    ghost predicate Loose(c: Connection)
      reads this, c, connected.Values, connecting.Values
    {
      Valid() && c in repr && c.id !in connecting && c.id !in connected
    }

    /** The id the allocator is about to hand out is not in use. */
    ghost predicate NextIsFree()
      reads `connectionIndex, `connected, `connecting
    {
      connectionIndex >= 0 && connectionIndex !in connected && connectionIndex !in connecting
    }

    constructor ()
      ensures abs == Model.BOOT && Valid() && repr == {}
    {
      connected, connecting, dnsResolves, binds := map[], map[], map[], map[];
      connectionIndex, outgoingConnCount, incomingConnCount, outgoingConnLimit := 0, 0, 0, 0;
      eventBase, shutdown := false, false;
      abs, repr := Model.BOOT, {};
    }

    method GetNextConnectionIndex() returns (id: int)
      requires connectionIndex >= 0 && Valid()
      modifies `connectionIndex, `abs
      ensures (abs, id) == Model.GetNextConnectionIndex(old(abs)) && Valid()
    {
      abs := Model.GetNextConnectionIndex(abs).0;
      if connectionIndex != Model.ID_MAX {
        id := connectionIndex;
        connectionIndex := connectionIndex + 1;
      } else {
        connectionIndex := 0;
        id := Model.ID_MAX;
      }
    }

    // ----- objects leave and enter the maps -----

    method TakeConnecting(c: Connection)
      requires Holds(c)
      modifies `connecting, `abs
      ensures abs == Model.Remove(old(abs), c.Val()) && Loose(c)
      ensures old(NextIsFree()) ==> NextIsFree()
    {
      connecting := connecting - {c.id};
      abs := Model.Remove(abs, c.Val());
    }

    /** Out of the connected map, and out of the count. */
    method TakeConnected(c: Connection)
      requires Serves(c)
      modifies `connected, `outgoingConnCount, `incomingConnCount, `abs
      ensures c.id in old(abs).connected && abs == Model.Leave(old(abs), c.Val()) && Loose(c)
      ensures old(NextIsFree()) ==> NextIsFree()
    {
      abs := Model.Leave(abs, c.Val());
      connected := connected - {c.id};
      if c.IsOutgoing() {
        outgoingConnCount := outgoingConnCount - 1;
      } else {
        incomingConnCount := incomingConnCount - 1;
      }
    }

    /** Enable an object and put it into the connected map. */
    method Admit(c: Connection)
      requires Loose(c)
      modifies `connected, `abs, c`stage
      ensures abs == Model.Enter(old(abs), old(c.Val())) && Valid()
    {
      abs := Model.Enter(abs, c.Val());
      c.stage := Up;
      connected := connected[c.id := c];
    }

    /** Hold an object in the connecting map. */
    method Hold(c: Connection)
      requires Loose(c)
      modifies `connecting, `abs
      ensures abs == Model.Update(old(abs), c.Val()) && Holds(c)
    {
      connecting := connecting[c.id := c];
      abs := Model.Update(abs, c.Val());
    }

    /** Hold an outgoing object, to be told about later. */
    method Place(c: Connection)
      requires Loose(c)
      modifies `connecting, `abs
      ensures abs == Model.Place(old(abs), c.Val()) && Holds(c)
    {
      Hold(c);
      abs := abs.(placed := abs.placed + {c.id});
    }

    /** Back into the connecting map under a fresh id. */
    method Requeue(c: Connection)
      requires Loose(c) && NextIsFree()
      modifies `connectionIndex, `connecting, `abs, c
      ensures abs == Model.Requeue(old(abs), old(c.Val())) && Valid()
    {
      var newId := GetNextConnectionIndex();
      c.Retry(newId);
      Place(c);
    }

    method CountOutgoing()
      requires Valid()
      modifies `outgoingConnCount, `abs
      ensures abs == old(abs).(outgoing := old(abs).outgoing + 1) && Valid()
    {
      outgoingConnCount := outgoingConnCount + 1;
      abs := abs.(outgoing := outgoingConnCount);
    }

    method CountIncoming()
      requires Valid()
      modifies `incomingConnCount, `abs
      ensures abs == old(abs).(incoming := old(abs).incoming + 1) && Valid()
    {
      incomingConnCount := incomingConnCount + 1;
      abs := abs.(incoming := incomingConnCount);
    }

    /** A call into the interface. */
    ghost method Report(cb: Callback)
      requires Valid()
      modifies `abs
      ensures abs == Model.Log(old(abs), cb) && Valid()
    {
      abs := Model.Log(abs, cb);
    }

    /** An outgoing connection is in: count it and say that it waits for its first send. */
    method AdmitOutgoing(c: Connection)
      requires Loose(c)
      modifies `connected, `outgoingConnCount, `abs, c`stage
      ensures abs == var s := Model.Enter(old(abs), old(c.Val()));
                     Model.Log(s.(outgoing := s.outgoing + 1), Of(c.id, OnReadyForFirstSend))
      ensures Valid()
    {
      Admit(c);
      CountOutgoing();
      Report(Of(c.id, OnReadyForFirstSend));
    }

    // ----- outcomes -----

    method OnConnectionFailure(c: Connection, t: Model.FailureType, failed: Endpoint, mayRetry: bool, answer: bool)
      requires Holds(c) && NextIsFree()
      modifies this, c
      ensures repr == old(repr)
      ensures abs == Model.FailConnection(old(abs), old(c.Val()), t, failed, mayRetry, answer) && Valid()
    {
      TakeConnecting(c);
      var retry := mayRetry && !shutdown;
      abs := Model.Log(abs, Failed(c.id, Origin(c.kind, c.target), Model.FailureReport(t, failed, retry, answer)));
      if retry && answer {
        Requeue(c);
      }
    }

    method OnDisconnected(c: Connection, mayReconnect: bool, answer: bool)
      requires Serves(c) && NextIsFree()
      modifies this, c
      ensures repr == old(repr)
      ensures abs == Model.Disconnected(old(abs), old(c.Val()), mayReconnect, answer) && Valid()
    {
      var reconnect := mayReconnect && !shutdown;
      TakeConnected(c);
      abs := Model.Log(abs, Of(c.id, ConnCall.OnDisconnected(reconnect, answer)));
      if reconnect && answer {
        Requeue(c);
      }
    }

    /** DisconnectInt of a connection object. */
    method DisconnectInt(c: Connection, answer: bool)
      requires Serves(c) && NextIsFree()
      modifies this, c
      ensures repr == old(repr)
      ensures abs == Model.DisconnectInt(old(abs), old(c.Val()), answer) && Valid()
    {
      OnDisconnected(c, c.target.persistent && c.IsOutgoing(), answer);
    }

    method OnOutgoingConnected(c: Connection, answer: bool)
      requires Holds(c)
      modifies this, c
      ensures repr == old(repr)
      ensures abs == Model.OutgoingConnected(old(abs), old(c.Val()), answer) && Valid()
    {
      TakeConnecting(c);
      abs := Model.Log(abs, Of(c.id, ConnCall.OnOutgoingConnection(answer)));
      if answer {
        AdmitOutgoing(c);
      }
    }

    method OnIncomingConnected(c: Connection, answer: bool)
      requires Holds(c)
      modifies this, c
      ensures repr == old(repr)
      ensures abs == Model.IncomingConnected(old(abs), old(c.Val()), answer) && Valid()
    {
      TakeConnecting(c);
      abs := Model.Log(abs, Of(c.id, ConnCall.OnIncomingConnection(answer)));
      if answer {
        Admit(c);
        CountIncoming();
      }
    }

    // ----- connection attempts: the object changes and keeps its place -----

    method Begin(c: Connection, next: Stage)
      requires Holds(c)
      modifies c`stage, `abs
      ensures abs == Model.Update(old(abs), old(c.Val()).(stage := next)) && Holds(c)
    {
      c.Begin(next);
      abs := Model.Update(abs, c.Val());
    }

    method SpendRetry(c: Connection) returns (retry: bool)
      requires Holds(c)
      modifies c`retries, `abs
      ensures c.Val() == old(c.Val()).(retries := Spend(old(c.retries)).0) && retry == Spend(old(c.retries)).1
      ensures abs == Model.Update(old(abs), c.Val()) && Holds(c)
    {
      retry := c.SpendRetry();
      abs := Model.Update(abs, c.Val());
    }

    method Restore(c: Connection)
      requires Holds(c)
      modifies c`retries, c`resolved, c`iter, `abs
      ensures c.Val() == Model.Restored(old(c.Val())) && abs == Model.Update(old(abs), c.Val()) && Holds(c)
    {
      c.Restore();
      abs := Model.Update(abs, c.Val());
    }

    method TakeResponse(c: Connection, response: seq<Addr>)
      requires Holds(c)
      modifies c`resolved, c`iter, `abs
      ensures c.Val() == old(c.Val()).(resolved := response, iter := At(0))
      ensures abs == Model.Update(old(abs), c.Val()) && Holds(c)
    {
      c.TakeResponse(response);
      abs := Model.Update(abs, c.Val());
    }

    method NextAddress(c: Connection)
      requires Holds(c) && c.Val().WalkOk() && c.iter != End
      modifies c`resolved, c`iter, `abs
      ensures c.Val() == Model.Advance(old(c.Val())) && abs == Model.Update(old(abs), c.Val()) && Holds(c)
    {
      c.NextAddress();
      abs := Model.Update(abs, c.Val());
    }

    // ----- connection attempts, by kind of connection -----

    /** A failed connect of a DNS connection: report the address, move on. */
    method OnAddressFailure(c: Connection, answer: bool)
      requires Holds(c) && NextIsFree() && c.Val().WalkOk() && c.iter != End
      modifies this, c
      ensures repr == old(repr)
      ensures abs == Model.DnsConnectFailure(old(abs), old(c.Val()), answer) && Valid()
    {
      var failed := Resolved(c.resolved[c.iter.pos]);
      NextAddress(c);
      Model.UpdateForgotten(old(abs), c.Val(), c.Val());
      OnConnectionFailure(c, Model.CONNECT, failed, c.iter != End || c.retries != 0, answer);
    }

    method ConnectResolved(c: Connection, answer: bool)
      requires Holds(c) && NextIsFree() && c.Val().WalkOk() && c.iter != End
      modifies this, c
      ensures repr == old(repr)
      ensures abs == Model.ConnectResolved(old(abs), old(c.Val()), answer) && Valid()
    {
      if SockAllowed(c.resolved[c.iter.pos].sock, c.target.family) {
        Begin(c, Connecting);
      } else {
        OnAddressFailure(c, answer);
      }
    }

    method OnResolveFailure(c: Connection, answer: bool)
      requires Holds(c) && NextIsFree() && c.resolved == [] && c.iter == End
      modifies this, c
      ensures repr == old(repr)
      ensures abs == Model.DnsResolveFailure(old(abs), old(c.Val()), answer) && Valid()
    {
      var retry := SpendRetry(c);
      Model.UpdateForgotten(old(abs), c.Val(), c.Val());
      OnConnectionFailure(c, Model.RESOLVE, Original(c.target), retry, answer);
    }

    method DoResolve(c: Connection, answer: bool)
      requires Holds(c) && NextIsFree() && c.resolved == [] && c.iter == End
      modifies this, c
      ensures repr == old(repr)
      ensures abs == Model.DoResolve(old(abs), old(c.Val()), answer) && Valid()
    {
      if c.target.CanResolve() && SetResolveFamily(c.target.family) {
        Begin(c, Resolving);
      } else {
        OnResolveFailure(c, answer);
      }
    }

    method Connect(c: Connection, answer: bool)
      requires Holds(c) && NextIsFree() && c.Val().WalkOk()
      modifies this, c
      ensures repr == old(repr)
      ensures abs == Model.Connect(old(abs), old(c.Val()), answer) && Valid()
    {
      match c.kind
      case Incoming => OnIncomingConnected(c, answer);
      case Direct =>
        if c.target.CanConnectDirect() {
          Begin(c, Connecting);
        } else {
          OnConnectionFailure(c, Model.CONNECT, Original(c.target), false, answer);
        }
      case Proxied =>
        if c.target.CanConnectProxy() {
          Begin(c, Connecting);
        } else {
          OnConnectionFailure(c, Model.PROXY, Original(c.target), false, answer);
        }
      case Dns =>
        if c.iter == End {
          DoResolve(c, answer);
        } else {
          ConnectResolved(c, answer);
        }
    }

    method OnResolveSuccess(c: Connection, response: seq<Addr>, answer: bool)
      requires Holds(c) && NextIsFree() && c.resolved == [] && c.iter == End
      requires response != []
      modifies this, c
      ensures repr == old(repr)
      ensures abs == Model.DnsResolveSuccess(old(abs), old(c.Val()), response, answer) && Valid()
    {
      TakeResponse(c, response);
      Model.ResolvedForgotten(old(abs), c.Val(), answer);
      ConnectResolved(c, answer);
    }

    method OnConnectSuccess(c: Connection, answer: bool)
      requires Holds(c) && c.IsOutgoing()
      modifies this, c
      ensures repr == old(repr)
      ensures abs == Model.ConnectSuccess(old(abs), old(c.Val()), answer) && Valid()
    {
      if c.kind == Proxied {
        Begin(c, Handshaking);
      } else {
        Restore(c);
        Model.UpdateForgotten(old(abs), c.Val(), c.Val());
        OnOutgoingConnected(c, answer);
      }
    }

    method OnConnectFailure(c: Connection, answer: bool)
      requires Holds(c) && NextIsFree() && c.IsOutgoing()
      requires c.Val().WalkOk() && (c.kind == Dns ==> c.iter != End)
      modifies this, c
      ensures repr == old(repr)
      ensures abs == Model.ConnectFailure(old(abs), old(c.Val()), answer) && Valid()
    {
      match c.kind
      case Dns => OnAddressFailure(c, answer);
      case Direct =>
        var retry := SpendRetry(c);
        Model.UpdateForgotten(old(abs), c.Val(), c.Val());
        OnConnectionFailure(c, Model.CONNECT, Original(c.target), retry, answer);
      case Proxied =>
        var retry := SpendRetry(c);
        Model.UpdateForgotten(old(abs), c.Val(), c.Val());
        OnConnectionFailure(c, Model.PROXY, Original(c.target), retry, answer);
    }

    method OnProxyFailure(c: Connection, answer: bool)
      requires Holds(c) && NextIsFree()
      modifies this, c
      ensures repr == old(repr)
      ensures abs == Model.ProxyFailure(old(abs), old(c.Val()), answer) && Valid()
    {
      var retry := SpendRetry(c);
      Model.UpdateForgotten(old(abs), c.Val(), c.Val());
      OnConnectionFailure(c, Model.CONNECT, Original(c.target), retry, answer);
    }

    /** The object of an accepted socket connects at once. */
    method AcceptAs(id: int, bind: Target, answer: bool)
      requires Valid() && id !in connecting && id !in connected
      modifies this
      ensures old(repr) <= repr && fresh(repr - old(repr))
      ensures abs == Model.AcceptAs(old(abs), id, bind, answer) && Valid()
    {
      var c := new Connection(Incoming, bind, id);
      repr := repr + {c};
      Hold(c);
      OnIncomingConnected(c, answer);
    }

    /** A listener accepted a socket. */
    method OnIncomingConnection(bind: Target, answer: bool)
      requires Valid() && NextIsFree()
      modifies this
      ensures old(repr) <= repr && fresh(repr - old(repr))
      ensures abs == Model.AcceptIncoming(old(abs), bind, answer) && Valid()
    {
      var id := GetNextConnectionIndex();
      AcceptAs(id, bind, answer);
    }

    // ----- pure lookups -----

    method OnLookupFailed(id: int, answer: bool)
      requires Valid() && id in dnsResolves && dnsResolves[id].id == id
      modifies `dnsResolves, `abs
      ensures abs == Model.LookupFailure(old(abs), old(dnsResolves[id]), answer) && Valid()
    {
      var l := dnsResolves[id];
      var (left, mayRetry) := Spend(l.retries);
      var retry := mayRetry && !shutdown;
      abs := Model.Log(abs, OnLookupFailure(l.target, retry, answer));
      if retry && answer {
        dnsResolves := dnsResolves[id := l.(retries := left, stage := Queued)];
      } else {
        dnsResolves := dnsResolves - {id};
      }
      abs := abs.(resolves := dnsResolves);
    }

    method Resolve(id: int, answer: bool)
      requires Valid() && id in dnsResolves && dnsResolves[id].id == id
      modifies `dnsResolves, `abs
      ensures abs == Model.LookupResolve(old(abs), old(dnsResolves[id]), answer) && Valid()
    {
      var l := dnsResolves[id];
      if l.target.CanResolve() && SetResolveFamily(l.target.family) {
        dnsResolves := dnsResolves[id := l.(stage := Querying)];
        abs := abs.(resolves := dnsResolves);
      } else {
        OnLookupFailed(id, answer);
      }
    }

    method OnResolveComplete(id: int, results: seq<Addr>)
      requires Valid() && id in dnsResolves && dnsResolves[id].id == id
      modifies `dnsResolves, `abs
      ensures abs == Model.LookupComplete(old(abs), old(dnsResolves[id]), results) && Valid()
    {
      abs := Model.Log(abs, OnDnsResponse(dnsResolves[id].target, results));
      dnsResolves := dnsResolves - {id};
      abs := abs.(resolves := dnsResolves);
    }

    // ----- new outgoing connections -----

    /** The next two ids are there and are not in use. */
    lemma TwoIdsFree()
      requires Valid() && Inv(abs) && abs.issued + 2 <= Model.ID_SPAN
      ensures NextIsFree() && connectionIndex < Model.ID_MAX
      ensures connectionIndex + 1 !in connected && connectionIndex + 1 !in connecting
    {
      assert IdOk(abs, abs.issued) && IdOk(abs, abs.issued + 1);
    }

    method StartLookup(conn: Target, id: int, answer: bool)
      requires Valid()
      modifies `dnsResolves, `abs
      ensures Valid()
      ensures abs == var l := Lookup(id, conn, conn.nRetries, Queued);
                     Model.LookupResolve(old(abs).(resolves := old(abs).resolves[id := l]), l, answer)
    {
      dnsResolves := dnsResolves[id := Lookup(id, conn, conn.nRetries, Queued)];
      abs := abs.(resolves := dnsResolves);
      Resolve(id, answer);
    }

    method StartAttempt(conn: Target, id: int, answer: bool)
      requires Valid() && NextIsFree() && id != connectionIndex
      requires id !in connecting && id !in connected
      modifies this
      ensures old(repr) <= repr && fresh(repr - old(repr))
      ensures Valid()
      ensures abs == var c := NewConn(id, KindFor(conn), conn); Model.Connect(Model.Place(old(abs), c), c, answer)
    {
      var c := new Connection(KindFor(conn), conn, id);
      repr := repr + {c};
      Place(c);
      Connect(c, answer);
    }

    method StartAs(id: int, conn: Target, answer: bool)
      requires Valid() && NextIsFree() && id != connectionIndex
      requires id !in connecting && id !in connected
      modifies this
      ensures old(repr) <= repr && fresh(repr - old(repr))
      ensures abs == Model.StartAs(old(abs), id, conn, answer) && Valid()
    {
      if conn.IsLookup() {
        if !conn.proxySet {
          StartLookup(conn, id, answer);
        }
      } else {
        StartAttempt(conn, id, answer);
      }
    }

    method StartConnection(conn: Target, answer: bool)
      requires Valid() && Inv(abs) && abs.issued + 2 <= Model.ID_SPAN
      modifies this
      ensures old(repr) <= repr && fresh(repr - old(repr))
      ensures abs == Model.StartConnection(old(abs), conn, answer) && Valid()
    {
      TwoIdsFree();
      var id := GetNextConnectionIndex();
      StartAs(id, conn, answer);
    }

    method StartOne(first: Model.Candidate)
      requires Valid() && Inv(abs) && abs.issued + 2 <= Model.ID_SPAN
      modifies this
      ensures old(repr) <= repr && fresh(repr - old(repr))
      ensures abs == Model.StartOne(old(abs), first) && Valid()
    {
      if first.target.isSet {
        StartConnection(first.target, first.answer);
      }
    }

    method Need() returns (need: nat)
      requires Valid()
      ensures need == Model.Need(abs)
    {
      SameKeys(connecting, abs.connecting);
      var slots := outgoingConnLimit - outgoingConnCount - |connecting|;
      need := ToSizeT(if slots < Model.MAX_SIMULTANEOUS_CONNECTING then slots else Model.MAX_SIMULTANEOUS_CONNECTING);
    }

    method StartAll(chosen: seq<Model.Candidate>)
      requires Valid() && Starting(abs, |chosen|)
      modifies this
      ensures old(repr) <= repr && fresh(repr - old(repr))
      ensures abs == Model.StartAll(old(abs), chosen) && Valid()
    {
      var it := 0;
      assert chosen[0..] == chosen;
      while it < |chosen|
        invariant 0 <= it <= |chosen|
        invariant Valid() && Starting(abs, |chosen| - it)
        invariant old(repr) <= repr && fresh(repr - old(repr))
        invariant Model.StartAll(abs, chosen[it..]) == Model.StartAll(old(abs), chosen)
      {
        StartOneKeeps(abs, chosen[it]);
        assert chosen[it..][0] == chosen[it] && chosen[it..][1..] == chosen[it + 1..];
        StartOne(chosen[it]);
        it := it + 1;
      }
    }

    /** Ask the interface for connections and start as many as there are slots. */
    method RequestOutgoingInt(candidates: seq<Model.Candidate>)
      requires Valid() && Inv(abs) && abs.running && !abs.shutdown
      requires abs.issued + 2 * |Model.Chosen(abs, candidates)| <= Model.ID_SPAN
      modifies this
      ensures old(repr) <= repr && fresh(repr - old(repr))
      ensures abs == Model.RequestOutgoing(old(abs), candidates) && Valid()
    {
      if abs.limit >= 0 {
        NeedWithinSlots(abs);
      }
      var need := Need();
      if need > 0 {
        LogQuiet(abs, OnNeedOutgoingConnections(ToInt(need)));
        Report(OnNeedOutgoingConnections(ToInt(need)));
        StartAll(if |candidates| <= need then candidates else candidates[..need]);
      }
    }

    // ----- listeners and data -----

    method AddBind(id: int, conn: Target)
      requires Valid()
      modifies `binds, `abs
      ensures abs == old(abs).(binds := old(abs).binds + {id}) && Valid()
    {
      binds := binds[id := conn];
      abs := abs.(binds := abs.binds + {id});
    }

    method OnListenFailure(id: int)
      requires Valid()
      modifies `binds, `abs
      ensures abs == Model.ListenFailure(old(abs), id) && Valid()
    {
      Report(OnBindFailure);
      binds := binds - {id};
      abs := abs.(binds := abs.binds - {id});
    }

    method Bind(conn: Target, ok: bool)
      requires Valid() && connectionIndex >= 0
      modifies this
      ensures repr == old(repr)
      ensures abs == Model.BindListener(old(abs), ok) && Valid()
    {
      var id := GetNextConnectionIndex();
      if ok {
        AddBind(id, conn);
      } else {
        OnListenFailure(id);
      }
    }

    /** The end of a read callback: deliver, then report and disconnect. */
    method ReadMessages(c: Connection, some: bool, malformed: bool, answer: bool)
      requires Serves(c) && (malformed ==> NextIsFree())
      modifies this, c
      ensures repr == old(repr)
      ensures abs == Model.ReadMessagesCb(old(abs), old(c.Val()), some, malformed, answer) && Valid()
    {
      if some {
        Report(Of(c.id, OnReceiveMessages));
      }
      if malformed {
        Report(Of(c.id, OnMalformedMessage));
        DisconnectInt(c, answer);
      }
    }

    // ----- lifetime of the handler -----

    method Start(limit: int)
      requires Valid() && Inv(abs) && !abs.running
      modifies `shutdown, `outgoingConnLimit, `eventBase, `abs
      ensures abs == Model.Start(old(abs), limit) && Valid()
    {
      StartKeeps(abs, limit);
      shutdown := false;
      assert outgoingConnCount == 0 && incomingConnCount == 0 && !eventBase;
      outgoingConnLimit := limit;
      eventBase := true;
      abs := abs.(shutdown := false, limit := limit, running := true);
      Report(OnStartup);
    }

    method DropOne(id: int, c: Connection)
      requires Valid()
      modifies `outgoingConnCount, `incomingConnCount, `abs
      ensures abs == Model.DropOne(old(abs), id, c.Val()) && Valid()
    {
      if c.IsOutgoing() {
        outgoingConnCount := outgoingConnCount - 1;
      } else {
        incomingConnCount := incomingConnCount - 1;
      }
      abs := Model.DropOne(abs, id, c.Val());
    }

    /** Take down the first of the objects that are left. */
    method DropNext(disconnecting: map<int, Connection>, ghost dropping: map<int, Conn>)
      returns (rest: map<int, Connection>, ghost left: map<int, Conn>)
      requires Valid() && Mirrors(disconnecting, dropping) && disconnecting != map[]
      modifies `outgoingConnCount, `incomingConnCount, `abs
      ensures Valid() && Mirrors(rest, left) && |rest| < |disconnecting|
      ensures Model.DropConnected(abs, left) == Model.DropConnected(old(abs), dropping)
    {
      var id := FirstKey(disconnecting, dropping);
      DropFirst(abs, dropping, id);
      DropOne(id, disconnecting[id]);
      rest := disconnecting - {id};
      left := dropping - {id};
    }

    /** Take down every object that was connected, in key order. */
    method DropConnected(swapped: map<int, Connection>, ghost vals: map<int, Conn>)
      requires Valid() && Mirrors(swapped, vals)
      modifies `outgoingConnCount, `incomingConnCount, `abs
      ensures abs == Model.DropConnected(old(abs), vals) && Valid()
    {
      var disconnecting := swapped;
      ghost var dropping := vals;
      while disconnecting != map[]
        invariant Valid() && Mirrors(disconnecting, dropping)
        invariant Model.DropConnected(abs, dropping) == Model.DropConnected(old(abs), vals)
        decreases |disconnecting|
      {
        disconnecting, dropping := DropNext(disconnecting, dropping);
      }
      SameKeys(disconnecting, dropping);
    }

    method DropAttempt(id: int)
      requires Valid() && id in connecting
      modifies `connecting, `abs
      ensures id in old(abs).connecting && abs == Model.DropAttempt(old(abs), id, old(abs).connecting[id])
      ensures connecting == old(connecting) - {id} && Valid()
    {
      var c := connecting[id];
      abs := Model.DropAttempt(abs, id, c.Val());
      connecting := connecting - {id};
    }

    /** Report every attempt that was under way as failed, in key order. */
    method DropConnecting()
      requires Valid()
      modifies `connecting, `abs
      ensures abs == Model.DropConnecting(old(abs)) && Valid()
    {
      while connecting != map[]
        invariant Valid()
        invariant Model.DropConnecting(abs) == Model.DropConnecting(old(abs))
        decreases |connecting|
      {
        var id := FirstKey(connecting, abs.connecting);
        DropAttempt(id);
      }
      SameKeys(connecting, abs.connecting);
    }

    /** No connection and no listener is reachable any more. */
    method SwapOut() returns (disconnecting: map<int, Connection>)
      requires Valid()
      modifies `connected, `binds, `shutdown, `abs
      ensures abs == old(abs).(connected := map[], binds := {}, shutdown := true) && Valid()
      ensures Mirrors(disconnecting, old(abs).connected)
    {
      disconnecting := connected;
      connected := map[];
      binds := map[];
      shutdown := true;
      abs := abs.(connected := map[], binds := {}, shutdown := true);
    }

    method ClearLookups()
      requires Valid()
      modifies `dnsResolves, `abs
      ensures abs == old(abs).(resolves := map[]) && Valid()
    {
      dnsResolves := map[];
      abs := abs.(resolves := map[]);
    }

    /** Tell of everything that is held, and let it go. */
    method TakeDown()
      requires Valid() && !shutdown
      modifies this
      ensures repr == old(repr)
      ensures abs == Model.ShutdownInt(old(abs)) && Valid()
    {
      var disconnecting := SwapOut();
      DropConnected(disconnecting, old(abs).connected);
      DropConnecting();
      ClearLookups();
    }

    method ShutdownInt()
      requires Valid() && Inv(abs) && abs.running
      modifies this
      ensures repr == old(repr)
      ensures abs == Model.ShutdownInt(old(abs)) && Valid()
    {
      if shutdown {
        return;
      }
      ShutdownIntKeeps(abs);
      TakeDown();
      assert outgoingConnCount == 0 && incomingConnCount == 0;
    }

    /** The end of PumpEvents after a shutdown. */
    method FinishPump()
      requires Valid()
      modifies `eventBase, `abs
      ensures abs == Model.FinishShutdown(old(abs)) && Valid()
    {
      eventBase := false;
      abs := abs.(running := false);
      Report(OnShutdown);
    }

    // ----- one step of the event loop -----

    /** The next id is there and is not in use. */
    lemma OneIdFree()
      requires Valid() && Inv(abs) && abs.issued < Model.ID_SPAN
      ensures NextIsFree()
    {
      assert IdOk(abs, abs.issued);
    }

    /** An event of an object that is still trying to connect. */
    method DispatchTrying(e: Model.Event)
      requires Valid() && Inv(abs) && Model.Enabled(abs, e) && e.IsTrying()
      modifies this, repr
      ensures repr == old(repr)
      ensures abs == Step(old(abs), e) && Valid()
    {
      ObjectOk(abs, e.key);
      OneIdFree();
      var c := connecting[e.key];
      match e
      case ConnectDone(_, ok, answer) =>
        if ok {
          OnConnectSuccess(c, answer);
        } else {
          OnConnectFailure(c, answer);
        }
      case ProxyDone(_, ok, answer) =>
        if ok {
          OnOutgoingConnected(c, answer);
        } else {
          OnProxyFailure(c, answer);
        }
      case ResolveDone(_, response, answer) => OnResolveSuccess(c, response, answer);
      case ResolveFailed(_, answer) => OnResolveFailure(c, answer);
      case ReconnectTimer(_, answer) => Connect(c, answer);
    }

    /** An event of a pure lookup. */
    method DispatchLookup(e: Model.Event)
      requires Valid() && Inv(abs) && Model.Enabled(abs, e) && e.IsLookup()
      modifies `dnsResolves, `abs
      ensures abs == Step(old(abs), e) && Valid()
    {
      ObjectOk(abs, e.key);
      match e
      case LookupDone(key, results) => OnResolveComplete(key, results);
      case LookupFailed(key, answer) => OnLookupFailed(key, answer);
      case LookupAgain(key, answer) => Resolve(key, answer);
    }

    /** An event of an established connection. */
    method DispatchServing(e: Model.Event)
      requires Valid() && Inv(abs) && Model.Enabled(abs, e) && e.IsServing()
      modifies this, repr
      ensures repr == old(repr)
      ensures abs == Step(old(abs), e) && Valid()
    {
      ObjectOk(abs, e.key);
      if Model.IdDemand(abs, e) == 1 {
        OneIdFree();
      }
      var c := connected[e.key];
      match e
      case ReadMessages(_, some, malformed, answer) => ReadMessages(c, some, malformed, answer);
      case DataNotice(_, notice) => Report(Of(c.id, notice));
      case Disconnect(_, answer) => DisconnectInt(c, answer);
    }

    /** An event that is not of one object. */
    method DispatchRest(e: Model.Event)
      requires Valid() && Inv(abs) && Model.Enabled(abs, e)
      requires !e.IsTrying() && !e.IsLookup() && !e.IsServing()
      modifies this
      ensures old(repr) <= repr && fresh(repr - old(repr))
      ensures abs == Step(old(abs), e) && Valid()
    {
      match e
      case Startup(limit) => Start(limit);
      case Request(candidates) => RequestOutgoingInt(candidates);
      case Accepted(bind, answer) =>
        OneIdFree();
        OnIncomingConnection(bind, answer);
      case Bind(conn, ok) =>
        OneIdFree();
        Bind(conn, ok);
      case ListenFailed(key) => OnListenFailure(key);
      case ShutdownRequest => ShutdownInt();
      case PumpEnd => FinishPump();
    }

    /** Whatever the event loop runs next, the objects make the machine's step
        and keep its invariant. */
    method Dispatch(e: Model.Event)
      requires Valid() && Inv(abs) && Model.Enabled(abs, e)
      modifies this, repr
      ensures old(repr) <= repr && fresh(repr - old(repr))
      ensures abs == Step(old(abs), e) && Inv(abs) && Valid()
    {
      StepKeeps(abs, e);
      if e.IsTrying() {
        DispatchTrying(e);
      } else if e.IsLookup() {
        DispatchLookup(e);
      } else if e.IsServing() {
        DispatchServing(e);
      } else {
        DispatchRest(e);
      }
    }

    /** The next event of a list. */
    method PumpOne(events: seq<Model.Event>, i: nat, ghost end: Model.State)
      requires Valid() && Inv(abs) && i < |events|
      requires AllArmed(abs, events[i..]) && Run(abs, events[i..]) == end
      modifies this, repr
      ensures old(repr) <= repr && fresh(repr - old(repr))
      ensures Valid() && Inv(abs)
      ensures AllArmed(abs, events[i + 1..]) && Run(abs, events[i + 1..]) == end
    {
      NextArmed(abs, events, i, events[i]);
      Dispatch(events[i]);
    }

    /** A run of the event loop: the objects go where the machine goes. */
    method Pump(events: seq<Model.Event>)
      requires Valid() && Inv(abs) && AllArmed(abs, events)
      modifies this, repr
      ensures old(repr) <= repr && fresh(repr - old(repr))
      ensures abs == Run(old(abs), events) && Inv(abs) && Valid()
    {
      var i := 0;
      ghost var end := Run(abs, events);
      assert events[0..] == events;
      while i < |events|
        invariant 0 <= i <= |events| && Valid() && Inv(abs)
        invariant old(repr) <= repr && fresh(repr - old(repr))
        invariant AllArmed(abs, events[i..]) && Run(abs, events[i..]) == end
      {
        PumpOne(events, i, end);
        i := i + 1;
      }
    }

    /** What holds of a key, and of the counters, in the fields themselves. */
    ghost predicate KeyKept(id: int)
      reads this, connected.Values, connecting.Values
    {
      && (id in connected ==> id !in connecting && id !in dnsResolves && id !in binds && connected[id].id == id)
      && (id in connecting ==> id !in dnsResolves && id !in binds && connecting[id].id == id && connecting[id].IsOutgoing())
      && (id in dnsResolves ==> id !in binds)
    }

    ghost predicate CountsKept()
      reads this
    {
      && outgoingConnCount == |OutgoingOf(connected)| && incomingConnCount == |IncomingOf(connected)|
      && (outgoingConnLimit >= 0 ==> outgoingConnCount + |connecting| <= outgoingConnLimit)
    }

    lemma KeyIsKept(id: int)
      requires Valid() && Inv(abs)
      ensures KeyKept(id)
    {
      ObjectOk(abs, id);
      if id in connecting {
        assert connecting[id].Val() == abs.connecting[id];
      }
    }

    lemma CountsAreKept()
      requires Valid() && Inv(abs)
      ensures CountsKept()
    {
      SameKinds(connected, abs.connected);
      SameKeys(connecting, abs.connecting);
    }
  }

  /** A new handler, taken through any events that are armed when they come: its
      objects follow the machine; a key is in one of its maps, an object carries its
      key, only outgoing ones are connecting, the counters count, and the limit is kept. */
  method RunHandler(events: seq<Model.Event>) returns (h: ConnectionHandler)
    requires AllArmed(Model.BOOT, events)
    ensures Inv(Model.BOOT) && h.abs == Run(Model.BOOT, events)
    ensures h.CountsKept() && forall id :: h.KeyKept(id)
  {
    BootOk();
    h := new ConnectionHandler();
    h.Pump(events);
    h.CountsAreKept();
    forall id ensures h.KeyKept(id) {
      h.KeyIsKept(id);
    }
  }
}
