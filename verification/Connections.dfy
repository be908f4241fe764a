/** Connection requests and the per-connection state the handler keeps.
    A Target is what the caller asks for (address kind, options); a Conn is the
    state of one connection object while the handler owns it. */
module Connections {

  datatype Family = Family(ipv4: bool, ipv6: bool, unix: bool, onionProxy: bool)

  datatype Resolve = NoResolve | ResolveOnly | ResolveConnect

  /** The family of the socket address held by a connection; NoSock when it has none. */
  datatype Sock = NoSock | Inet | Inet6 | Unix | OtherSock

  predicate SockAllowed(sock: Sock, family: Family) {
    match sock
    case Unix => family.unix
    case Inet => family.ipv4
    case Inet6 => family.ipv6
    case _ => false
  }

  datatype Target = Target(
    name: string,
    isSet: bool,
    isDns: bool,
    isOnion: bool,
    sock: Sock,
    proxySet: bool,
    doResolve: Resolve,
    family: Family,
    nRetries: int,
    persistent: bool)
  {
    /** Only to be resolved, not connected to. */
    predicate IsLookup() {
      isDns && doResolve == ResolveOnly
    }

    predicate CanConnectDirect() {
      isSet && !isDns && !isOnion && SockAllowed(sock, family)
    }

    predicate CanConnectProxy() {
      isSet && proxySet &&
      if isDns then doResolve == ResolveConnect
      else if isOnion then family.onionProxy
      else SockAllowed(sock, family)
    }

    predicate CanResolve() {
      isSet && isDns && doResolve != NoResolve && (family.ipv4 || family.ipv6)
    }
  }

  /** Whether a resolver hint can be built for the allowed families. */
  predicate SetResolveFamily(family: Family) {
    family.ipv4 || family.ipv6
  }

  /** One address of a DNS response. */
  datatype Addr = Addr(text: string, sock: Sock)

  /** The response iterator: past the end, or at a position of the list. */
  datatype Iter = End | At(pos: nat)

  datatype Kind = Incoming | Direct | Dns | Proxied

  /** What the event loop is still going to do for a connection object:
      a reconnect timer, a pending lookup, a pending connect, a SOCKS5
      handshake, or reads and writes on an established connection. */
  datatype Stage = Waiting | Resolving | Connecting | Handshaking | Up

  /** What a connection object was made for. */
  datatype Origin = Origin(kind: Kind, target: Target)
  {
    /** Whether an attempt gets as far as connecting. */
    predicate Eligible() {
      match kind
      case Direct => target.CanConnectDirect()
      case Proxied => target.CanConnectProxy()
      case Dns => true
      case Incoming => false
    }
  }

  /** What is left of a retry budget: a negative budget is never touched. */
  predicate BudgetLeft(retries: int, budget: int) {
    if budget < 0 then retries == budget else 0 <= retries <= budget
  }

  /** The kind of object StartConnection creates for a target that is not a pure lookup. */
  function KindFor(target: Target): Kind {
    if target.proxySet then Proxied else if target.isDns then Dns else Direct
  }

  datatype Conn = Conn(
    id: int,
    kind: Kind,
    target: Target,
    retries: int,
    stage: Stage,
    resolved: seq<Addr>,
    iter: Iter)
  {
    predicate IsOutgoing() {
      kind != Incoming
    }

    function From(): Origin {
      Origin(kind, target)
    }

    /** The response list and its iterator agree: the list is non-empty
        exactly while the iterator points into it. */
    predicate WalkOk() {
      match iter
      case End => resolved == []
      case At(k) => k < |resolved|
    }

    /** The object is what its target asks for, with what is left of its budget. */
    predicate MadeOk() {
      && BudgetLeft(retries, target.nRetries)
      && (IsOutgoing() ==> kind == KindFor(target) && target.isSet && !target.IsLookup())
    }

    /** A connection object that is still trying to connect. */
    predicate TryingOk() {
      && IsOutgoing()
      && WalkOk()
      && MadeOk()
      && (kind != Dns ==> iter == End)
      && match stage
         case Waiting => true
         case Resolving => kind == Dns && iter == End && target.CanResolve()
         case Connecting =>
           && From().Eligible()
           && (kind == Dns ==> iter != End && SockAllowed(resolved[iter.pos].sock, target.family))
         case Handshaking => From().Eligible() && kind == Proxied
         case Up => false
    }

    /** A connection object that has been accepted by the interface. Success
        restores the budget, except through a proxy. */
    predicate UpOk() {
      stage == Up && WalkOk() && iter == End && MadeOk() && (kind != Proxied ==> retries == target.nRetries)
    }
  }

  function NewConn(id: int, kind: Kind, target: Target): Conn {
    Conn(id, kind, target, target.nRetries, Waiting, [], End)
  }

  /** A pure lookup: resolve only, no connection. */
  datatype LookupStage = Querying | Queued

  datatype Lookup = Lookup(id: int, target: Target, retries: int, stage: LookupStage)
  {
    predicate MadeOk() {
      && BudgetLeft(retries, target.nRetries)
      && target.isSet && target.IsLookup() && !target.proxySet
      && (stage == Querying ==> target.CanResolve())
    }
  }

  /** The retry budget as one failure consumes it: a positive budget loses
      one, zero reports no retry, a negative budget never runs out. */
  function Spend(retries: int): (r: (int, bool))
    ensures r.1 <==> retries != 0
    ensures r.0 == if retries > 0 then retries - 1 else retries
  {
    if retries > 0 then (retries - 1, true) else (retries, retries != 0)
  }
}
