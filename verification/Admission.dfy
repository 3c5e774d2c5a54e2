/**
 Who is in a session and who is waiting: one session of the relay together with
 its sockets, on values. Each frame, close event or teardown is one step.
 */
module Admission {
  import opened Common
  import opened Sessions

  type Socket = nat

  /**
   `connected` is the transport's set of live peer ids, `sockets` the connection
   each is registered under; `stored` is false once the session is torn down.
   */
  datatype Vault = Vault(f: Fields, connected: set<PeerId>, sockets: map<PeerId, Socket>, stored: bool)

  /** What became of the membership token and join proof in a frame, if it carries both. */
  datatype Credential = NoCredential | Malformed | Refused | Spent | Vouched

  datatype JoinFrame = JoinFrame(peer: PeerId, hostRecovery: Option<string>, token: Option<string>, membership: Credential)

  datatype Reply =
    | Silent | InvalidFrame | NotFound | SessionFull | Joined(token: Token) | BadHost | BadToken
    | BadMembership(why: Credential) | HostOffline | AwaitHost | TooManyPending | PeerLimit

  function SafeEqual(a: Option<string>, b: string): bool { a == Some(b) && b != "" }

  // ----- names ----------------------------------------------------------------------------

  /** The names a JavaScript object literal answers to without having them as keys of its own. */
  const InheritedNames: set<string> := {
    "constructor", "__proto__", "__defineGetter__", "__defineSetter__", "__lookupGetter__", "__lookupSetter__",
    "hasOwnProperty", "isPrototypeOf", "propertyIsEnumerable", "toLocaleString", "toString", "valueOf"
  }

  const ReservedIds: set<string> := {"__proto__", "constructor", "prototype"}

  predicate IdChar(c: char) {
    'A' <= c <= 'Z' || 'a' <= c <= 'z' || '0' <= c <= '9' || c == '_' || c == '-'
  }

  /** What the schema lets through as a peer id. */
  predicate ValidPeerId(p: PeerId) {
    1 <= |p| <= 64 && (forall i :: 0 <= i < |p| ==> IdChar(p[i])) && p !in ReservedIds
  }

  /** The program's truth test on `record[p]`: it also finds what every object inherits. */
  predicate Found<V>(record: map<PeerId, V>, p: PeerId) { p in record || p in InheritedNames }

  // ----- presence -----------------------------------------------------------------------

  function StaleIds(peers: map<PeerId, Peer>, connected: set<PeerId>, hostId: PeerId, now: int): set<PeerId> {
    set p | p in peers && p != hostId && p !in connected && peers[p].lastSeenAt <= now - ReconnectGraceMs
  }

  function Reclaim(v: Vault, now: int): Vault {
    v.(f := v.f.(peers := v.f.peers - StaleIds(v.f.peers, v.connected, v.f.hostId, now)))
  }

  /** The admitted peers with a live connection. */
  function Present(v: Vault): set<PeerId> { set p | p in v.connected && p in v.f.peers }

  function Sync(v: Vault, now: int): Vault {
    var n := |Present(v)|;
    v.(f := v.f.(participantCount := n,
                 emptySince := if n > 0 then None else if v.f.emptySince.Some? then v.f.emptySince else Some(now)))
  }

  function Register(v: Vault, p: PeerId, ws: Socket): Vault {
    v.(connected := v.connected + {p}, sockets := v.sockets[p := ws])
  }

  predicate HasRoom(v: Vault, p: PeerId) { Found(v.f.peers, p) || |v.f.peers| < v.f.maxPeers }

  /** `None` when the session is full; the stale slots are reclaimed even then. */
  function Admit(v: Vault, p: PeerId, draw: Token, now: int): (Vault, Option<Token>) {
    var v1 := Reclaim(v, now);
    if !HasRoom(v1, p) then (v1, None)
    else
      var token := if p in v1.f.peers then v1.f.peers[p].token else draw;
      var v2 := Sync(v1.(f := v1.f.(peers := v1.f.peers[p := Peer(now, now, token)])), now);
      (v2.(f := v2.f.(isGroup := v2.f.isGroup || v2.f.participantCount > 2, status := Active)), Some(token))
  }

  // ----- frames --------------------------------------------------------------------------

  /** Registers the socket, then admits its peer. */
  function Enter(v: Vault, p: PeerId, ws: Socket, draw: Token, now: int): (Vault, Reply) {
    var (v2, token) := Admit(Register(v, p, ws), p, draw, now);
    (v2, if token.None? then SessionFull else Joined(token.value))
  }

  function AsHost(v: Vault, p: PeerId): Vault {
    if v.f.hostId == p then v else v.(f := v.f.(peers := v.f.peers - {v.f.hostId}, hostId := p))
  }

  /** A guest without credentials waits for the host, who must be online. */
  function Knock(v: Vault, p: PeerId, ws: Socket, open: set<Socket>, now: int): (Vault, Reply) {
    if !SocketOpen(v, v.f.hostId, open) then (v, HostOffline)
    else if p in v.f.pending then (Register(v, p, ws), AwaitHost)
    else if |v.f.pending| >= MaxPendingPeers then (v, TooManyPending)
    else (Register(v.(f := v.f.(pending := v.f.pending[p := now])), p, ws), AwaitHost)
  }

  /** The connection registered for `p` can still be written to. */
  predicate SocketOpen(v: Vault, p: PeerId, open: set<Socket>) { p in v.sockets && v.sockets[p] in open }

  /** The frame carries the token of the member it names; an inherited name has none. */
  predicate TokenMatches(v: Vault, j: JoinFrame) {
    j.peer in v.f.peers && SafeEqual(j.token, v.f.peers[j.peer].token)
  }

  datatype Way = TurnedAway(reply: Reply) | EntersAsHost | Enters | Knocks

  /** How a join fares once the stale slots are reclaimed: each way in is tried in turn. */
  function WayIn(v: Vault, j: JoinFrame, open: set<Socket>): Way {
    if !HasRoom(v, j.peer) then TurnedAway(SessionFull)
    else if SafeEqual(j.hostRecovery, v.f.hostRecoveryToken) then EntersAsHost
    else if j.peer == v.f.hostId then TurnedAway(BadHost)
    else if Found(v.f.peers, j.peer) then
      if !TokenMatches(v, j) && SocketOpen(v, j.peer, open) then TurnedAway(BadToken) else Enters
    else if j.membership != NoCredential && v.f.hostPublicKey.Some? then
      if j.membership == Vouched then Enters else TurnedAway(BadMembership(j.membership))
    else Knocks
  }

  function Decide(v: Vault, j: JoinFrame, ws: Socket, open: set<Socket>, draw: Token, now: int): (Vault, Reply) {
    match WayIn(v, j, open)
    case TurnedAway(reply) => (v, reply)
    case EntersAsHost => Enter(AsHost(v, j.peer), j.peer, ws, draw, now)
    case Enters => Enter(v, j.peer, ws, draw, now)
    case Knocks => Knock(v, j.peer, ws, open, now)
  }

  /** `open` holds the sockets that can still be written to. */
  function Join(v: Vault, j: JoinFrame, ws: Socket, open: set<Socket>, draw: Token, now: int): (Vault, Reply) {
    if !ValidPeerId(j.peer) then (v, InvalidFrame)
    else if !v.stored then (v, NotFound)
    else Decide(Reclaim(v, now), j, ws, open, draw, now)
  }

  function Accept(v: Vault, caller: PeerId, target: PeerId, draw: Token, now: int): (Vault, Reply) {
    if !v.stored || v.f.hostId != caller || !ValidPeerId(target) || !Found(v.f.pending, target) then (v, Silent)
    else
      var (v1, token) := Admit(v, target, draw, now);
      if token.None? then (v1, PeerLimit)
      else (v1.(f := v1.f.(pending := v1.f.pending - {target})), Joined(token.value))
  }

  /** Only the socket is forgotten; the target stays in `connected`. */
  function Reject(v: Vault, caller: PeerId, target: PeerId): Vault {
    if !v.stored || v.f.hostId != caller || !ValidPeerId(target) || !Found(v.f.pending, target) then v
    else v.(f := v.f.(pending := v.f.pending - {target}), sockets := v.sockets - {target})
  }

  function Kick(v: Vault, caller: PeerId, target: PeerId, now: int): Vault {
    if !v.stored || v.f.hostId != caller || !v.f.isGroup || !ValidPeerId(target) then v
    else if !Found(v.f.peers, target) || target == v.f.hostId then v
    else
      var v1 := Sync(v.(f := v.f.(peers := v.f.peers - {target}), connected := v.connected - {target}), now);
      v1.(sockets := v1.sockets - {target})
  }

  /** A close event counts only for the socket that owns the peer's registration. */
  function Close(v: Vault, ws: Socket, p: PeerId, now: int): Vault {
    if p !in v.sockets || v.sockets[p] != ws then v
    else
      var v1 := v.(sockets := v.sockets - {p}, connected := v.connected - {p});
      if !v1.stored then v1
      else
        var f := v1.f.(pending := v1.f.pending - {p},
                       peers := if p in v1.f.peers then v1.f.peers[p := v1.f.peers[p].(lastSeenAt := now)] else v1.f.peers);
        Sync(v1.(f := f), now)
  }

  /** The session left the store, and its sockets are closed with it. */
  function TearDown(v: Vault): Vault {
    v.(stored := false, connected := {}, sockets := v.sockets - v.connected)
  }

  datatype Event =
    | JoinRequest(frame: JoinFrame, ws: Socket, open: set<Socket>, draw: Token, at: int)
    | AcceptJoin(caller: PeerId, target: PeerId, draw: Token, at: int)
    | RejectJoin(caller: PeerId, target: PeerId, at: int)
    | KickPeer(caller: PeerId, target: PeerId, at: int)
    | Closed(ws: Socket, peer: PeerId, at: int)
    | TornDown(at: int)

  function Step(v: Vault, e: Event): Vault {
    match e
    case JoinRequest(j, ws, open, draw, at) => Join(v, j, ws, open, draw, at).0
    case AcceptJoin(caller, target, draw, at) => Accept(v, caller, target, draw, at).0
    case RejectJoin(caller, target, _) => Reject(v, caller, target)
    case KickPeer(caller, target, at) => Kick(v, caller, target, at)
    case Closed(ws, p, at) => Close(v, ws, p, at)
    case TornDown(_) => TearDown(v)
  }

  function Run(v: Vault, es: seq<Event>): Vault
    decreases |es|
  {
    if es == [] then v else Run(Step(v, es[0]), es[1..])
  }

  /** A session as it is created: nobody is connected yet. */
  function Opened(o: Options, hostId: PeerId, recovery: string, token: Token, now: int): Vault {
    Vault(Fresh(o, hostId, recovery, token, now), {}, map[], true)
  }
}
