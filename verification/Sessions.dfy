/** A session: the record the store keeps and the transport updates in place. */
module Sessions {
  import opened Common

  type Id = string
  type PeerId = string

  const MaxPeers := 10
  const MaxPendingPeers := 10
  const DefaultTtlMs := 900000
  const MaxTtlMs := 86400000
  const ReconnectGraceMs := 30000
  const InactivityTtlMs := 1800000
  const EmptySessionTtlMs := 300000
  const MaxActiveSessions := 10000

  /** A drawn token is never empty. */
  type Token = t: string | t != "" witness "token"

  datatype Peer = Peer(joinedAt: int, lastSeenAt: int, token: Token)

  datatype Status = Waiting | Active

  datatype Fields = Fields(
    createdAt: int, expiresAt: int, lastActivityAt: int,
    hostId: PeerId, hostRecoveryToken: string, hostPublicKey: Option<string>,
    peers: map<PeerId, Peer>, pending: map<PeerId, int>,
    status: Status, maxPeers: nat, participantCount: nat, emptySince: Option<int>, isGroup: bool)

  class Session {
    const id: Id
    const createdAt: int
    const hostRecoveryToken: string
    const hostPublicKey: Option<string>
    const maxPeers: nat
    var expiresAt: int
    var lastActivityAt: int
    var hostId: PeerId
    var peers: map<PeerId, Peer>
    var pendingPeers: map<PeerId, int>
    var status: Status
    var participantCount: nat
    var emptySince: Option<int>
    var isGroup: bool

    ghost function View(): Fields
      reads this
    {
      Fields(createdAt, expiresAt, lastActivityAt, hostId, hostRecoveryToken, hostPublicKey,
             peers, pendingPeers, status, maxPeers, participantCount, emptySince, isGroup)
    }

    constructor (id: Id, f: Fields)
      ensures this.id == id && View() == f
    {
      this.id, createdAt, expiresAt, lastActivityAt := id, f.createdAt, f.expiresAt, f.lastActivityAt;
      hostId, hostRecoveryToken, hostPublicKey := f.hostId, f.hostRecoveryToken, f.hostPublicKey;
      peers, pendingPeers, status, maxPeers := f.peers, f.pending, f.status, f.maxPeers;
      participantCount, emptySince, isGroup := f.participantCount, f.emptySince, f.isGroup;
    }
  }

  // ----- creation and expiry -------------------------------------------------------------

  /** A missing or zero request takes the default; every other is pulled into range. */
  function ClampPeers(requested: Option<int>): (r: nat)
    ensures 2 <= r <= MaxPeers
    ensures requested.Some? && 2 <= requested.value <= MaxPeers ==> r == requested.value
    ensures requested == None || requested == Some(0) ==> r == 10
    ensures requested.Some? && requested.value != 0 && requested.value < 2 ==> r == 2
    ensures requested.Some? && requested.value > 10 ==> r == 10
  {
    if requested.None? || requested.value == 0 then MaxPeers else Min(Max(2, requested.value), MaxPeers)
  }

  datatype Options = Options(expiresInSeconds: Option<int>, hostPublicKey: Option<string>, id: Option<Id>, maxPeers: Option<int>)

  /** A missing or zero request takes the default; every other is granted up to a day. */
  function Ttl(expiresInSeconds: Option<int>): (r: int)
    ensures r <= MaxTtlMs
    ensures var s := if expiresInSeconds.Some? then expiresInSeconds.value else 0;
            (s == 0 ==> r == DefaultTtlMs) && (s != 0 && s * 1000 <= MaxTtlMs ==> r == s * 1000)
  {
    Min(if expiresInSeconds.None? || expiresInSeconds.value == 0 then DefaultTtlMs else expiresInSeconds.value * 1000, MaxTtlMs)
  }

  /** The record a create starts from; ids and tokens are the caller's random draws. */
  function Fresh(o: Options, hostId: PeerId, recovery: string, token: Token, now: int): Fields {
    Fields(now, now + Ttl(o.expiresInSeconds), now, hostId, recovery, o.hostPublicKey,
           map[hostId := Peer(now, now, token)], map[], Waiting, ClampPeers(o.maxPeers), 1, None, false)
  }

  function RefreshedExpiry(createdAt: int, now: int): int {
    Min(now + DefaultTtlMs, createdAt + MaxTtlMs)
  }

  predicate EmptyTooLong(f: Fields, now: int) {
    f.participantCount == 0 && f.emptySince.Some? && now - f.emptySince.value > EmptySessionTtlMs
  }

  predicate Overdue(f: Fields, now: int) {
    f.expiresAt < now || now - f.lastActivityAt > InactivityTtlMs || EmptyTooLong(f, now)
  }
}
