/** Who lets whom into a session, who holds an identity in it, and who may act as its host. */
module AdmissionAuthority {
  import opened Common
  import opened Sessions
  import opened Admission
  import opened AdmissionProof

  // ----- who comes and goes --------------------------------------------------------------------

  /**
   From `v` to `v2` only `entrants` may have become members, only `leavers` may
   have lost their slot, and everyone else's token is untouched.
   */
  predicate Follows(v: Vault, v2: Vault, entrants: set<PeerId>, leavers: set<PeerId>) {
    && v2.f.hostRecoveryToken == v.f.hostRecoveryToken && v2.f.maxPeers == v.f.maxPeers
    && (forall p :: p in v2.f.peers ==> p in v.f.peers || p in entrants)
    && (forall p :: p in v.f.peers && p !in leavers ==> p in v2.f.peers && v2.f.peers[p].token == v.f.peers[p].token)
  }

  lemma FollowsOn(v: Vault, v1: Vault, v2: Vault, e1: set<PeerId>, l1: set<PeerId>, e2: set<PeerId>, l2: set<PeerId>)
    requires Follows(v, v1, e1, l1) && Follows(v1, v2, e2, l2)
    ensures Follows(v, v2, e1 + e2, l1 + l2)
  {
  }

  lemma FollowsWider(v: Vault, v2: Vault, e1: set<PeerId>, l1: set<PeerId>, e2: set<PeerId>, l2: set<PeerId>)
    requires Follows(v, v2, e1, l1) && (forall p :: p in e1 ==> p in e2 || p in v.f.peers) && l1 <= l2
    ensures Follows(v, v2, e2, l2)
  {
  }

  lemma AdmitFollows(v: Vault, p: PeerId, draw: Token, now: int)
    ensures Follows(v, Admit(v, p, draw, now).0, {p}, Stale(v, now))
    ensures Admit(v, p, draw, now).0.f.hostId == v.f.hostId
  {
  }

  lemma EnterFollows(v: Vault, p: PeerId, ws: Socket, draw: Token, now: int)
    ensures Follows(v, Enter(v, p, ws, draw, now).0, {p}, Stale(v, now))
    ensures Enter(v, p, ws, draw, now).0.f.hostId == v.f.hostId
  {
    AdmitFollows(Register(v, p, ws), p, draw, now);
    assert Stale(Register(v, p, ws), now) <= Stale(v, now);
  }

  lemma KnockFollows(v: Vault, p: PeerId, ws: Socket, open: set<Socket>, now: int)
    ensures Follows(v, Knock(v, p, ws, open, now).0, {}, {})
    ensures Knock(v, p, ws, open, now).0.f.hostId == v.f.hostId
  {
  }

  /** The frame gives a right to enter: the recovery token, or a membership the host has signed. */
  predicate Proves(v: Vault, j: JoinFrame) {
    SafeEqual(j.hostRecovery, v.f.hostRecoveryToken) || (j.membership.Vouched? && v.f.hostPublicKey.Some?)
  }

  /** The name is an inherited one that no open socket holds: the program takes it for a member's. */
  predicate PassesAsMember(v: Vault, p: PeerId, open: set<Socket>) {
    ValidPeerId(p) && p in InheritedNames && !SocketOpen(v, p, open)
  }

  function Proven(v: Vault, j: JoinFrame): set<PeerId> { if Proves(v, j) then {j.peer} else {} }

  function Passing(v: Vault, p: PeerId, open: set<Socket>): set<PeerId> {
    if PassesAsMember(v, p, open) then {p} else {}
  }

  function Displaced(v: Vault, j: JoinFrame): set<PeerId> {
    if SafeEqual(j.hostRecovery, v.f.hostRecoveryToken) && j.peer != v.f.hostId then {v.f.hostId} else {}
  }

  lemma HostEntryFollows(v: Vault, j: JoinFrame, ws: Socket, draw: Token, now: int)
    requires SafeEqual(j.hostRecovery, v.f.hostRecoveryToken)
    ensures Follows(v, Enter(AsHost(v, j.peer), j.peer, ws, draw, now).0, Proven(v, j), Stale(v, now) + Displaced(v, j))
  {
    var v1 := AsHost(v, j.peer);
    assert Follows(v, v1, {}, Displaced(v, j));
    EnterFollows(v1, j.peer, ws, draw, now);
    assert Stale(v1, now) <= Stale(v, now) + Displaced(v, j);
    var v2 := Enter(v1, j.peer, ws, draw, now).0;
    FollowsOn(v, v1, v2, {}, Displaced(v, j), {j.peer}, Stale(v1, now));
    FollowsWider(v, v2, {} + {j.peer}, Displaced(v, j) + Stale(v1, now), Proven(v, j), Stale(v, now) + Displaced(v, j));
  }

  /** Entering without the host's role takes a slot one has, a credential, or an inherited name. */
  lemma EntersBy(v: Vault, j: JoinFrame, open: set<Socket>)
    requires WayIn(v, j, open).Enters? && ValidPeerId(j.peer)
    ensures j.peer in v.f.peers || Proves(v, j) || PassesAsMember(v, j.peer, open)
  {
  }

  lemma PeerEntryFollows(v: Vault, j: JoinFrame, ws: Socket, open: set<Socket>, draw: Token, now: int)
    requires WayIn(v, j, open).Enters? && ValidPeerId(j.peer)
    ensures Follows(v, Enter(v, j.peer, ws, draw, now).0, Proven(v, j) + Passing(v, j.peer, open), Stale(v, now) + Displaced(v, j))
  {
    EnterFollows(v, j.peer, ws, draw, now);
    EntersBy(v, j, open);
    FollowsWider(v, Enter(v, j.peer, ws, draw, now).0, {j.peer}, Stale(v, now),
                 Proven(v, j) + Passing(v, j.peer, open), Stale(v, now) + Displaced(v, j));
  }

  lemma DecideFollows(v: Vault, j: JoinFrame, ws: Socket, open: set<Socket>, draw: Token, now: int)
    requires ValidPeerId(j.peer)
    ensures Follows(v, Decide(v, j, ws, open, draw, now).0, Proven(v, j) + Passing(v, j.peer, open), Stale(v, now) + Displaced(v, j))
  {
    var v2 := Decide(v, j, ws, open, draw, now).0;
    match WayIn(v, j, open)
    case TurnedAway(reply) =>
    case EntersAsHost =>
      HostEntryFollows(v, j, ws, draw, now);
      FollowsWider(v, v2, Proven(v, j), Stale(v, now) + Displaced(v, j),
                   Proven(v, j) + Passing(v, j.peer, open), Stale(v, now) + Displaced(v, j));
    case Enters => PeerEntryFollows(v, j, ws, open, draw, now);
    case Knocks =>
      KnockFollows(v, j.peer, ws, open, now);
      FollowsWider(v, v2, {}, {}, Proven(v, j) + Passing(v, j.peer, open), Stale(v, now) + Displaced(v, j));
  }

  lemma ReclaimFollows(v: Vault, now: int)
    ensures Follows(v, Reclaim(v, now), {}, Stale(v, now)) && Stale(Reclaim(v, now), now) <= Stale(v, now)
  {
  }

  lemma JoinFollows(v: Vault, j: JoinFrame, ws: Socket, open: set<Socket>, draw: Token, now: int)
    ensures Follows(v, Join(v, j, ws, open, draw, now).0, Proven(v, j) + Passing(v, j.peer, open), Stale(v, now) + Displaced(v, j))
  {
    if v.stored && ValidPeerId(j.peer) {
      var v1 := Reclaim(v, now);
      var v2 := Decide(v1, j, ws, open, draw, now).0;
      ReclaimFollows(v, now);
      DecideFollows(v1, j, ws, open, draw, now);
      var e := Proven(v, j) + Passing(v, j.peer, open);
      assert Proven(v1, j) + Passing(v1, j.peer, open) == e && Displaced(v1, j) == Displaced(v, j);
      FollowsOn(v, v1, v2, {}, Stale(v, now), e, Stale(v1, now) + Displaced(v1, j));
      FollowsWider(v, v2, {} + e, Stale(v, now) + (Stale(v1, now) + Displaced(v1, j)), e, Stale(v, now) + Displaced(v, j));
    }
  }

  /** Whom the step lets in with authority: a peer with a credential, or a waiting guest the host names. */
  function Entrants(v: Vault, e: Event): set<PeerId> {
    match e
    case JoinRequest(j, _, _, _, _) => Proven(v, j)
    case AcceptJoin(caller, target, _, _) => if caller == v.f.hostId && target in v.f.pending then {target} else {}
    case _ => {}
  }

  /** Whom an inherited name lets in: a joiner that no open socket stops, or a guest the host names who never asked. */
  function Intruders(v: Vault, e: Event): set<PeerId> {
    match e
    case JoinRequest(j, _, open, _, _) => if v.stored then Passing(v, j.peer, open) else {}
    case AcceptJoin(caller, target, _, _) =>
      if v.stored && caller == v.f.hostId && ValidPeerId(target) && target in InheritedNames then {target} else {}
    case _ => {}
  }

  /** Whose slot the step may take: past the grace period, kicked by the host, or the host replaced with its token. */
  function Leavers(v: Vault, e: Event): set<PeerId> {
    match e
    case JoinRequest(j, _, _, _, at) => Stale(v, at) + Displaced(v, j)
    case AcceptJoin(_, _, _, at) => Stale(v, at)
    case KickPeer(caller, target, _) => if caller == v.f.hostId && v.f.isGroup && target != v.f.hostId then {target} else {}
    case _ => {}
  }

  lemma AcceptFollows(v: Vault, caller: PeerId, target: PeerId, draw: Token, now: int)
    ensures var e := AcceptJoin(caller, target, draw, now);
            Follows(v, Step(v, e), Entrants(v, e) + Intruders(v, e), Leavers(v, e))
  {
    AdmitFollows(v, target, draw, now);
  }

  /** Nobody becomes a member, loses a slot or has a token changed but as the three sets say. */
  lemma StepFollows(v: Vault, e: Event)
    ensures Follows(v, Step(v, e), Entrants(v, e) + Intruders(v, e), Leavers(v, e))
  {
    match e
    case JoinRequest(j, ws, open, draw, at) => JoinFollows(v, j, ws, open, draw, at);
    case AcceptJoin(caller, target, draw, at) => AcceptFollows(v, caller, target, draw, at);
    case RejectJoin(caller, target, _) =>
    case KickPeer(caller, target, at) =>
    case Closed(ws, p, at) =>
    case TornDown(_) =>
  }

  // ----- authority, exactly ----------------------------------------------------------------------

  /** Every id that is new among the members was let in with authority. */
  predicate EntersRightly(v: Vault, e: Event) {
    forall p :: p in Step(v, e).f.peers ==> p in v.f.peers || p in Entrants(v, e)
  }

  /** The event admits an inherited name that is no member's, without a credential or a request behind it. */
  predicate Intrudes(v: Vault, e: Event) {
    exists p :: p in Intruders(v, e) && p !in v.f.peers && p !in Entrants(v, e)
  }

  /** The way in for a name taken as a member's. */
  lemma IntrudersWay(v: Vault, j: JoinFrame, open: set<Socket>)
    requires v.f.hostId in v.f.peers && j.peer !in v.f.peers && PassesAsMember(v, j.peer, open) && !Proves(v, j)
    ensures WayIn(v, j, open) == Enters && HasRoom(v, j.peer)
  {
  }

  lemma IntruderJoins(v: Vault, j: JoinFrame, ws: Socket, open: set<Socket>, draw: Token, now: int)
    requires Inv(v) && v.stored && j.peer !in v.f.peers && PassesAsMember(v, j.peer, open) && !Proves(v, j)
    ensures j.peer in Join(v, j, ws, open, draw, now).0.f.peers
  {
    var v1 := Reclaim(v, now);
    ReclaimKeeps(v, now);
    ReclaimedIsFresh(v, now);
    IntrudersWay(v1, j, open);
    EnterPeers(v1, j.peer, ws, draw, now);
  }

  lemma IntruderAccepted(v: Vault, target: PeerId, draw: Token, now: int)
    requires v.stored && ValidPeerId(target) && target in InheritedNames
    ensures target in Accept(v, v.f.hostId, target, draw, now).0.f.peers
  {
  }

  lemma IntruderEnters(v: Vault, e: Event, p: PeerId)
    requires Inv(v) && p in Intruders(v, e) && p !in v.f.peers && p !in Entrants(v, e)
    ensures p in Step(v, e).f.peers
  {
    if e.JoinRequest? {
      IntruderJoins(v, e.frame, e.ws, e.open, e.draw, e.at);
    } else if e.AcceptJoin? {
      IntruderAccepted(v, e.target, e.draw, e.at);
    }
  }

  /** A step lets in only whom a credential or the host vouches for, if and only if no inherited name intrudes. */
  lemma EntryExactly(v: Vault, e: Event)
    requires Inv(v)
    ensures EntersRightly(v, e) <==> !Intrudes(v, e)
  {
    StepFollows(v, e);
    if Intrudes(v, e) {
      var p :| p in Intruders(v, e) && p !in v.f.peers && p !in Entrants(v, e);
      IntruderEnters(v, e, p);
    }
  }

  /** Every step of a run lets in only whom it should. */
  predicate AllRightly(v: Vault, es: seq<Event>)
    decreases |es|
  {
    es == [] || (EntersRightly(v, es[0]) && AllRightly(Step(v, es[0]), es[1..]))
  }

  lemma {:induction false} RightlyFrom(v: Vault, es: seq<Event>)
    requires Inv(v)
    ensures AllRightly(v, es) <==> Never(Intrudes, v, es)
    decreases |es|
  {
    if es != [] {
      EntryExactly(v, es[0]);
      StepKeeps(v, es[0]);
      RightlyFrom(Step(v, es[0]), es[1..]);
    }
  }

  /** Over a whole run nobody is admitted without authority, if and only if no inherited name intrudes. */
  lemma AuthorityExactly(o: Options, hostId: PeerId, recovery: string, token: Token, now: int, es: seq<Event>)
    ensures var v := Opened(o, hostId, recovery, token, now);
            AllRightly(v, es) <==> Never(Intrudes, v, es)
  {
    OpenedSound(o, hostId, recovery, token, now);
    RightlyFrom(Opened(o, hostId, recovery, token, now), es);
  }

  // ----- the host --------------------------------------------------------------------------------

  lemma DecideHost(v: Vault, j: JoinFrame, ws: Socket, open: set<Socket>, draw: Token, now: int)
    ensures Decide(v, j, ws, open, draw, now).0.f.hostId == if WayIn(v, j, open).EntersAsHost? then j.peer else v.f.hostId
  {
    match WayIn(v, j, open)
    case TurnedAway(reply) =>
    case EntersAsHost => EnterFollows(AsHost(v, j.peer), j.peer, ws, draw, now);
    case Enters => EnterFollows(v, j.peer, ws, draw, now);
    case Knocks => KnockFollows(v, j.peer, ws, open, now);
  }

  lemma JoinHost(v: Vault, j: JoinFrame, ws: Socket, open: set<Socket>, draw: Token, now: int)
    ensures Join(v, j, ws, open, draw, now).0.f.hostId == v.f.hostId
         || (WayIn(Reclaim(v, now), j, open).EntersAsHost? && Join(v, j, ws, open, draw, now).0.f.hostId == j.peer)
    ensures WayIn(Reclaim(v, now), j, open).EntersAsHost? ==> SafeEqual(j.hostRecovery, v.f.hostRecoveryToken)
  {
    DecideHost(Reclaim(v, now), j, ws, open, draw, now);
  }

  lemma OthersKeepHost(v: Vault, e: Event)
    requires !e.JoinRequest?
    ensures Step(v, e).f.hostId == v.f.hostId
  {
    if e.AcceptJoin? { AdmitFollows(v, e.target, e.draw, e.at); }
  }

  /** Host authority moves only to a peer that shows the recovery token. */
  lemma HostNeedsToken(v: Vault, e: Event)
    requires Step(v, e).f.hostId != v.f.hostId
    ensures e.JoinRequest? && SafeEqual(e.frame.hostRecovery, v.f.hostRecoveryToken) && Step(v, e).f.hostId == e.frame.peer
  {
    if e.JoinRequest? {
      JoinHost(v, e.frame, e.ws, e.open, e.draw, e.at);
    } else {
      OthersKeepHost(v, e);
    }
  }

  // ----- who holds an identity ---------------------------------------------------------------------

  /**
   What it takes to be let in under a name, once the stale slots are reclaimed:
   the recovery token; or, for a name taken as a member's, the member's token or
   that no open socket holds the name; or, for any other, a membership.
   */
  predicate MayEnter(v: Vault, j: JoinFrame, open: set<Socket>) {
    || SafeEqual(j.hostRecovery, v.f.hostRecoveryToken)
    || (j.peer != v.f.hostId
        && if Found(v.f.peers, j.peer) then TokenMatches(v, j) || !SocketOpen(v, j.peer, open)
           else j.membership.Vouched? && v.f.hostPublicKey.Some?)
  }

  /** The name is the frame's, its socket is the one that asked, and the token handed out is the member's own. */
  predicate HoldsIdentity(v: Vault, v2: Vault, j: JoinFrame, ws: Socket, token: Token) {
    && j.peer in v2.f.peers && j.peer in v2.sockets && v2.sockets[j.peer] == ws
    && v2.f.peers[j.peer].token == token
    && (j.peer in v.f.peers ==> token == v.f.peers[j.peer].token)
  }

  lemma EnterHolds(v: Vault, p: PeerId, ws: Socket, draw: Token, now: int)
    requires HasRoom(v, p) && Stale(v, now) == {}
    ensures var (v2, reply) := Enter(v, p, ws, draw, now);
            && reply.Joined? && p in v2.f.peers && v2.sockets == v.sockets[p := ws] && v2.f.peers[p].token == reply.token
            && (p in v.f.peers ==> reply.token == v.f.peers[p].token)
  {
    EnterPeers(v, p, ws, draw, now);
  }

  lemma DecideJoinsExactly(v: Vault, j: JoinFrame, ws: Socket, open: set<Socket>, draw: Token, now: int)
    requires Stale(v, now) == {}
    ensures var (v2, reply) := Decide(v, j, ws, open, draw, now);
            && (reply.Joined? <==> HasRoom(v, j.peer) && MayEnter(v, j, open))
            && (reply.Joined? ==> HoldsIdentity(v, v2, j, ws, reply.token))
  {
    match WayIn(v, j, open)
    case TurnedAway(reply) =>
    case EntersAsHost =>
      AsHostIsFresh(v, j.peer, now);
      AsHostKeeps(v, j.peer);
      EnterHolds(AsHost(v, j.peer), j.peer, ws, draw, now);
    case Enters => EnterHolds(v, j.peer, ws, draw, now);
    case Knocks =>
  }

  /**
   A join is answered "joined" if and only if the reclaimed session has room for
   the name and the frame, or the absence of an open socket, gives the right to
   it. The socket that asked then holds the identity, and the reply carries the
   token the member already had.
   */
  lemma JoinedExactly(v: Vault, j: JoinFrame, ws: Socket, open: set<Socket>, draw: Token, now: int)
    ensures var (v2, reply) := Join(v, j, ws, open, draw, now);
            var v1 := Reclaim(v, now);
            && (reply.Joined? <==> v.stored && ValidPeerId(j.peer) && HasRoom(v1, j.peer) && MayEnter(v1, j, open))
            && (reply.Joined? ==> HoldsIdentity(v1, v2, j, ws, reply.token))
  {
    ReclaimedIsFresh(v, now);
    DecideJoinsExactly(Reclaim(v, now), j, ws, open, draw, now);
  }

  lemma DecideSockets(v: Vault, j: JoinFrame, ws: Socket, open: set<Socket>, draw: Token, now: int)
    ensures var (v2, reply) := Decide(v, j, ws, open, draw, now);
            v2.sockets == v.sockets
            || (v2.sockets == v.sockets[j.peer := ws] && (reply.Joined? || (reply.AwaitHost? && !Found(v.f.peers, j.peer))))
  {
    match WayIn(v, j, open)
    case TurnedAway(reply) =>
    case EntersAsHost => AsHostKeeps(v, j.peer); EnterSocket(AsHost(v, j.peer), j.peer, ws, draw, now);
    case Enters => EnterSocket(v, j.peer, ws, draw, now);
    case Knocks =>
  }

  lemma EnterSocket(v: Vault, p: PeerId, ws: Socket, draw: Token, now: int)
    requires HasRoom(v, p)
    ensures Enter(v, p, ws, draw, now).0.sockets == v.sockets[p := ws] && Enter(v, p, ws, draw, now).1.Joined?
  {
    assert p in v.f.peers ==> p in Reclaim(Register(v, p, ws), now).f.peers;
    ShrinksMap(v.f.peers, StaleIds(v.f.peers, v.connected + {p}, v.f.hostId, now));
  }

  lemma OthersMoveNoSocket(v: Vault, e: Event, p: PeerId)
    requires !e.JoinRequest? && p in Step(v, e).sockets
    ensures p in v.sockets && Step(v, e).sockets[p] == v.sockets[p]
  {
  }

  /**
   A name's registered socket changes only to that of a join that was answered,
   so within what `JoinedExactly` allows, or of a guest who is no member and waits.
   */
  lemma SocketsMoveByJoin(v: Vault, e: Event, p: PeerId)
    requires p in Step(v, e).sockets && (p in v.sockets ==> Step(v, e).sockets[p] != v.sockets[p])
    ensures e.JoinRequest? && e.frame.peer == p && Step(v, e).sockets[p] == e.ws
    ensures var reply := Join(v, e.frame, e.ws, e.open, e.draw, e.at).1;
            reply.Joined? || (reply.AwaitHost? && !Found(Reclaim(v, e.at).f.peers, p))
  {
    if e.JoinRequest? {
      DecideSockets(Reclaim(v, e.at), e.frame, e.ws, e.open, e.draw, e.at);
    } else {
      OthersMoveNoSocket(v, e, p);
    }
  }

  // ----- the takeover -------------------------------------------------------------------------------

  /**
   A stranger that knows nothing but a member's public id is made that member,
   and given its token, exactly when no open socket holds the id.
   */
  lemma TakeoverExactly(v: Vault, p: PeerId, ws: Socket, open: set<Socket>, draw: Token, now: int)
    requires v.stored && ValidPeerId(p) && p != v.f.hostId && p in Reclaim(v, now).f.peers
    ensures var (v2, reply) := Join(v, Bare(p), ws, open, draw, now);
            && (reply == Joined(v.f.peers[p].token) <==> !SocketOpen(v, p, open))
            && (!SocketOpen(v, p, open) ==> p in v2.sockets && v2.sockets[p] == ws)
  {
    JoinedExactly(v, Bare(p), ws, open, draw, now);
  }

  lemma VouchedWay(v: Vault, p: PeerId, open: set<Socket>)
    requires HasRoom(v, p) && !Found(v.f.peers, p) && p != v.f.hostId && v.f.hostPublicKey.Some?
    ensures WayIn(v, JoinFrame(p, None, None, Vouched), open) == Enters
  {
  }

  /** A member that came in by its membership and whose socket has just closed. */
  lemma MemberLeaves(v: Vault, p: PeerId, draw: Token, now: int)
    requires Inv(v) && v.stored && v.f.peers.Keys == {v.f.hostId} && v.f.maxPeers >= 2 && v.f.hostPublicKey.Some?
    requires ValidPeerId(p) && p !in InheritedNames && p != v.f.hostId
    ensures var v1 := Step(v, JoinRequest(JoinFrame(p, None, None, Vouched), 1, {1}, draw, now));
            var v2 := Step(v1, Closed(1, p, now));
            && v2.stored && p in v2.f.peers && v2.f.peers[p].token == draw && v2.f.peers[p].lastSeenAt == now
            && v2.f.hostId == v.f.hostId && p !in v2.sockets
  {
    NobodyStale(v, now);
    KeysSize(v.f.peers);
    VouchedWay(v, p, {1});
    EnterHolds(v, p, 1, draw, now);
    EnterPeers(v, p, 1, draw, now);
  }

  /** From the start of a session: one member comes and goes, and a stranger takes its identity and its token. */
  lemma StrangerTakesOver(o: Options, hostId: PeerId, recovery: string, token: Token, draw: Token, p: PeerId, now: int)
    requires o.hostPublicKey.Some? && ValidPeerId(p) && p !in InheritedNames && p != hostId
    ensures var e1 := JoinRequest(JoinFrame(p, None, None, Vouched), 1, {1}, draw, now);
            var v2 := Run(Opened(o, hostId, recovery, token, now), [e1, Closed(1, p, now)]);
            var (v3, reply) := Join(v2, Bare(p), 2, {2}, draw, now);
            reply == Joined(draw) && v3.sockets[p := 2] == v3.sockets
  {
    var v := Opened(o, hostId, recovery, token, now);
    var e1 := JoinRequest(JoinFrame(p, None, None, Vouched), 1, {1}, draw, now);
    OpenedSound(o, hostId, recovery, token, now);
    MemberLeaves(v, p, draw, now);
    TwoEvents(v, e1, Closed(1, p, now));
    TakeoverExactly(Run(v, [e1, Closed(1, p, now)]), p, 2, {2}, draw, now);
  }
}
