/**
 A whole session after each event, id by id, told from what could be looked up
 before it: who is a member and under which record, who waits, who is listed
 under which socket, who is host. From that: what a kick does, and how long a
 slot is kept for a member whose socket closed.
 */
module AdmissionMembers {
  import opened Common
  import opened Sessions
  import opened Admission
  import opened AdmissionProof
  import opened AdmissionAuthority

  // ----- what an event is, by what could be looked up before it ------------------------------------

  /** A member other than the host, without a connection, last seen 30 seconds ago or longer. */
  predicate Lapsed(v: Vault, p: PeerId, at: int) {
    p in v.f.peers && p != v.f.hostId && p !in v.connected && v.f.peers[p].lastSeenAt + 30000 <= at
  }

  function Remaining(v: Vault, at: int): set<PeerId> { set p | p in v.f.peers && !Lapsed(v, p, at) }

  /** The name is a member's, or one that every object answers to. */
  predicate Taken(v: Vault, p: PeerId, at: int) { p in Remaining(v, at) || p in InheritedNames }

  predicate Room(v: Vault, p: PeerId, at: int) { Taken(v, p, at) || |Remaining(v, at)| < v.f.maxPeers }

  predicate Recovers(v: Vault, j: JoinFrame) {
    j.hostRecovery == Some(v.f.hostRecoveryToken) && v.f.hostRecoveryToken != ""
  }

  predicate Online(v: Vault, p: PeerId, open: set<Socket>) { p in v.sockets && v.sockets[p] in open }

  /** A join that makes its name a member and its socket the member's. */
  predicate Joins(v: Vault, e: Event) {
    && e.JoinRequest? && v.stored && ValidPeerId(e.frame.peer) && Room(v, e.frame.peer, e.at)
    && (|| Recovers(v, e.frame)
        || (e.frame.peer != v.f.hostId
            && if Taken(v, e.frame.peer, e.at)
               then (e.frame.peer in Remaining(v, e.at) && e.frame.token == Some(v.f.peers[e.frame.peer].token))
                    || !Online(v, e.frame.peer, e.open)
               else e.frame.membership.Vouched? && v.f.hostPublicKey.Some?))
  }

  /** A join that leaves its name waiting for the host. */
  predicate Queues(v: Vault, e: Event) {
    && e.JoinRequest? && v.stored && ValidPeerId(e.frame.peer) && Room(v, e.frame.peer, e.at)
    && !Recovers(v, e.frame) && e.frame.peer != v.f.hostId && !Taken(v, e.frame.peer, e.at)
    && (e.frame.membership.NoCredential? || v.f.hostPublicKey.None?)
    && Online(v, v.f.hostId, e.open) && (e.frame.peer in v.f.pending || |v.f.pending| < 10)
  }

  /** The host speaks to a waiting guest, or to an inherited name. */
  predicate Answers(v: Vault, caller: PeerId, target: PeerId) {
    v.stored && caller == v.f.hostId && ValidPeerId(target) && (target in v.f.pending || target in InheritedNames)
  }

  predicate Accepts(v: Vault, e: Event) {
    e.AcceptJoin? && Answers(v, e.caller, e.target) && Room(v, e.target, e.at)
  }

  predicate Rejects(v: Vault, e: Event) { e.RejectJoin? && Answers(v, e.caller, e.target) }

  predicate Kicks(v: Vault, e: Event) {
    && e.KickPeer? && v.stored && e.caller == v.f.hostId && v.f.isGroup && ValidPeerId(e.target)
    && (e.target in v.f.peers || e.target in InheritedNames) && e.target != v.f.hostId
  }

  predicate Departs(v: Vault, e: Event) { e.Closed? && e.peer in v.sockets && v.sockets[e.peer] == e.ws }

  /** The event makes the relay look for lapsed members. */
  predicate Sweeps(v: Vault, e: Event) {
    || (e.JoinRequest? && v.stored && ValidPeerId(e.frame.peer))
    || (e.AcceptJoin? && Answers(v, e.caller, e.target))
  }

  predicate Comes(v: Vault, e: Event, p: PeerId) {
    (Joins(v, e) && e.frame.peer == p) || (Accepts(v, e) && e.target == p)
  }

  /** The recovery token in another's hands takes the host's slot. */
  predicate Displaces(v: Vault, e: Event, p: PeerId) {
    Joins(v, e) && Recovers(v, e.frame) && p == v.f.hostId && p != e.frame.peer
  }

  predicate Goes(v: Vault, e: Event, p: PeerId) {
    || (Sweeps(v, e) && Lapsed(v, p, e.at))
    || (Kicks(v, e) && e.target == p)
    || Displaces(v, e, p)
  }

  // ----- the state after it -------------------------------------------------------------------------

  function MemberAfter(v: Vault, e: Event, p: PeerId): Option<Peer> {
    if Comes(v, e, p) then Some(Peer(e.at, e.at, if p in Remaining(v, e.at) then v.f.peers[p].token else e.draw))
    else if p !in v.f.peers || Goes(v, e, p) then None
    else if v.stored && Departs(v, e) && e.peer == p then Some(v.f.peers[p].(lastSeenAt := e.at))
    else Some(v.f.peers[p])
  }

  /** The time the guest first asked; a guest that joins by other means stays on the list. */
  function WaitingAfter(v: Vault, e: Event, p: PeerId): Option<int> {
    if Queues(v, e) && e.frame.peer == p then Some(if p in v.f.pending then v.f.pending[p] else e.at)
    else if p !in v.f.pending || ((Accepts(v, e) || Rejects(v, e)) && e.target == p) || (v.stored && Departs(v, e) && e.peer == p)
    then None
    else Some(v.f.pending[p])
  }

  predicate ListedAfter(v: Vault, e: Event, p: PeerId) {
    if (Joins(v, e) || Queues(v, e)) && e.frame.peer == p then true
    else p in v.connected && !(Kicks(v, e) && e.target == p) && !(Departs(v, e) && e.peer == p) && !e.TornDown?
  }

  function SocketAfter(v: Vault, e: Event, p: PeerId): Option<Socket> {
    if (Joins(v, e) || Queues(v, e)) && e.frame.peer == p then Some(e.ws)
    else if p !in v.sockets || ((Rejects(v, e) || Kicks(v, e)) && e.target == p) || (Departs(v, e) && e.peer == p)
            || (e.TornDown? && p in v.connected)
    then None
    else Some(v.sockets[p])
  }

  function Lookup<V>(m: map<PeerId, V>, p: PeerId): Option<V> { if p in m then Some(m[p]) else None }

  /** The event changes who is counted, so emptiness is marked anew. */
  predicate Counts(v: Vault, e: Event) {
    Joins(v, e) || Accepts(v, e) || Kicks(v, e) || (v.stored && Departs(v, e))
  }

  // ----- one admission ------------------------------------------------------------------------------

  lemma LeftBehind(v: Vault, at: int)
    ensures Reclaim(v, at).f.peers.Keys == Remaining(v, at) && |Reclaim(v, at).f.peers| == |Remaining(v, at)|
    ensures Reclaim(v, at) == v.(f := v.f.(peers := Reclaim(v, at).f.peers))
    ensures forall p :: p in Remaining(v, at) ==> Reclaim(v, at).f.peers[p] == v.f.peers[p]
  {
    var left := Reclaim(v, at).f.peers;
    assert left.Keys == Remaining(v, at);
    KeysSize(left);
  }

  /** What an admission leaves, when no slot is stale. */
  ghost predicate Admitted(v: Vault, v2: Vault, p: PeerId, draw: Token, at: int) {
    && v2.f.peers == v.f.peers[p := Peer(at, at, if p in v.f.peers then v.f.peers[p].token else draw)]
    && v2.f.pending == v.f.pending && v2.f.hostId == v.f.hostId && v2.stored == v.stored
    && v2.f.isGroup == (v.f.isGroup || |Present(v2)| > 2) && v2.f.status.Active? && v2.f.participantCount == |Present(v2)|
    && v2.f.emptySince == (if |Present(v2)| > 0 then None else if v.f.emptySince.Some? then v.f.emptySince else Some(at))
    && Rest(v, v2)
  }

  /** What no event changes. */
  predicate Rest(v: Vault, v2: Vault) {
    && v2.f.createdAt == v.f.createdAt && v2.f.expiresAt == v.f.expiresAt && v2.f.lastActivityAt == v.f.lastActivityAt
    && v2.f.hostRecoveryToken == v.f.hostRecoveryToken && v2.f.hostPublicKey == v.f.hostPublicKey
    && v2.f.maxPeers == v.f.maxPeers
  }

  lemma AdmitExactly(v: Vault, p: PeerId, draw: Token, at: int)
    requires HasRoom(Reclaim(v, at), p)
    ensures var (v2, token) := Admit(v, p, draw, at);
            Admitted(Reclaim(v, at), v2, p, draw, at) && v2.connected == v.connected && v2.sockets == v.sockets
  {
    var v1 := Reclaim(v, at);
    var token := if p in v1.f.peers then v1.f.peers[p].token else draw;
    var v2 := v1.(f := v1.f.(peers := v1.f.peers[p := Peer(at, at, token)]));
    assert Present(Admit(v, p, draw, at).0) == Present(v2);
  }

  lemma EnterExactly(v: Vault, p: PeerId, ws: Socket, draw: Token, at: int)
    requires Stale(v, at) == {} && HasRoom(v, p)
    ensures var v2 := Enter(v, p, ws, draw, at).0;
            Admitted(v, v2, p, draw, at) && v2.connected == v.connected + {p} && v2.sockets == v.sockets[p := ws]
  {
    var v1 := Register(v, p, ws);
    assert StaleIds(v1.f.peers, v1.connected, v1.f.hostId, at) == {};
    assert Reclaim(v1, at).f.peers == v.f.peers;
    AdmitExactly(v1, p, draw, at);
  }

  // ----- a join ---------------------------------------------------------------------------------------

  /** Which way a join takes, told from before it. */
  lemma JoinsWay(v: Vault, e: Event)
    requires e.JoinRequest? && v.stored && ValidPeerId(e.frame.peer)
    ensures var v1 := Reclaim(v, e.at);
            var way := WayIn(v1, e.frame, e.open);
            && (way.EntersAsHost? <==> Joins(v, e) && Recovers(v, e.frame))
            && (way.Enters? <==> Joins(v, e) && !Recovers(v, e.frame))
            && (way.Knocks? && SocketOpen(v1, v.f.hostId, e.open) && (e.frame.peer in v.f.pending || |v.f.pending| < 10) <==> Queues(v, e))
            && (Room(v, e.frame.peer, e.at) <==> HasRoom(v1, e.frame.peer))
  {
    LeftBehind(v, e.at);
  }

  /** The whole outcome of a join under `e.frame.peer`, from the reclaimed session. */
  ghost predicate JoinLeaves(v: Vault, v1: Vault, v2: Vault, e: Event)
    requires e.JoinRequest?
  {
    var p := e.frame.peer;
    if Joins(v, e) then
      var v0 := if Recovers(v, e.frame) then v1.(f := v1.f.(peers := v1.f.peers - ({v.f.hostId} - {p}), hostId := p)) else v1;
      Admitted(v0, v2, p, e.draw, e.at) && v2.connected == v.connected + {p} && v2.sockets == v.sockets[p := e.ws]
    else if Queues(v, e) then
      v2 == Register(if p in v.f.pending then v1 else v1.(f := v1.f.(pending := v.f.pending[p := e.at])), p, e.ws)
    else v2 == v1
  }

  lemma JoinOutcome(v: Vault, e: Event)
    requires e.JoinRequest? && v.stored && ValidPeerId(e.frame.peer)
    ensures JoinLeaves(v, Reclaim(v, e.at), Step(v, e), e)
  {
    var v1, j := Reclaim(v, e.at), e.frame;
    JoinsWay(v, e);
    ReclaimedIsFresh(v, e.at);
    match WayIn(v1, j, e.open)
    case TurnedAway(reply) =>
    case EntersAsHost =>
      AsHostIsFresh(v1, j.peer, e.at);
      AsHostKeeps(v1, j.peer);
      EnterExactly(AsHost(v1, j.peer), j.peer, e.ws, e.draw, e.at);
      HostOut(v1, j.peer);
    case Enters => EnterExactly(v1, j.peer, e.ws, e.draw, e.at);
    case Knocks =>
  }

  lemma HostOut(v: Vault, p: PeerId)
    ensures AsHost(v, p) == v.(f := v.f.(peers := v.f.peers - ({v.f.hostId} - {p}), hostId := p))
  {
    if v.f.hostId == p {
      assert {v.f.hostId} - {p} == {};
      assert v.f.peers - {} == v.f.peers;
    } else {
      assert {v.f.hostId} - {p} == {v.f.hostId};
    }
  }

  /** The members after a join that came in, from those that remained before it. */
  lemma JoinedPeers(v: Vault, e: Event)
    requires Joins(v, e)
    ensures var left, q := Reclaim(v, e.at).f.peers, e.frame.peer;
            var kept := if Recovers(v, e.frame) then left - ({v.f.hostId} - {q}) else left;
            Step(v, e).f.peers == kept[q := Peer(e.at, e.at, if q in left then left[q].token else e.draw)]
  {
    JoinOutcome(v, e);
  }

  lemma JoinedMember(v: Vault, e: Event, p: PeerId)
    requires Joins(v, e)
    ensures Lookup(Step(v, e).f.peers, p) == MemberAfter(v, e, p)
  {
    JoinedPeers(v, e);
    LeftBehind(v, e.at);
    if p != e.frame.peer { StaysOrGoes(v, e, p); }
  }

  /** Whoever does not come with a join remains exactly if it neither lapsed nor was displaced. */
  lemma StaysOrGoes(v: Vault, e: Event, p: PeerId)
    requires Joins(v, e) && p != e.frame.peer
    ensures !Comes(v, e, p)
    ensures p in v.f.peers && !Goes(v, e, p) <==> p in Remaining(v, e.at) && !(Recovers(v, e.frame) && p == v.f.hostId)
  {
  }

  lemma UnjoinedMember(v: Vault, e: Event, p: PeerId)
    requires e.JoinRequest? && v.stored && ValidPeerId(e.frame.peer) && !Joins(v, e)
    ensures Lookup(Step(v, e).f.peers, p) == MemberAfter(v, e, p)
  {
    JoinOutcome(v, e);
    LeftBehind(v, e.at);
    assert Step(v, e).f.peers == Reclaim(v, e.at).f.peers;
    assert p in Reclaim(v, e.at).f.peers <==> p in v.f.peers && !Lapsed(v, p, e.at);
  }

  lemma JoinWaiting(v: Vault, e: Event, p: PeerId)
    requires e.JoinRequest? && v.stored && ValidPeerId(e.frame.peer)
    ensures Lookup(Step(v, e).f.pending, p) == WaitingAfter(v, e, p)
  {
    JoinOutcome(v, e);
    LeftBehind(v, e.at);
  }

  lemma JoinConnected(v: Vault, e: Event)
    requires e.JoinRequest? && v.stored && ValidPeerId(e.frame.peer)
    ensures var comes := Joins(v, e) || Queues(v, e);
            && Step(v, e).connected == (if comes then v.connected + {e.frame.peer} else v.connected)
            && Step(v, e).sockets == (if comes then v.sockets[e.frame.peer := e.ws] else v.sockets)
  {
    JoinOutcome(v, e);
    LeftBehind(v, e.at);
  }

  lemma JoinSockets(v: Vault, e: Event, p: PeerId)
    requires e.JoinRequest? && v.stored && ValidPeerId(e.frame.peer)
    ensures p in Step(v, e).connected <==> ListedAfter(v, e, p)
    ensures Lookup(Step(v, e).sockets, p) == SocketAfter(v, e, p)
  {
    JoinConnected(v, e);
  }

  // ----- an acceptance ----------------------------------------------------------------------------------

  lemma AcceptOutcome(v: Vault, e: Event)
    requires e.AcceptJoin?
    ensures Answers(v, e.caller, e.target) ==>
              (Accepts(v, e) <==> HasRoom(Reclaim(v, e.at), e.target))
    ensures !Answers(v, e.caller, e.target) ==> Step(v, e) == v
    ensures Answers(v, e.caller, e.target) && !Accepts(v, e) ==> Step(v, e) == Reclaim(v, e.at)
    ensures Accepts(v, e) ==>
              var v2 := Admit(v, e.target, e.draw, e.at).0;
              && Admitted(Reclaim(v, e.at), v2, e.target, e.draw, e.at)
              && Step(v, e) == v2.(f := v2.f.(pending := v.f.pending - {e.target}))
              && v2.connected == v.connected && v2.sockets == v.sockets
  {
    LeftBehind(v, e.at);
    if Answers(v, e.caller, e.target) && HasRoom(Reclaim(v, e.at), e.target) { AdmitExactly(v, e.target, e.draw, e.at); }
  }

  /** The members after an acceptance, from those that remained before it. */
  lemma AcceptedPeers(v: Vault, e: Event)
    requires e.AcceptJoin?
    ensures var left, q := Reclaim(v, e.at).f.peers, e.target;
            Step(v, e).f.peers
              == if Accepts(v, e) then left[q := Peer(e.at, e.at, if q in left then left[q].token else e.draw)]
                 else if Answers(v, e.caller, q) then left else v.f.peers
  {
    AcceptOutcome(v, e);
  }

  lemma AcceptMember(v: Vault, e: Event, p: PeerId)
    requires e.AcceptJoin?
    ensures Lookup(Step(v, e).f.peers, p) == MemberAfter(v, e, p)
  {
    AcceptedPeers(v, e);
    LeftBehind(v, e.at);
    assert p in Reclaim(v, e.at).f.peers <==> p in v.f.peers && !Lapsed(v, p, e.at);
  }

  /** What an acceptance leaves of the queue and the sockets. */
  lemma AcceptedRest(v: Vault, e: Event)
    requires e.AcceptJoin?
    ensures Step(v, e).f.pending == if Accepts(v, e) then v.f.pending - {e.target} else v.f.pending
    ensures Step(v, e).connected == v.connected && Step(v, e).sockets == v.sockets
    ensures Step(v, e).stored == v.stored && Step(v, e).f.hostId == v.f.hostId
  {
    AcceptOutcome(v, e);
    LeftBehind(v, e.at);
  }

  lemma AcceptRest(v: Vault, e: Event, p: PeerId)
    requires e.AcceptJoin?
    ensures Lookup(Step(v, e).f.pending, p) == WaitingAfter(v, e, p)
    ensures p in Step(v, e).connected <==> ListedAfter(v, e, p)
    ensures Lookup(Step(v, e).sockets, p) == SocketAfter(v, e, p)
  {
    AcceptedRest(v, e);
  }

  // ----- every event --------------------------------------------------------------------------------------

  lemma OtherMembers(v: Vault, e: Event, p: PeerId)
    requires e.RejectJoin? || e.KickPeer? || e.Closed? || e.TornDown?
    ensures Lookup(Step(v, e).f.peers, p) == MemberAfter(v, e, p)
  {
  }

  lemma OtherWaiting(v: Vault, e: Event, p: PeerId)
    requires e.RejectJoin? || e.KickPeer? || e.Closed? || e.TornDown?
    ensures Lookup(Step(v, e).f.pending, p) == WaitingAfter(v, e, p)
  {
  }

  /** A frame that names no valid session or peer. */
  lemma JoinUnheard(v: Vault, e: Event, p: PeerId)
    requires e.JoinRequest? && !(v.stored && ValidPeerId(e.frame.peer))
    ensures Step(v, e) == v && MemberAfter(v, e, p) == Lookup(v.f.peers, p) && WaitingAfter(v, e, p) == Lookup(v.f.pending, p)
  {
  }

  /**
   After any event `p` is a member, under which record, exactly as told; and
   waits since when, exactly as told.
   */
  lemma StepMembers(v: Vault, e: Event, p: PeerId)
    ensures Lookup(Step(v, e).f.peers, p) == MemberAfter(v, e, p)
    ensures Lookup(Step(v, e).f.pending, p) == WaitingAfter(v, e, p)
  {
    if e.AcceptJoin? {
      AcceptMember(v, e, p);
      AcceptRest(v, e, p);
    } else if !e.JoinRequest? {
      OtherMembers(v, e, p);
      OtherWaiting(v, e, p);
    } else if v.stored && ValidPeerId(e.frame.peer) {
      if Joins(v, e) { JoinedMember(v, e, p); } else { UnjoinedMember(v, e, p); }
      JoinWaiting(v, e, p);
    } else {
      JoinUnheard(v, e, p);
    }
  }

  lemma OtherSockets(v: Vault, e: Event, p: PeerId)
    requires e.RejectJoin? || e.KickPeer? || e.Closed? || e.TornDown?
    ensures p in Step(v, e).connected <==> ListedAfter(v, e, p)
    ensures Lookup(Step(v, e).sockets, p) == SocketAfter(v, e, p)
  {
  }

  /** The same of the presence set and of the registered socket. */
  lemma StepSockets(v: Vault, e: Event, p: PeerId)
    ensures p in Step(v, e).connected <==> ListedAfter(v, e, p)
    ensures Lookup(Step(v, e).sockets, p) == SocketAfter(v, e, p)
  {
    if e.AcceptJoin? {
      AcceptRest(v, e, p);
    } else if !e.JoinRequest? {
      OtherSockets(v, e, p);
    } else if v.stored && ValidPeerId(e.frame.peer) {
      JoinSockets(v, e, p);
    } else {
      JoinUnheard(v, e, p);
    }
  }

  /** The session's own fields after the event, as they should be. */
  predicate SessionAfter(v: Vault, e: Event, v2: Vault) {
    && v2.stored == (v.stored && !e.TornDown?) && Rest(v, v2)
    && v2.f.hostId == (if Joins(v, e) && Recovers(v, e.frame) then e.frame.peer else v.f.hostId)
    && (v2.f.isGroup <==> v.f.isGroup || ((Joins(v, e) || Accepts(v, e)) && |Present(v2)| > 2))
    && (v2.f.status.Active? <==> v.f.status.Active? || Joins(v, e) || Accepts(v, e))
    && (if !Counts(v, e) then v2.f.participantCount == v.f.participantCount && v2.f.emptySince == v.f.emptySince
        else && v2.f.participantCount == |Present(v2)|
             && v2.f.emptySince == (if |Present(v2)| > 0 then None
                                    else if v.f.emptySince.Some? then v.f.emptySince else Some(e.at)))
  }

  lemma JoinSession(v: Vault, e: Event)
    requires e.JoinRequest? && v.stored && ValidPeerId(e.frame.peer)
    ensures SessionAfter(v, e, Step(v, e))
  {
    JoinOutcome(v, e);
    LeftBehind(v, e.at);
  }

  lemma AcceptSession(v: Vault, e: Event)
    requires e.AcceptJoin?
    ensures SessionAfter(v, e, Step(v, e))
  {
    AcceptOutcome(v, e);
    LeftBehind(v, e.at);
    if Accepts(v, e) { assert Present(Step(v, e)) == Present(Admit(v, e.target, e.draw, e.at).0); }
  }

  lemma OtherSession(v: Vault, e: Event)
    requires e.RejectJoin? || e.KickPeer? || e.Closed? || e.TornDown?
    ensures SessionAfter(v, e, Step(v, e))
  {
    if Kicks(v, e) {
      var v1 := v.(f := v.f.(peers := v.f.peers - {e.target}), connected := v.connected - {e.target});
      assert Present(Step(v, e)) == Present(v1);
    } else if v.stored && Departs(v, e) {
      ClosedSession(v, e.ws, e.peer, e.at);
    }
  }

  /**
   And of the session itself: the host's role, the mark of a group, the first
   admission, the count, and since when the session has been empty.
   */
  lemma StepSession(v: Vault, e: Event)
    ensures SessionAfter(v, e, Step(v, e))
  {
    if e.AcceptJoin? {
      AcceptSession(v, e);
    } else if !e.JoinRequest? {
      OtherSession(v, e);
    } else if v.stored && ValidPeerId(e.frame.peer) {
      JoinSession(v, e);
    } else {
      JoinUnheard(v, e, "");
    }
  }

  lemma ClosedSession(v: Vault, ws: Socket, p: PeerId, at: int)
    requires v.stored && p in v.sockets && v.sockets[p] == ws
    ensures var v2 := Close(v, ws, p, at);
            v2.f.participantCount == |Present(v2)|
            && v2.f.emptySince == if |Present(v2)| > 0 then None else if v.f.emptySince.Some? then v.f.emptySince else Some(at)
  {
    var peers := if p in v.f.peers then v.f.peers[p := v.f.peers[p].(lastSeenAt := at)] else v.f.peers;
    var v1 := v.(sockets := v.sockets - {p}, connected := v.connected - {p},
                 f := v.f.(pending := v.f.pending - {p}, peers := peers));
    assert Close(v, ws, p, at) == Sync(v1, at);
    assert Present(Close(v, ws, p, at)) == Present(v1);
  }

  // ----- the answers ----------------------------------------------------------------------------------------

  /** What a join is answered, by what could be looked up before it. */
  predicate AnsweredWith(v: Vault, e: Event, reply: Reply)
    requires e.JoinRequest?
  {
    var j := e.frame;
    var stranger := !Recovers(v, j) && j.peer != v.f.hostId && !Taken(v, j.peer, e.at);
    var presents := !j.membership.NoCredential? && v.f.hostPublicKey.Some?;
    if !ValidPeerId(j.peer) then reply == InvalidFrame
    else if !v.stored then reply == NotFound
    else if !Room(v, j.peer, e.at) then reply == SessionFull
    else if Joins(v, e) then reply == Joined(if j.peer in Remaining(v, e.at) then v.f.peers[j.peer].token else e.draw)
    else if j.peer == v.f.hostId then reply == BadHost
    else if !stranger then reply == BadToken
    else if presents then reply == BadMembership(j.membership)
    else if Queues(v, e) then reply == AwaitHost
    else reply == if Online(v, v.f.hostId, e.open) then TooManyPending else HostOffline
  }

  lemma JoinedReply(v: Vault, e: Event)
    requires Joins(v, e)
    ensures Join(v, e.frame, e.ws, e.open, e.draw, e.at).1
         == Joined(if e.frame.peer in Remaining(v, e.at) then v.f.peers[e.frame.peer].token else e.draw)
  {
    JoinsIsAnswered(v, e.frame, e.ws, e.open, e.draw, e.at);
    JoinedExactly(v, e.frame, e.ws, e.open, e.draw, e.at);
    StepMembers(v, e, e.frame.peer);
  }

  /** Every join is answered, and with which of the ten answers is told from before it. */
  lemma JoinAnswers(v: Vault, e: Event)
    requires e.JoinRequest?
    ensures AnsweredWith(v, e, Join(v, e.frame, e.ws, e.open, e.draw, e.at).1)
  {
    if v.stored && ValidPeerId(e.frame.peer) {
      JoinsWay(v, e);
      LeftBehind(v, e.at);
      if Joins(v, e) { JoinedReply(v, e); }
    }
  }

  /** The host's acceptance is answered with the guest's token, or that there is no room; any other is not answered. */
  lemma AcceptAnswers(v: Vault, e: Event)
    requires e.AcceptJoin?
    ensures Accept(v, e.caller, e.target, e.draw, e.at).1
         == if Accepts(v, e) then Joined(if e.target in Remaining(v, e.at) then v.f.peers[e.target].token else e.draw)
            else if Answers(v, e.caller, e.target) then PeerLimit
            else Silent
  {
    AcceptOutcome(v, e);
    LeftBehind(v, e.at);
  }

  // ----- a kick ---------------------------------------------------------------------------------------------

  /** A join is answered "joined" exactly if it is one that makes its name a member. */
  lemma JoinsIsAnswered(v: Vault, j: JoinFrame, ws: Socket, open: set<Socket>, draw: Token, now: int)
    ensures Join(v, j, ws, open, draw, now).1.Joined? <==> Joins(v, JoinRequest(j, ws, open, draw, now))
  {
    JoinedExactly(v, j, ws, open, draw, now);
    if v.stored && ValidPeerId(j.peer) {
      JoinsWay(v, JoinRequest(j, ws, open, draw, now));
      LeftBehind(v, now);
    }
  }

  /** The host lets the name in again, or it shows the recovery token or a membership. */
  predicate Returns(v: Vault, e: Event, p: PeerId) {
    match e
    case JoinRequest(j, _, _, _, at) =>
      && j.peer == p && v.stored && ValidPeerId(p) && Room(v, p, at)
      && (Recovers(v, j) || (p != v.f.hostId && j.membership.Vouched? && v.f.hostPublicKey.Some?))
    case AcceptJoin(caller, target, _, at) =>
      target == p && v.stored && caller == v.f.hostId && ValidPeerId(p) && p in v.f.pending && Room(v, p, at)
    case _ => false
  }

  predicate Out(v: Vault, p: PeerId) { p !in v.f.peers }

  function OutOf(p: PeerId): Vault -> bool { (v: Vault) => Out(v, p) }

  function ReturnOf(p: PeerId): (Vault, Event) -> bool { (v: Vault, e: Event) => Returns(v, e, p) }

  lemma StaysOutStep(v: Vault, e: Event, p: PeerId)
    requires Out(v, p) && p !in InheritedNames
    ensures Out(Step(v, e), p) <==> !Returns(v, e, p)
  {
    StepMembers(v, e, p);
  }

  /**
   The host of a group kicks `p`. At once `p` is no member, is not listed and has
   no socket; and throughout any run that follows it is no member, if and only if
   nowhere in the run does the host accept a new request of `p`, or `p` show the
   recovery token or a membership. Its old token is of no use.
   */
  lemma KickedStaysOutExactly(v: Vault, p: PeerId, at: int, es: seq<Event>)
    requires v.stored && v.f.isGroup && p in v.f.peers && p != v.f.hostId && ValidPeerId(p)
    ensures var v2 := Step(v, KickPeer(v.f.hostId, p, at));
            && p !in v2.f.peers && p !in v2.connected && p !in v2.sockets
            && (p !in InheritedNames ==> (Always(OutOf(p), v2, es) <==> Never(ReturnOf(p), v2, es)))
  {
    var e := KickPeer(v.f.hostId, p, at);
    StepMembers(v, e, p);
    StepSockets(v, e, p);
    if p !in InheritedNames {
      forall w, f | OutOf(p)(w) ensures OutOf(p)(Step(w, f)) <==> !ReturnOf(p)(w, f) { StaysOutStep(w, f, p); }
      ExactOverRuns((w: Vault) => true, OutOf(p), ReturnOf(p), Step(v, e), es);
    }
  }

  /** Right after the kick a join under `p` is answered "joined" only to the recovery token or a membership. */
  lemma KickedMustProve(v: Vault, p: PeerId, at: int, j: JoinFrame, ws: Socket, open: set<Socket>, draw: Token, now: int)
    requires v.stored && v.f.isGroup && p in v.f.peers && p != v.f.hostId && ValidPeerId(p) && p !in InheritedNames
    requires j.peer == p
    ensures var v2 := Step(v, KickPeer(v.f.hostId, p, at));
            (Join(v2, j, ws, open, draw, now).1.Joined?
             <==> Room(v2, p, now) && (Recovers(v2, j) || (j.membership.Vouched? && v.f.hostPublicKey.Some?)))
  {
    var e := KickPeer(v.f.hostId, p, at);
    StepMembers(v, e, p);
    StepSession(v, e);
    JoinsIsAnswered(Step(v, e), j, ws, open, draw, now);
  }

  // ----- the grace period --------------------------------------------------------------------------------------

  /** A member without a connection since `t`, other than the host. */
  predicate Dormant(v: Vault, p: PeerId, t: int, token: Token) {
    && v.stored && p in v.f.peers && p != v.f.hostId && p !in v.connected
    && v.f.peers[p].lastSeenAt == t && v.f.peers[p].token == token
  }

  /**
   What ends it: a valid join under its name, or, 30 seconds on, anything that
   makes the relay look for lapsed members; a kick; the end of the session. An
   acceptance of its name starts the period anew.
   */
  predicate Wakes(v: Vault, e: Event, p: PeerId, t: int) {
    match e
    case JoinRequest(j, _, _, _, at) => ValidPeerId(j.peer) && (j.peer == p || t + 30000 <= at)
    case AcceptJoin(caller, target, _, at) => Answers(v, caller, target) && (t + 30000 <= at || (target == p && at != t))
    case KickPeer(_, target, _) => Kicks(v, e) && target == p
    case TornDown(_) => true
    case _ => false
  }

  function DormantAs(p: PeerId, t: int, token: Token): Vault -> bool { (v: Vault) => Dormant(v, p, t, token) }

  function WakeOf(p: PeerId, t: int): (Vault, Event) -> bool { (v: Vault, e: Event) => Wakes(v, e, p, t) }

  /** Within the period the slot is there and no socket holds the name: any valid join under it comes in. */
  lemma DormantComesBack(v: Vault, e: Event, p: PeerId, t: int, token: Token)
    requires Inv(v) && Dormant(v, p, t, token) && e.JoinRequest? && e.frame.peer == p && ValidPeerId(p) && e.at < t + 30000
    ensures Joins(v, e)
  {
  }

  /** A join under another name: the slot goes exactly when the period is over. */
  lemma DormantOtherJoin(v: Vault, e: Event, p: PeerId, t: int, token: Token)
    requires Dormant(v, p, t, token) && e.JoinRequest? && e.frame.peer != p && ValidPeerId(e.frame.peer)
    ensures Dormant(Step(v, e), p, t, token) <==> e.at < t + 30000
  {
    StepMembers(v, e, p);
    JoinConnected(v, e);
    JoinSession(v, e);
    assert MemberAfter(v, e, p) == if t + 30000 <= e.at then None else Some(v.f.peers[p]);
  }

  lemma DormantJoin(v: Vault, e: Event, p: PeerId, t: int, token: Token)
    requires Inv(v) && Dormant(v, p, t, token) && e.JoinRequest?
    ensures Dormant(Step(v, e), p, t, token) <==> !Wakes(v, e, p, t)
  {
    if !ValidPeerId(e.frame.peer) {
      JoinUnheard(v, e, p);
    } else if e.frame.peer != p {
      DormantOtherJoin(v, e, p, t, token);
    } else if e.at < t + 30000 {
      DormantComesBack(v, e, p, t, token);
      JoinConnected(v, e);
    } else {
      StepMembers(v, e, p);
    }
  }

  lemma DormantAccept(v: Vault, e: Event, p: PeerId, t: int, token: Token)
    requires Inv(v) && Dormant(v, p, t, token) && e.AcceptJoin?
    ensures Dormant(Step(v, e), p, t, token) <==> !Wakes(v, e, p, t)
  {
    AcceptMember(v, e, p);
    AcceptedRest(v, e);
    assert p in Remaining(v, e.at) <==> e.at < t + 30000;
  }

  lemma DormantStep(v: Vault, e: Event, p: PeerId, t: int, token: Token)
    requires Inv(v) && Dormant(v, p, t, token)
    ensures Dormant(Step(v, e), p, t, token) <==> !Wakes(v, e, p, t)
  {
    if e.JoinRequest? {
      DormantJoin(v, e, p, t, token);
    } else if e.AcceptJoin? {
      DormantAccept(v, e, p, t, token);
    } else {
      StepMembers(v, e, p);
      StepSockets(v, e, p);
      StepSession(v, e);
    }
  }

  /**
   The grace period over runs. When the registered socket of a member other than
   the host closes at `t`, its slot and its token stay as they are, if and only if
   none of the events told above comes.
   */
  lemma GraceExactly(v: Vault, ws: Socket, p: PeerId, t: int, es: seq<Event>)
    requires Inv(v) && v.stored && p in v.f.peers && p != v.f.hostId && p in v.sockets && v.sockets[p] == ws
    ensures var v2 := Step(v, Closed(ws, p, t));
            && Dormant(v2, p, t, v.f.peers[p].token)
            && (Always(DormantAs(p, t, v.f.peers[p].token), v2, es) <==> Never(WakeOf(p, t), v2, es))
  {
    var e, token := Closed(ws, p, t), v.f.peers[p].token;
    StepMembers(v, e, p);
    StepSockets(v, e, p);
    StepSession(v, e);
    StepKeeps(v, e);
    forall w, f | Inv(w) ensures Inv(Step(w, f)) { StepKeeps(w, f); }
    forall w, f | Inv(w) && DormantAs(p, t, token)(w) ensures DormantAs(p, t, token)(Step(w, f)) <==> !WakeOf(p, t)(w, f) {
      DormantStep(w, f, p, t, token);
    }
    ExactOverRuns(Inv, DormantAs(p, t, token), WakeOf(p, t), Step(v, e), es);
  }

  /** How it ends by time: before 30 seconds are over a join gets slot and token back, after them anyone's join costs the slot. */
  lemma GraceEnds(v: Vault, p: PeerId, t: int, token: Token, j: JoinFrame, ws: Socket, open: set<Socket>, draw: Token, now: int)
    requires Inv(v) && Dormant(v, p, t, token) && ValidPeerId(j.peer)
    ensures j.peer == p && now < t + 30000 ==> Join(v, j, ws, open, draw, now).1 == Joined(token)
    ensures j.peer != p && t + 30000 <= now ==> p !in Join(v, j, ws, open, draw, now).0.f.peers
    ensures j.peer != p && now < t + 30000 ==> p in Join(v, j, ws, open, draw, now).0.f.peers
  {
    if j.peer == p {
      if now < t + 30000 { DormantAnswered(v, p, t, token, j, ws, open, draw, now); }
    } else {
      DormantPassedBy(v, p, t, token, j, ws, open, draw, now);
    }
  }

  lemma DormantAnswered(v: Vault, p: PeerId, t: int, token: Token, j: JoinFrame, ws: Socket, open: set<Socket>, draw: Token, now: int)
    requires Inv(v) && Dormant(v, p, t, token) && ValidPeerId(p) && j.peer == p && now < t + 30000
    ensures Join(v, j, ws, open, draw, now).1 == Joined(token)
  {
    DormantComesBack(v, JoinRequest(j, ws, open, draw, now), p, t, token);
    JoinsIsAnswered(v, j, ws, open, draw, now);
    JoinedExactly(v, j, ws, open, draw, now);
    LeftBehind(v, now);
    assert p in Remaining(v, now);
  }

  lemma DormantPassedBy(v: Vault, p: PeerId, t: int, token: Token, j: JoinFrame, ws: Socket, open: set<Socket>, draw: Token, now: int)
    requires Inv(v) && Dormant(v, p, t, token) && ValidPeerId(j.peer) && j.peer != p
    ensures p in Join(v, j, ws, open, draw, now).0.f.peers <==> now < t + 30000
  {
    StepMembers(v, JoinRequest(j, ws, open, draw, now), p);
  }

  // ----- the queue -------------------------------------------------------------------------------------------------

  predicate Waits(v: Vault, p: PeerId, since: int) { p in v.f.pending && v.f.pending[p] == since }

  /** An acceptance for which there is room, a rejection by the host, the close of the guest's own socket. */
  predicate Dequeues(v: Vault, e: Event, p: PeerId) {
    ((Accepts(v, e) || Rejects(v, e)) && e.target == p) || (v.stored && Departs(v, e) && e.peer == p)
  }

  function WaitOf(p: PeerId, since: int): Vault -> bool { (v: Vault) => Waits(v, p, since) }

  function DequeueOf(p: PeerId): (Vault, Event) -> bool { (v: Vault, e: Event) => Dequeues(v, e, p) }

  /** A guest waits, since when it first asked, until one of those three comes; asking again or joining otherwise is none. */
  lemma WaitsExactly(v: Vault, p: PeerId, since: int, es: seq<Event>)
    requires Waits(v, p, since)
    ensures Always(WaitOf(p, since), v, es) <==> Never(DequeueOf(p), v, es)
  {
    forall w, f | WaitOf(p, since)(w) ensures WaitOf(p, since)(Step(w, f)) <==> !DequeueOf(p)(w, f) { StepMembers(w, f, p); }
    ExactOverRuns((w: Vault) => true, WaitOf(p, since), DequeueOf(p), v, es);
  }
}
