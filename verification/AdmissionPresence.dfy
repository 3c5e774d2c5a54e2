/** Whether the peers a session counts as present still have a socket. */
module AdmissionPresence {
  import opened Common
  import opened Sessions
  import opened Admission
  import opened AdmissionProof
  import opened AdmissionAuthority

  /** A waiting guest that is listed has its socket. */
  predicate WaitingBacked(v: Vault) {
    forall p :: p in v.f.pending && p in v.connected ==> p in v.sockets
  }

  predicate InvB(v: Vault) { Inv(v) && WaitingBacked(v) }

  lemma EnterWaiting(v: Vault, p: PeerId, ws: Socket, draw: Token, now: int)
    requires WaitingBacked(v)
    ensures WaitingBacked(Enter(v, p, ws, draw, now).0)
  {
    assert WaitingBacked(Register(v, p, ws));
  }

  lemma DecideWaiting(v: Vault, j: JoinFrame, ws: Socket, open: set<Socket>, draw: Token, now: int)
    requires WaitingBacked(v)
    ensures WaitingBacked(Decide(v, j, ws, open, draw, now).0)
  {
    match WayIn(v, j, open)
    case TurnedAway(reply) =>
    case EntersAsHost => EnterWaiting(AsHost(v, j.peer), j.peer, ws, draw, now);
    case Enters => EnterWaiting(v, j.peer, ws, draw, now);
    case Knocks =>
  }

  lemma StepWaiting(v: Vault, e: Event)
    requires WaitingBacked(v)
    ensures WaitingBacked(Step(v, e))
  {
    match e
    case JoinRequest(j, ws, open, draw, at) => DecideWaiting(Reclaim(v, at), j, ws, open, draw, at);
    case AcceptJoin(caller, target, draw, at) =>
    case RejectJoin(caller, target, _) =>
    case KickPeer(caller, target, at) =>
    case Closed(ws, p, at) =>
    case TornDown(_) =>
  }

  // ----- the presence set and the sockets ----------------------------------------------------------

  predicate Listed(v: Vault) { v.connected == v.sockets.Keys }

  lemma EnterListed(v: Vault, p: PeerId, ws: Socket, draw: Token, now: int)
    requires Listed(v)
    ensures Listed(Enter(v, p, ws, draw, now).0)
  {
    assert Listed(Register(v, p, ws));
  }

  lemma KnockListed(v: Vault, p: PeerId, ws: Socket, open: set<Socket>, now: int)
    requires Listed(v)
    ensures Listed(Knock(v, p, ws, open, now).0)
  {
  }

  lemma DecideListed(v: Vault, j: JoinFrame, ws: Socket, open: set<Socket>, draw: Token, now: int)
    requires Listed(v)
    ensures Listed(Decide(v, j, ws, open, draw, now).0)
  {
    match WayIn(v, j, open)
    case TurnedAway(reply) =>
    case EntersAsHost => EnterListed(AsHost(v, j.peer), j.peer, ws, draw, now);
    case Enters => EnterListed(v, j.peer, ws, draw, now);
    case Knocks => KnockListed(v, j.peer, ws, open, now);
  }

  /** The host's rejection takes the target's registered socket away and leaves its id in the presence set. */
  predicate LeavesPhantom(v: Vault, e: Event) {
    && e.RejectJoin? && v.stored && e.caller == v.f.hostId
    && ValidPeerId(e.target) && Found(v.f.pending, e.target) && e.target in v.sockets
  }

  lemma StepListed(v: Vault, e: Event)
    requires Listed(v)
    ensures Listed(Step(v, e)) <==> !LeavesPhantom(v, e)
  {
    match e
    case JoinRequest(j, ws, open, draw, at) => DecideListed(Reclaim(v, at), j, ws, open, draw, at);
    case AcceptJoin(caller, target, draw, at) =>
    case RejectJoin(caller, target, _) =>
      if LeavesPhantom(v, e) { assert target in v.connected && target !in Step(v, e).sockets.Keys; }
    case KickPeer(caller, target, at) =>
    case Closed(ws, p, at) =>
    case TornDown(_) =>
  }

  /** Over a run the presence set is the set of registered sockets, if and only if no rejection takes a socket away. */
  lemma PresenceMatchesSockets(o: Options, hostId: PeerId, recovery: string, token: Token, now: int, es: seq<Event>)
    ensures var v := Opened(o, hostId, recovery, token, now);
            Always(Listed, v, es) <==> Never(LeavesPhantom, v, es)
  {
    var v := Opened(o, hostId, recovery, token, now);
    OpenedSound(o, hostId, recovery, token, now);
    forall w, e | Inv(w) ensures Inv(Step(w, e)) { StepKeeps(w, e); }
    forall w, e | Inv(w) && Listed(w) ensures Listed(Step(w, e)) <==> !LeavesPhantom(w, e) { StepListed(w, e); }
    ExactOverRuns(Inv, Listed, LeavesPhantom, v, es);
  }

  // ----- present members without a socket ------------------------------------------------------------

  /** Every member counted as present has a registered socket. */
  predicate Backed(v: Vault) { Present(v) <= v.sockets.Keys }

  /**
   The host rejects a member: one that still has a request pending, or one whose
   name is an inherited one. Or it accepts an inherited name that asked for
   nothing and of which only the id is left in the presence set.
   */
  predicate Orphans(v: Vault, e: Event) {
    v.stored &&
    match e
    case RejectJoin(caller, target, _) =>
      && caller == v.f.hostId && ValidPeerId(target) && Found(v.f.pending, target)
      && target in v.f.peers && target in v.sockets
    case AcceptJoin(caller, target, _, _) =>
      && caller == v.f.hostId && ValidPeerId(target) && target in InheritedNames && target !in v.f.pending
      && target in v.connected && target !in v.sockets
    case _ => false
  }

  lemma AdmitPresent(v: Vault, p: PeerId, draw: Token, now: int)
    ensures var v2 := Admit(v, p, draw, now).0;
            v2.connected == v.connected && v2.sockets == v.sockets
            && forall q :: q in v2.f.peers ==> q in v.f.peers || q == p
  {
  }

  lemma EnterBacked(v: Vault, p: PeerId, ws: Socket, draw: Token, now: int)
    requires Backed(v)
    ensures Backed(Enter(v, p, ws, draw, now).0)
  {
    AdmitPresent(Register(v, p, ws), p, draw, now);
    forall q | q in Present(Enter(v, p, ws, draw, now).0) && q != p ensures q in v.sockets {
      assert q in Present(v);
    }
  }

  lemma AsHostBacked(v: Vault, p: PeerId)
    requires Backed(v)
    ensures Backed(AsHost(v, p))
  {
    assert Present(AsHost(v, p)) <= Present(v);
  }

  lemma KnockBacked(v: Vault, p: PeerId, ws: Socket, open: set<Socket>, now: int)
    requires Backed(v)
    ensures Backed(Knock(v, p, ws, open, now).0)
  {
    assert Present(Knock(v, p, ws, open, now).0) <= Present(v) + {p};
  }

  lemma DecideBacked(v: Vault, j: JoinFrame, ws: Socket, open: set<Socket>, draw: Token, now: int)
    requires Backed(v)
    ensures Backed(Decide(v, j, ws, open, draw, now).0)
  {
    match WayIn(v, j, open)
    case TurnedAway(reply) =>
    case EntersAsHost =>
      AsHostBacked(v, j.peer);
      EnterBacked(AsHost(v, j.peer), j.peer, ws, draw, now);
    case Enters => EnterBacked(v, j.peer, ws, draw, now);
    case Knocks => KnockBacked(v, j.peer, ws, open, now);
  }

  lemma AcceptBacked(v: Vault, caller: PeerId, target: PeerId, draw: Token, now: int)
    requires InvB(v) && Backed(v)
    ensures Backed(Accept(v, caller, target, draw, now).0) <==> !Orphans(v, AcceptJoin(caller, target, draw, now))
  {
    var v2 := Accept(v, caller, target, draw, now).0;
    assert Present(v2) <= Present(v) + {target};
    if Orphans(v, AcceptJoin(caller, target, draw, now)) { assert target in Present(v2); }
  }

  /** A step leaves a present member without a socket exactly when it is one of those two. */
  lemma StepBacked(v: Vault, e: Event)
    requires InvB(v) && Backed(v)
    ensures Backed(Step(v, e)) <==> !Orphans(v, e)
  {
    match e
    case JoinRequest(j, ws, open, draw, at) =>
      assert Present(Reclaim(v, at)) <= Present(v);
      DecideBacked(Reclaim(v, at), j, ws, open, draw, at);
    case AcceptJoin(caller, target, draw, at) => AcceptBacked(v, caller, target, draw, at);
    case RejectJoin(caller, target, _) =>
      assert Present(Step(v, e)) == Present(v);
      if Orphans(v, e) { assert target in Present(v) && target !in Step(v, e).sockets; }
    case KickPeer(caller, target, at) => assert Present(Step(v, e)) <= Present(v);
    case Closed(ws, p, at) => assert Present(Step(v, e)) <= Present(v);
    case TornDown(_) =>
  }

  /** Over a run every present member has a socket, if and only if no event orphans one. */
  lemma MembersBackedExactly(o: Options, hostId: PeerId, recovery: string, token: Token, now: int, es: seq<Event>)
    ensures var v := Opened(o, hostId, recovery, token, now);
            Always(Backed, v, es) <==> Never(Orphans, v, es)
  {
    var v := Opened(o, hostId, recovery, token, now);
    OpenedSound(o, hostId, recovery, token, now);
    forall w, e | InvB(w) ensures InvB(Step(w, e)) { StepKeeps(w, e); StepWaiting(w, e); }
    forall w, e | InvB(w) && Backed(w) ensures Backed(Step(w, e)) <==> !Orphans(w, e) { StepBacked(w, e); }
    ExactOverRuns(InvB, Backed, Orphans, v, es);
  }

  // ----- how long an orphan stays ------------------------------------------------------------------

  /** A member that is counted as present and has no registered socket. */
  predicate Orphan(v: Vault, p: PeerId) { v.stored && p in Present(v) && p !in v.sockets }

  predicate JoinRescues(v: Vault, j: JoinFrame, p: PeerId) {
    var recovers := SafeEqual(j.hostRecovery, v.f.hostRecoveryToken);
    if j.peer == p then recovers || p != v.f.hostId else recovers && p == v.f.hostId && HasRoom(v, j.peer)
  }

  /**
   What ends it: a join under its name, which no open socket stops, unless it is
   the host's and the recovery token is missing; the host's role taken from it;
   a kick by the host of a group; the end of the session.
   */
  predicate Rescues(v: Vault, e: Event, p: PeerId) {
    match e
    case JoinRequest(j, _, _, _, at) => ValidPeerId(j.peer) && JoinRescues(Reclaim(v, at), j, p)
    case KickPeer(caller, target, _) =>
      target == p && caller == v.f.hostId && v.f.isGroup && p != v.f.hostId && ValidPeerId(p)
    case TornDown(_) => true
    case _ => false
  }

  /** Entering under another name leaves the orphan as it is, if it is still a member. */
  lemma EnterOrphan(v: Vault, q: PeerId, ws: Socket, draw: Token, now: int, p: PeerId)
    requires Stale(v, now) == {} && HasRoom(v, q) && v.stored && p in v.connected && p !in v.sockets
    ensures Orphan(Enter(v, q, ws, draw, now).0, p) <==> p != q && p in v.f.peers
  {
    EnterPeers(v, q, ws, draw, now);
    EnterSocket(v, q, ws, draw, now);
  }

  lemma HostEntryOrphan(v: Vault, q: PeerId, ws: Socket, draw: Token, now: int, p: PeerId)
    requires Orphan(v, p) && Stale(v, now) == {} && HasRoom(v, q)
    ensures Orphan(Enter(AsHost(v, q), q, ws, draw, now).0, p) <==> p != q && p != v.f.hostId
  {
    AsHostIsFresh(v, q, now);
    AsHostKeeps(v, q);
    EnterOrphan(AsHost(v, q), q, ws, draw, now, p);
  }

  lemma KnockOrphan(v: Vault, q: PeerId, ws: Socket, open: set<Socket>, now: int, p: PeerId)
    requires Orphan(v, p) && p != q
    ensures Orphan(Knock(v, q, ws, open, now).0, p)
  {
  }

  /** Nobody turned away comes under the orphan's name, except without the token under the host's. */
  lemma WayOfOrphan(v: Vault, j: JoinFrame, open: set<Socket>, p: PeerId)
    requires Orphan(v, p)
    ensures var way := WayIn(v, j, open);
            && (way.EntersAsHost? ==> SafeEqual(j.hostRecovery, v.f.hostRecoveryToken) && HasRoom(v, j.peer))
            && (way.Enters? ==> !SafeEqual(j.hostRecovery, v.f.hostRecoveryToken) && HasRoom(v, j.peer) && j.peer != v.f.hostId)
            && (way.Knocks? ==> !SafeEqual(j.hostRecovery, v.f.hostRecoveryToken) && j.peer != p)
            && (way.TurnedAway? ==> !JoinRescues(v, j, p))
  {
  }

  lemma DecideOrphan(v: Vault, j: JoinFrame, ws: Socket, open: set<Socket>, draw: Token, now: int, p: PeerId)
    requires Orphan(v, p) && Stale(v, now) == {}
    ensures Orphan(Decide(v, j, ws, open, draw, now).0, p) <==> !JoinRescues(v, j, p)
  {
    WayOfOrphan(v, j, open, p);
    match WayIn(v, j, open)
    case TurnedAway(reply) =>
    case EntersAsHost => HostEntryOrphan(v, j.peer, ws, draw, now, p);
    case Enters => EnterOrphan(v, j.peer, ws, draw, now, p);
    case Knocks => KnockOrphan(v, j.peer, ws, open, now, p);
  }

  lemma JoinOrphan(v: Vault, j: JoinFrame, ws: Socket, open: set<Socket>, draw: Token, now: int, p: PeerId)
    requires Inv(v) && Orphan(v, p)
    ensures Orphan(Join(v, j, ws, open, draw, now).0, p) <==> !Rescues(v, JoinRequest(j, ws, open, draw, now), p)
  {
    if ValidPeerId(j.peer) {
      ReclaimKeeps(v, now);
      ReclaimedIsFresh(v, now);
      DecideOrphan(Reclaim(v, now), j, ws, open, draw, now, p);
    }
  }

  /** A step ends an orphan exactly when it is one of the four. */
  lemma StepOrphan(v: Vault, e: Event, p: PeerId)
    requires Inv(v) && Orphan(v, p)
    ensures Orphan(Step(v, e), p) <==> !Rescues(v, e, p)
  {
    match e
    case JoinRequest(j, ws, open, draw, at) => JoinOrphan(v, j, ws, open, draw, at, p);
    case AcceptJoin(caller, target, draw, at) =>
    case RejectJoin(caller, target, _) =>
    case KickPeer(caller, target, at) =>
    case Closed(ws, q, at) =>
    case TornDown(_) =>
  }

  function OrphanIs(p: PeerId): Vault -> bool { (v: Vault) => Orphan(v, p) }

  function RescueOf(p: PeerId): (Vault, Event) -> bool { (v: Vault, e: Event) => Rescues(v, e, p) }

  /**
   An orphan stays one throughout a run if and only if no event of it is one of
   the four; no close event, acceptance, rejection or passing of time is.
   */
  lemma OrphanStaysExactly(v: Vault, p: PeerId, es: seq<Event>)
    requires Inv(v) && Orphan(v, p)
    ensures Always(OrphanIs(p), v, es) <==> Never(RescueOf(p), v, es)
  {
    forall w, e | Inv(w) ensures Inv(Step(w, e)) { StepKeeps(w, e); }
    forall w, e | Inv(w) && OrphanIs(p)(w) ensures OrphanIs(p)(Step(w, e)) <==> !RescueOf(p)(w, e) { StepOrphan(w, e, p); }
    ExactOverRuns(Inv, OrphanIs(p), RescueOf(p), v, es);
  }

  lemma {:induction false} AlwaysAtEnd(P: Vault -> bool, v: Vault, es: seq<Event>)
    requires Always(P, v, es)
    ensures P(Run(v, es))
    decreases |es|
  {
    if es != [] { AlwaysAtEnd(P, Step(v, es[0]), es[1..]); }
  }

  /** Until then the session is never marked empty, so the emptiness sweep never takes it, whoever else has left. */
  lemma OrphanKeepsOpen(v: Vault, p: PeerId, es: seq<Event>, now: int)
    requires Inv(v) && Orphan(v, p) && Never(RescueOf(p), v, es)
    ensures Run(v, es).f.emptySince == None && !EmptyTooLong(Run(v, es).f, now)
  {
    OrphanStaysExactly(v, p, es);
    AlwaysAtEnd(OrphanIs(p), v, es);
    RunKeeps(v, es);
    assert p in Present(Run(v, es));
  }

  // ----- the run that orphans a member ---------------------------------------------------------------

  /** The host alone is connected, and whoever is waiting is not. */
  predicate HostAlone(v: Vault, host: PeerId) {
    && v.stored && Inv(v) && v.f.hostId == host && v.f.peers.Keys == {host} && v.f.maxPeers >= 2
    && v.f.hostPublicKey.Some? && v.connected == {host} && host in v.sockets && v.sockets[host] == 1 && v.f.pending == map[]
  }

  lemma HostJoins(o: Options, host: PeerId, recovery: string, token: Token, draw: Token, now: int)
    requires o.hostPublicKey.Some? && ValidPeerId(host) && recovery != ""
    ensures var e := JoinRequest(JoinFrame(host, Some(recovery), None, NoCredential), 1, {1}, draw, now);
            HostAlone(Step(Opened(o, host, recovery, token, now), e), host)
  {
    var v := Opened(o, host, recovery, token, now);
    OpenedSound(o, host, recovery, token, now);
    NobodyStale(v, now);
    var j := JoinFrame(host, Some(recovery), None, NoCredential);
    assert WayIn(v, j, {1}) == EntersAsHost;
    assert AsHost(v, host) == v;
    EnterPeers(v, host, 1, draw, now);
    HostKeepsRest(v, host, draw, now);
    StepKeeps(v, JoinRequest(j, 1, {1}, draw, now));
  }

  lemma HostKeepsRest(v: Vault, host: PeerId, draw: Token, now: int)
    requires HasRoom(v, host) && host in v.f.peers
    ensures var v2 := Enter(v, host, 1, draw, now).0;
            v2.sockets == v.sockets[host := 1] && v2.f.pending == v.f.pending && v2.f.hostPublicKey == v.f.hostPublicKey
  {
  }

  lemma GuestWaits(v: Vault, host: PeerId, g: PeerId, draw: Token, now: int)
    requires HostAlone(v, host) && ValidPeerId(g) && g !in InheritedNames && g != host
    ensures var v2 := Step(v, JoinRequest(Bare(g), 2, {1, 2}, draw, now));
            v2 == Register(v.(f := v.f.(pending := v.f.pending[g := now])), g, 2)
  {
    NobodyStale(v, now);
    KeysSize(v.f.peers);
    assert WayIn(v, Bare(g), {1, 2}) == Knocks;
  }

  lemma WaitingGuestEnters(v: Vault, host: PeerId, g: PeerId, draw: Token, now: int)
    requires HostAlone(v, host) && ValidPeerId(g) && g !in InheritedNames && g != host
    ensures var v2 := Register(v.(f := v.f.(pending := v.f.pending[g := now])), g, 2);
            var v3 := Step(v2, JoinRequest(JoinFrame(g, None, None, Vouched), 2, {1, 2}, draw, now));
            && v3.stored && v3.f.hostId == host && g in v3.f.pending && g in Present(v3)
  {
    var v2 := Register(v.(f := v.f.(pending := v.f.pending[g := now])), g, 2);
    var j := JoinFrame(g, None, None, Vouched);
    NobodyStale(v2, now);
    KeysSize(v.f.peers);
    assert WayIn(v2, j, {1, 2}) == Enters;
    EnterPeers(v2, g, 2, draw, now);
    PendingKept(v2, g, draw, now);
  }

  lemma PendingKept(v: Vault, g: PeerId, draw: Token, now: int)
    ensures Enter(v, g, 2, draw, now).0.f.pending == v.f.pending
  {
  }

  lemma {:induction false} RunJoins(v: Vault, a: seq<Event>, b: seq<Event>)
    ensures Run(v, a + b) == Run(Run(v, a), b)
    decreases |a|
  {
    if a == [] {
      assert a + b == b;
    } else {
      assert (a + b)[0] == a[0] && (a + b)[1..] == a[1..] + b;
      RunJoins(Step(v, a[0]), a[1..], b);
    }
  }

  /**
   From the start of a session: the host joins, a guest asks to, joins by its
   membership instead, and the host turns the old request down. The guest is a
   member, counted as present, and has no socket.
   */
  lemma GuestOrphaned(o: Options, host: PeerId, recovery: string, token: Token, draw: Token, g: PeerId, now: int)
    requires o.hostPublicKey.Some? && ValidPeerId(host) && recovery != ""
    requires ValidPeerId(g) && g !in InheritedNames && g != host
    ensures var e1 := JoinRequest(JoinFrame(host, Some(recovery), None, NoCredential), 1, {1}, draw, now);
            var e2 := JoinRequest(Bare(g), 2, {1, 2}, draw, now);
            var e3 := JoinRequest(JoinFrame(g, None, None, Vouched), 2, {1, 2}, draw, now);
            var v4 := Run(Opened(o, host, recovery, token, now), [e1, e2] + [e3, RejectJoin(host, g, now)]);
            Inv(v4) && Orphan(v4, g)
  {
    var v := Opened(o, host, recovery, token, now);
    var e1 := JoinRequest(JoinFrame(host, Some(recovery), None, NoCredential), 1, {1}, draw, now);
    var e2 := JoinRequest(Bare(g), 2, {1, 2}, draw, now);
    var e3 := JoinRequest(JoinFrame(g, None, None, Vouched), 2, {1, 2}, draw, now);
    var e4 := RejectJoin(host, g, now);
    HostJoins(o, host, recovery, token, draw, now);
    var v1 := Step(v, e1);
    GuestWaits(v1, host, g, draw, now);
    WaitingGuestEnters(v1, host, g, draw, now);
    TwoEvents(v, e1, e2);
    TwoEvents(Step(v1, e2), e3, e4);
    RunJoins(v, [e1, e2], [e3, e4]);
    OpenedSound(o, host, recovery, token, now);
    RunKeeps(v, [e1, e2] + [e3, e4]);
    RejectOrphans(Step(Step(v1, e2), e3), host, g, now);
  }

  lemma RejectOrphans(v: Vault, host: PeerId, g: PeerId, now: int)
    requires v.stored && v.f.hostId == host && ValidPeerId(g) && g in v.f.pending && g in Present(v)
    ensures var v2 := Step(v, RejectJoin(host, g, now));
            v2.stored && g in Present(v2) && g !in v2.sockets
  {
  }
}
