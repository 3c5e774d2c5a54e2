/** What admission, presence and host authority keep over every run of a session. */
module AdmissionProof {
  import opened Common
  import opened Sessions
  import opened Admission

  // ----- the invariant -------------------------------------------------------------------

  /** Host and queue. */
  predicate HostKept(v: Vault) { v.f.hostId in v.f.peers && |v.f.pending| <= MaxPendingPeers }

  predicate EmptyMarked(v: Vault) { v.f.emptySince.None? <==> v.f.participantCount > 0 }

  /** From the first admission the count is exact; before it, no admitted peer is connected. */
  predicate CountExact(v: Vault) {
    if v.f.status.Active? then v.f.participantCount == |Present(v)| else Present(v) == {}
  }

  predicate SocketsListed(v: Vault) { v.sockets.Keys <= v.connected }

  predicate Inv(v: Vault) {
    SocketsListed(v) && HostKept(v) && (v.stored ==> EmptyMarked(v) && CountExact(v))
  }

  lemma ShrinksMap<K, V>(m: map<K, V>, gone: set<K>)
    ensures |m - gone| <= |m|
  {
    assert (m - gone).Keys <= m.Keys;
    SubsetSize((m - gone).Keys, m.Keys);
    assert |(m - gone).Keys| == |m - gone| && |m.Keys| == |m|;
  }

  lemma {:induction false} SubsetSize<K>(a: set<K>, b: set<K>)
    requires a <= b
    ensures |a| <= |b|
    decreases a
  {
    if a != {} {
      var x :| x in a;
      SubsetSize(a - {x}, b - {x});
    }
  }

  lemma GrowsMap<K, V>(m: map<K, V>, k: K, v: V)
    ensures |m[k := v]| == if k in m then |m| else |m| + 1
  {
    assert m[k := v].Keys == m.Keys + {k};
    assert |m[k := v].Keys| == |m[k := v]| && |m.Keys| == |m|;
  }

  lemma ReclaimKeeps(v: Vault, now: int)
    requires v.f.hostId in v.f.peers
    ensures Present(Reclaim(v, now)) == Present(v)
    ensures v.f.hostId in Reclaim(v, now).f.peers && |Reclaim(v, now).f.peers| <= |v.f.peers|
  {
    ShrinksMap(v.f.peers, StaleIds(v.f.peers, v.connected, v.f.hostId, now));
  }

  lemma SyncKeeps(v: Vault, now: int)
    ensures EmptyMarked(Sync(v, now)) && Sync(v, now).f.participantCount == |Present(Sync(v, now))|
    ensures Present(Sync(v, now)) == Present(v)
  {
    assert Present(Sync(v, now)) == Present(v);
  }

  /** A successful admission establishes everything but the host's own slot. */
  lemma AdmitKeeps(v: Vault, p: PeerId, draw: Token, now: int)
    requires HasRoom(Reclaim(v, now), p)
    requires v.f.hostId in v.f.peers || v.f.hostId == p
    ensures Admit(v, p, draw, now).1.Some?
    ensures var v2 := Admit(v, p, draw, now).0;
            v2.f.hostId in v2.f.peers && EmptyMarked(v2) && CountExact(v2)
            && v2.f.status.Active? && v2.f.pending == v.f.pending && v2.connected == v.connected && v2.sockets == v.sockets
  {
    var v1 := Reclaim(v, now);
    var token := if p in v1.f.peers then v1.f.peers[p].token else draw;
    var v2 := v1.(f := v1.f.(peers := v1.f.peers[p := Peer(now, now, token)]));
    SyncKeeps(v2, now);
    assert Present(Admit(v, p, draw, now).0) == Present(Sync(v2, now));
  }

  /** Once a frame has passed the capacity check, the admission behind it cannot fail. */
  lemma EnterKeeps(v: Vault, p: PeerId, ws: Socket, draw: Token, now: int)
    requires v.stored && SocketsListed(v) && |v.f.pending| <= MaxPendingPeers && HasRoom(v, p)
    requires v.f.hostId in v.f.peers || v.f.hostId == p
    ensures Enter(v, p, ws, draw, now).1.Joined? && Inv(Enter(v, p, ws, draw, now).0)
  {
    var v1 := Register(v, p, ws);
    var v2 := Reclaim(v1, now);
    assert p in v.f.peers ==> p in v2.f.peers;
    ShrinksMap(v1.f.peers, StaleIds(v1.f.peers, v1.connected, v1.f.hostId, now));
    AdmitKeeps(v1, p, draw, now);
  }

  lemma AsHostKeeps(v: Vault, p: PeerId)
    requires HasRoom(v, p)
    ensures HasRoom(AsHost(v, p), p) && AsHost(v, p).f.hostId == p
  {
    ShrinksMap(v.f.peers, {v.f.hostId});
  }

  lemma KnockKeeps(v: Vault, p: PeerId, ws: Socket, open: set<Socket>, now: int)
    requires v.stored && Inv(v) && p !in v.f.peers
    ensures Inv(Knock(v, p, ws, open, now).0)
  {
    GrowsMap(v.f.pending, p, now);
    assert Present(Knock(v, p, ws, open, now).0) == Present(v);
  }

  lemma DecideKeeps(v: Vault, j: JoinFrame, ws: Socket, open: set<Socket>, draw: Token, now: int)
    requires Inv(v) && v.stored
    ensures Inv(Decide(v, j, ws, open, draw, now).0)
    ensures Decide(v, j, ws, open, draw, now).1.SessionFull? <==> !HasRoom(v, j.peer)
  {
    match WayIn(v, j, open)
    case TurnedAway(reply) =>
    case EntersAsHost =>
      AsHostKeeps(v, j.peer);
      EnterKeeps(AsHost(v, j.peer), j.peer, ws, draw, now);
    case Enters => EnterKeeps(v, j.peer, ws, draw, now);
    case Knocks => KnockKeeps(v, j.peer, ws, open, now);
  }

  lemma JoinKeeps(v: Vault, j: JoinFrame, ws: Socket, open: set<Socket>, draw: Token, now: int)
    requires Inv(v)
    ensures Inv(Join(v, j, ws, open, draw, now).0)
  {
    if v.stored {
      ReclaimKeeps(v, now);
      DecideKeeps(Reclaim(v, now), j, ws, open, draw, now);
    }
  }

  lemma AcceptKeeps(v: Vault, caller: PeerId, target: PeerId, draw: Token, now: int)
    requires Inv(v)
    ensures Inv(Accept(v, caller, target, draw, now).0)
  {
    if v.stored {
      ReclaimKeeps(v, now);
      ShrinksMap(v.f.pending, {target});
      if HasRoom(Reclaim(v, now), target) {
        AdmitKeeps(v, target, draw, now);
        assert Present(Accept(v, caller, target, draw, now).0) == Present(Admit(v, target, draw, now).0)
            || Accept(v, caller, target, draw, now).0 == v;
      }
    }
  }

  lemma RejectKeeps(v: Vault, caller: PeerId, target: PeerId)
    requires Inv(v)
    ensures Inv(Reject(v, caller, target))
  {
    ShrinksMap(v.f.pending, {target});
    assert Present(Reject(v, caller, target)) == Present(v);
  }

  lemma KickKeeps(v: Vault, caller: PeerId, target: PeerId, now: int)
    requires Inv(v)
    ensures Inv(Kick(v, caller, target, now))
  {
    if Kick(v, caller, target, now) != v {
      ShrinksMap(v.f.peers, {target});
      var v1 := v.(f := v.f.(peers := v.f.peers - {target}), connected := v.connected - {target});
      SyncKeeps(v1, now);
      assert Present(Kick(v, caller, target, now)) == Present(v1) <= Present(v);
    }
  }

  lemma CloseKeeps(v: Vault, ws: Socket, p: PeerId, now: int)
    requires Inv(v)
    ensures Inv(Close(v, ws, p, now))
  {
    if p in v.sockets && v.sockets[p] == ws && v.stored {
      ShrinksMap(v.f.pending, {p});
      var peers := if p in v.f.peers then v.f.peers[p := v.f.peers[p].(lastSeenAt := now)] else v.f.peers;
      assert peers.Keys == v.f.peers.Keys && |peers.Keys| == |peers| && |v.f.peers.Keys| == |v.f.peers|;
      var v1 := v.(sockets := v.sockets - {p}, connected := v.connected - {p},
                   f := v.f.(pending := v.f.pending - {p}, peers := peers));
      SyncKeeps(v1, now);
      assert Close(v, ws, p, now) == Sync(v1, now);
      assert Present(v1) <= Present(v);
    }
  }

  lemma StepKeeps(v: Vault, e: Event)
    requires Inv(v)
    ensures Inv(Step(v, e))
  {
    match e
    case JoinRequest(j, ws, open, draw, at) => JoinKeeps(v, j, ws, open, draw, at);
    case AcceptJoin(caller, target, draw, at) => AcceptKeeps(v, caller, target, draw, at);
    case RejectJoin(caller, target, _) => RejectKeeps(v, caller, target);
    case KickPeer(caller, target, at) => KickKeeps(v, caller, target, at);
    case Closed(ws, p, at) => CloseKeeps(v, ws, p, at);
    case TornDown(_) =>
  }

  lemma {:induction false} RunKeeps(v: Vault, es: seq<Event>)
    requires Inv(v)
    ensures Inv(Run(v, es))
    decreases |es|
  {
    if es != [] {
      StepKeeps(v, es[0]);
      RunKeeps(Step(v, es[0]), es[1..]);
    }
  }

  // ----- over every run ----------------------------------------------------------------------

  /** The predicate holds of the state before every event of the run, and of the last state. */
  predicate Always(P: Vault -> bool, v: Vault, es: seq<Event>)
    decreases |es|
  {
    P(v) && (es == [] || Always(P, Step(v, es[0]), es[1..]))
  }

  /** No event of the run meets the predicate when it comes. */
  predicate Never(Q: (Vault, Event) -> bool, v: Vault, es: seq<Event>)
    decreases |es|
  {
    es == [] || (!Q(v, es[0]) && Never(Q, Step(v, es[0]), es[1..]))
  }

  /** If `Q` says exactly when a step breaks `P`, then `P` always holds exactly in the runs without `Q`. */
  lemma {:induction false} ExactOverRuns(I: Vault -> bool, P: Vault -> bool, Q: (Vault, Event) -> bool, v: Vault, es: seq<Event>)
    requires I(v) && P(v)
    requires forall w, e :: I(w) ==> I(Step(w, e))
    requires forall w, e :: I(w) && P(w) ==> (P(Step(w, e)) <==> !Q(w, e))
    ensures Always(P, v, es) <==> Never(Q, v, es)
    decreases |es|
  {
    if es != [] {
      if P(Step(v, es[0])) {
        ExactOverRuns(I, P, Q, Step(v, es[0]), es[1..]);
      } else {
        assert Q(v, es[0]) && !Always(P, Step(v, es[0]), es[1..]);
      }
    }
  }

  /**
   Whatever frames, closes and teardowns follow its creation, a stored session
   keeps its host and its queue limit, marks emptiness exactly when the count is
   zero, and counts exactly the connected admitted peers from the first
   admission on.
   */
  lemma SessionSound(o: Options, hostId: PeerId, recovery: string, token: Token, now: int, es: seq<Event>)
    ensures var v := Run(Opened(o, hostId, recovery, token, now), es);
            v.stored ==>
              && v.f.hostId in v.f.peers && |v.f.pending| <= MaxPendingPeers
              && (v.f.emptySince.None? <==> v.f.participantCount > 0)
              && (v.f.status.Active? ==> v.f.participantCount == |Present(v)|)
  {
    RunKeeps(Opened(o, hostId, recovery, token, now), es);
  }

  /** The emptiness sweep never takes a session in which an admitted peer still has its socket. */
  lemma SweepSparesThePresent(o: Options, hostId: PeerId, recovery: string, token: Token, now: int,
                              es: seq<Event>, p: PeerId, later: int)
    requires var v := Run(Opened(o, hostId, recovery, token, now), es);
             v.stored && p in v.sockets && p in v.f.peers
    ensures !EmptyTooLong(Run(Opened(o, hostId, recovery, token, now), es).f, later)
  {
    RunKeeps(Opened(o, hostId, recovery, token, now), es);
    var v := Run(Opened(o, hostId, recovery, token, now), es);
    assert p in Present(v);
  }

  /**
   A join is told "full" exactly when every slot is taken after the stale ones
   are reclaimed and the name it gives is neither a member's nor an inherited
   one: the admission behind that check never fails.
   */
  lemma JoinFullExactly(v: Vault, j: JoinFrame, ws: Socket, open: set<Socket>, draw: Token, now: int)
    requires Inv(v) && v.stored && ValidPeerId(j.peer)
    ensures Join(v, j, ws, open, draw, now).1.SessionFull?
       <==> var left := Reclaim(v, now).f.peers;
            |left| >= v.f.maxPeers && j.peer !in left && j.peer !in InheritedNames
  {
    ReclaimKeeps(v, now);
    DecideKeeps(Reclaim(v, now), j, ws, open, draw, now);
  }

  // ----- capacity ------------------------------------------------------------------------------

  predicate Fits(v: Vault) { |v.f.peers| <= v.f.maxPeers }

  /** A name that is found without being a member's, when every slot is taken. */
  predicate SlipsPast(v: Vault, p: PeerId) {
    ValidPeerId(p) && p in InheritedNames && p !in v.f.peers && |v.f.peers| >= v.f.maxPeers
  }

  /**
   The event admits an inherited name into a full session: a join without the
   recovery token whose name no open socket holds, or an accept by the host.
   */
  predicate Overfills(v: Vault, e: Event) {
    v.stored &&
    match e
    case JoinRequest(j, _, open, _, at) =>
      SlipsPast(Reclaim(v, at), j.peer) && !SafeEqual(j.hostRecovery, v.f.hostRecoveryToken) && !SocketOpen(v, j.peer, open)
    case AcceptJoin(caller, target, _, at) => caller == v.f.hostId && SlipsPast(Reclaim(v, at), target)
    case _ => false
  }

  /** Entering right after the stale slots were reclaimed adds the peer and takes nobody's slot. */
  lemma EnterPeers(v: Vault, p: PeerId, ws: Socket, draw: Token, now: int)
    requires Stale(v, now) <= {p} && HasRoom(v, p)
    ensures Enter(v, p, ws, draw, now).0.f.peers.Keys == v.f.peers.Keys + {p}
    ensures Enter(v, p, ws, draw, now).0.f.maxPeers == v.f.maxPeers
    ensures Enter(v, p, ws, draw, now).1
         == Joined(if p in v.f.peers then v.f.peers[p].token else draw)
    ensures Enter(v, p, ws, draw, now).0.connected == v.connected + {p}
    ensures Enter(v, p, ws, draw, now).0.f.hostId == v.f.hostId && Enter(v, p, ws, draw, now).0.stored == v.stored
  {
    var v1 := Register(v, p, ws);
    assert StaleIds(v1.f.peers, v1.connected, v1.f.hostId, now) == {};
    assert Reclaim(v1, now).f.peers == v.f.peers;
  }

  function Stale(v: Vault, now: int): set<PeerId> { StaleIds(v.f.peers, v.connected, v.f.hostId, now) }

  lemma ReclaimedIsFresh(v: Vault, now: int)
    ensures Stale(Reclaim(v, now), now) == {}
  {
  }

  lemma AsHostIsFresh(v: Vault, p: PeerId, now: int)
    requires Stale(v, now) == {}
    ensures Stale(AsHost(v, p), now) == {}
  {
  }

  lemma AddedSize(m: set<PeerId>, p: PeerId)
    ensures |m + {p}| == if p in m then |m| else |m| + 1
  {
    if p in m { assert m + {p} == m; }
  }

  lemma KeysSize<V>(m: map<PeerId, V>)
    ensures |m| == |m.Keys|
  {
  }

  /** The size of the membership after a join that enters without the host's role. */
  lemma EntersSize(v: Vault, p: PeerId, ws: Socket, draw: Token, now: int)
    requires Stale(v, now) == {} && HasRoom(v, p)
    ensures |Enter(v, p, ws, draw, now).0.f.peers| == if p in v.f.peers then |v.f.peers| else |v.f.peers| + 1
    ensures Enter(v, p, ws, draw, now).0.f.maxPeers == v.f.maxPeers
  {
    EnterPeers(v, p, ws, draw, now);
    KeysSize(v.f.peers);
    KeysSize(Enter(v, p, ws, draw, now).0.f.peers);
    AddedSize(v.f.peers.Keys, p);
  }

  /** The host's role is handed over within the old host's slot. */
  lemma EntersAsHostSize(v: Vault, p: PeerId, ws: Socket, draw: Token, now: int)
    requires Stale(v, now) == {} && HasRoom(v, p) && v.f.hostId in v.f.peers
    ensures |Enter(AsHost(v, p), p, ws, draw, now).0.f.peers| <= |v.f.peers|
    ensures Enter(AsHost(v, p), p, ws, draw, now).0.f.maxPeers == v.f.maxPeers
  {
    AsHostIsFresh(v, p, now);
    AsHostKeeps(v, p);
    EntersSize(AsHost(v, p), p, ws, draw, now);
    if v.f.hostId != p {
      var rest := v.f.peers - {v.f.hostId};
      assert rest.Keys == v.f.peers.Keys - {v.f.hostId};
      KeysSize(rest);
      KeysSize(v.f.peers);
    }
  }

  lemma DecideFits(v: Vault, j: JoinFrame, ws: Socket, open: set<Socket>, draw: Token, now: int)
    requires Inv(v) && v.stored && Fits(v) && Stale(v, now) == {} && ValidPeerId(j.peer)
    ensures Fits(Decide(v, j, ws, open, draw, now).0)
       <==> !(SlipsPast(v, j.peer) && !SafeEqual(j.hostRecovery, v.f.hostRecoveryToken) && !SocketOpen(v, j.peer, open))
  {
    match WayIn(v, j, open)
    case TurnedAway(reply) =>
    case EntersAsHost => EntersAsHostSize(v, j.peer, ws, draw, now);
    case Enters => EntersSize(v, j.peer, ws, draw, now);
    case Knocks =>
  }

  lemma JoinFits(v: Vault, j: JoinFrame, ws: Socket, open: set<Socket>, draw: Token, now: int)
    requires Inv(v) && Fits(v)
    ensures Fits(Join(v, j, ws, open, draw, now).0) <==> !Overfills(v, JoinRequest(j, ws, open, draw, now))
  {
    if v.stored && ValidPeerId(j.peer) {
      ReclaimKeeps(v, now);
      ReclaimedIsFresh(v, now);
      DecideFits(Reclaim(v, now), j, ws, open, draw, now);
    }
  }

  lemma AcceptFits(v: Vault, caller: PeerId, target: PeerId, draw: Token, now: int)
    requires Inv(v) && Fits(v)
    ensures Fits(Accept(v, caller, target, draw, now).0) <==> !Overfills(v, AcceptJoin(caller, target, draw, now))
  {
    if v.stored {
      var v1 := Reclaim(v, now);
      ReclaimKeeps(v, now);
      GrowsMap(v1.f.peers, target, Peer(now, now, if target in v1.f.peers then v1.f.peers[target].token else draw));
    }
  }

  /** A step takes a session over its capacity exactly when it admits an inherited name into a full one. */
  lemma StepFits(v: Vault, e: Event)
    requires Inv(v) && Fits(v)
    ensures Fits(Step(v, e)) <==> !Overfills(v, e)
  {
    match e
    case JoinRequest(j, ws, open, draw, at) => JoinFits(v, j, ws, open, draw, at);
    case AcceptJoin(caller, target, draw, at) => AcceptFits(v, caller, target, draw, at);
    case RejectJoin(caller, target, _) =>
    case KickPeer(caller, target, at) => ShrinksMap(v.f.peers, {target});
    case Closed(ws, p, at) =>
      if p in v.f.peers { GrowsMap(v.f.peers, p, v.f.peers[p].(lastSeenAt := at)); }
    case TornDown(_) =>
  }

  lemma OpenedSound(o: Options, hostId: PeerId, recovery: string, token: Token, now: int)
    ensures var v := Opened(o, hostId, recovery, token, now);
            Inv(v) && Fits(v) && v.f.maxPeers >= 2
  {
  }

  /** Capacity is kept throughout a run if and only if no event of it admits an inherited name into a full session. */
  lemma CapacityExactly(o: Options, hostId: PeerId, recovery: string, token: Token, now: int, es: seq<Event>)
    ensures var v := Opened(o, hostId, recovery, token, now);
            Always(Fits, v, es) <==> Never(Overfills, v, es)
  {
    OpenedSound(o, hostId, recovery, token, now);
    forall w, e | Inv(w) ensures Inv(Step(w, e)) { StepKeeps(w, e); }
    forall w, e | Inv(w) && Fits(w) ensures Fits(Step(w, e)) <==> !Overfills(w, e) { StepFits(w, e); }
    ExactOverRuns(Inv, Fits, Overfills, Opened(o, hostId, recovery, token, now), es);
  }

  // ----- the run that overfills ------------------------------------------------------------------

  /** A stranger's join: a name and nothing else. */
  function Bare(p: PeerId): JoinFrame { JoinFrame(p, None, None, NoCredential) }

  lemma StrangersWay(v: Vault, p: PeerId, open: set<Socket>)
    requires v.f.hostId in v.f.peers && p in InheritedNames && p !in v.f.peers && !SocketOpen(v, p, open)
    ensures WayIn(v, Bare(p), open) == Enters
  {
  }

  /** A stranger that presents nothing but an inherited name is admitted, full session or not. */
  lemma StrangerSlipsIn(v: Vault, p: PeerId, ws: Socket, open: set<Socket>, draw: Token, now: int)
    requires Inv(v) && v.stored && ValidPeerId(p) && p in InheritedNames && p !in v.f.peers && !SocketOpen(v, p, open)
    ensures var (v2, reply) := Join(v, Bare(p), ws, open, draw, now);
            && reply == Joined(draw) && v2.f.peers.Keys == Reclaim(v, now).f.peers.Keys + {p} && v2.stored
            && v2.connected == v.connected + {p} && v2.f.hostId == v.f.hostId && v2.f.maxPeers == v.f.maxPeers
  {
    var v1 := Reclaim(v, now);
    ReclaimedIsFresh(v, now);
    StrangersWay(v1, p, open);
    EnterPeers(v1, p, ws, draw, now);
  }

  lemma ToStringIsAnId()
    ensures ValidPeerId("toString") && ValidPeerId("valueOf")
    ensures "toString" in InheritedNames && "valueOf" in InheritedNames && "toString" != "valueOf"
  {
  }

  /** Of the inherited names only these two are no peer ids. */
  lemma NamesThatPass(p: PeerId)
    requires p in InheritedNames
    ensures ValidPeerId(p) <==> p != "constructor" && p != "__proto__"
  {
    if p in {"hasOwnProperty", "isPrototypeOf", "toLocaleString", "toString", "valueOf"} {
      ShortNamePasses(p);
    } else if p != "constructor" && p != "__proto__" {
      LongNamePasses(p);
    }
  }

  lemma LongNamePasses(p: PeerId)
    requires p in {"__defineGetter__", "__defineSetter__", "__lookupGetter__", "__lookupSetter__", "propertyIsEnumerable"}
    ensures ValidPeerId(p)
  {
  }

  lemma ShortNamePasses(p: PeerId)
    requires p in {"hasOwnProperty", "isPrototypeOf", "toLocaleString", "toString", "valueOf"}
    ensures ValidPeerId(p)
  {
  }

  lemma NobodyStale(v: Vault, now: int)
    requires v.f.peers.Keys <= v.connected + {v.f.hostId}
    ensures Stale(v, now) == {} && Reclaim(v, now) == v
  {
    assert Stale(v, now) == {};
    assert v.f.peers - {} == v.f.peers;
  }

  /** Two strangers, one after the other, in a session whose members are all connected but its host. */
  lemma TwoSlipIn(v: Vault, p: PeerId, q: PeerId, draw: Token, now: int)
    requires Inv(v) && v.stored && v.f.peers.Keys == {v.f.hostId}
    requires ValidPeerId(p) && p in InheritedNames && ValidPeerId(q) && q in InheritedNames
    requires p != q && p != v.f.hostId && q != v.f.hostId
    ensures var e1, e2 := JoinRequest(Bare(p), 1, {}, draw, now), JoinRequest(Bare(q), 2, {}, draw, now);
            var v2 := Run(v, [e1, e2]);
            v2.f.peers.Keys == {v.f.hostId, p, q} && v2.f.maxPeers == v.f.maxPeers
  {
    var e1, e2 := JoinRequest(Bare(p), 1, {}, draw, now), JoinRequest(Bare(q), 2, {}, draw, now);
    TwoEvents(v, e1, e2);
    OneSlipsIn(v, p, 1, draw, now);
    OneSlipsIn(Step(v, e1), q, 2, draw, now);
    BothIn(v, Step(v, e1), Run(v, [e1, e2]), p, q);
  }

  /** `v2` is `v` with one member more. */
  predicate OneMore(v: Vault, v2: Vault, p: PeerId) {
    v2.f.peers.Keys == v.f.peers.Keys + {p} && v2.f.hostId == v.f.hostId && v2.f.maxPeers == v.f.maxPeers
  }

  lemma BothIn(v: Vault, v1: Vault, v2: Vault, p: PeerId, q: PeerId)
    requires v.f.peers.Keys == {v.f.hostId} && OneMore(v, v1, p) && OneMore(v1, v2, q)
    ensures v2.f.peers.Keys == {v.f.hostId, p, q} && v2.f.maxPeers == v.f.maxPeers
  {
  }

  /** Every member is connected, the host perhaps excepted. */
  predicate OnlyHostAway(v: Vault) { Inv(v) && v.stored && v.f.peers.Keys <= v.connected + {v.f.hostId} }

  /** A stranger in a session whose members are all connected but its host. */
  lemma OneSlipsIn(v: Vault, p: PeerId, ws: Socket, draw: Token, now: int)
    requires OnlyHostAway(v)
    requires ValidPeerId(p) && p in InheritedNames && p !in v.f.peers
    ensures var v2 := Step(v, JoinRequest(Bare(p), ws, {}, draw, now));
            OnlyHostAway(v2) && OneMore(v, v2, p)
  {
    StrangerSlipsIn(v, p, ws, {}, draw, now);
    NobodyStale(v, now);
    StepKeeps(v, JoinRequest(Bare(p), ws, {}, draw, now));
  }

  lemma TwoEvents(v: Vault, e1: Event, e2: Event)
    ensures Run(v, [e1, e2]) == Step(Step(v, e1), e2)
  {
    assert [e1, e2][1..] == [e2] && [e2][1..] == [];
    assert Run(v, [e1, e2]) == Run(Step(v, e1), [e2]);
    assert Run(Step(v, e1), [e2]) == Run(Step(Step(v, e1), e2), []);
  }

  /** Two strangers walk into a session for two that its host has not even joined. */
  lemma StrangersOverfill(hostId: PeerId, recovery: string, token: Token, draw: Token, now: int)
    requires hostId !in InheritedNames
    ensures var o := Options(None, None, None, Some(2));
            var e1 := JoinRequest(Bare("toString"), 1, {}, draw, now);
            var e2 := JoinRequest(Bare("valueOf"), 2, {}, draw, now);
            var v2 := Run(Opened(o, hostId, recovery, token, now), [e1, e2]);
            v2.f.maxPeers == 2 && |v2.f.peers| == 3
  {
    var o := Options(None, None, None, Some(2));
    OpenedSound(o, hostId, recovery, token, now);
    ToStringIsAnId();
    TwoSlipIn(Opened(o, hostId, recovery, token, now), "toString", "valueOf", draw, now);
    ThreeOf(hostId);
    KeysSize(Run(Opened(o, hostId, recovery, token, now),
                 [JoinRequest(Bare("toString"), 1, {}, draw, now), JoinRequest(Bare("valueOf"), 2, {}, draw, now)]).f.peers);
  }

  lemma ThreeOf(hostId: PeerId)
    requires hostId !in InheritedNames
    ensures |{hostId, "toString", "valueOf"}| == 3
  {
    ToStringIsAnId();
  }
}
