/**
 The transport's maps and the session objects it shares with the store, updated
 in place. `session` is what the store returned for the frame; `null` is none.
 */
module WsTransportClass {
  import opened Common
  import opened Sessions
  import Spec = Admission

  type ConnKey = (Id, PeerId)

  function SocketsOf(c: map<ConnKey, Spec.Socket>, sid: Id): (r: map<PeerId, Spec.Socket>)
    ensures forall p :: p in r <==> (sid, p) in c
    ensures forall p :: p in r ==> r[p] == c[(sid, p)]
  {
    map k | k in c && k.0 == sid :: k.1 := c[k]
  }

  lemma SocketPut(c: map<ConnKey, Spec.Socket>, sid: Id, p: PeerId, ws: Spec.Socket)
    ensures SocketsOf(c[(sid, p) := ws], sid) == SocketsOf(c, sid)[p := ws]
    ensures forall t :: t != sid ==> SocketsOf(c[(sid, p) := ws], t) == SocketsOf(c, t)
  {
  }

  lemma SocketDropped(c: map<ConnKey, Spec.Socket>, sid: Id, p: PeerId)
    ensures SocketsOf(c - {(sid, p)}, sid) == SocketsOf(c, sid) - {p}
    ensures forall t :: t != sid ==> SocketsOf(c - {(sid, p)}, t) == SocketsOf(c, t)
  {
  }

  lemma DropAbsent<K, V>(m: map<K, V>, k: K)
    requires k !in m
    ensures m - {k} == m
  {
  }

  lemma DropTwice<K, V>(m: map<K, V>, a: set<K>, k: K)
    ensures (m - a) - {k} == m - (a + {k})
  {
  }

  /** Every peer but the host that is neither connected nor within its grace period, once each. */
  method StalePeerIds(peers: map<PeerId, Peer>, connected: set<PeerId>, hostId: PeerId, now: int) returns (stale: seq<PeerId>)
    ensures Distinct(stale)
    ensures forall p :: p in stale <==> p in Spec.StaleIds(peers, connected, hostId, now)
  {
    var cutoff := now - ReconnectGraceMs;
    stale := [];
    var left := peers.Keys;
    while left != {}
      invariant left <= peers.Keys && Distinct(stale)
      invariant forall p :: p in stale <==> p in Spec.StaleIds(peers, connected, hostId, now) && p !in left
      decreases left
    {
      var id :| id in left;
      left := left - {id};
      if id == hostId { continue; }
      if id in connected { continue; }
      if peers[id].lastSeenAt > cutoff { continue; }
      stale := stale + [id];
    }
  }

  class WsTransport {
    var connections: map<ConnKey, Spec.Socket>
    var sessionPeers: map<Id, set<PeerId>>

    ghost function Connected(sid: Id): set<PeerId>
      reads this
    {
      if sid in sessionPeers then sessionPeers[sid] else {}
    }

    /** The session as one value. */
    ghost function VaultOf(s: Session): Spec.Vault
      reads this, s
    {
      Spec.Vault(s.View(), Connected(s.id), SocketsOf(connections, s.id), true)
    }

    /** No other session's sockets or presence are touched. */
    twostate predicate OthersKept(sid: Id)
      reads this
    {
      forall t :: t != sid ==> Connected(t) == old(Connected(t)) && SocketsOf(connections, t) == old(SocketsOf(connections, t))
    }

    constructor ()
      ensures connections == map[] && sessionPeers == map[]
    {
      connections, sessionPeers := map[], map[];
    }

    method ConnectedPeers(sid: Id) returns (peers: set<PeerId>)
      modifies this
      ensures peers == Connected(sid) == old(Connected(sid)) && connections == old(connections) && OthersKept(sid)
      ensures sessionPeers == old(sessionPeers)[sid := peers]
    {
      if sid !in sessionPeers { sessionPeers := sessionPeers[sid := {}]; }
      peers := sessionPeers[sid];
    }

    method Unlist(sid: Id, p: PeerId)
      modifies this
      ensures connections == old(connections) && Connected(sid) == old(Connected(sid)) - {p} && OthersKept(sid)
    {
      var connected := ConnectedPeers(sid);
      sessionPeers := sessionPeers[sid := connected - {p}];
    }

    method SyncPresence(s: Session, now: int)
      modifies this, s
      ensures VaultOf(s) == Spec.Sync(old(VaultOf(s)), now) && OthersKept(s.id)
    {
      var connected := ConnectedPeers(s.id);
      var admitted := set p | p in connected && p in s.peers;
      assert admitted == Spec.Present(old(VaultOf(s)));
      s.participantCount := |admitted|;
      s.emptySince := if |admitted| == 0 then (if s.emptySince.Some? then s.emptySince else Some(now)) else None;
    }

    method ReclaimStaleSlots(s: Session, now: int)
      modifies this, s
      ensures VaultOf(s) == Spec.Reclaim(old(VaultOf(s)), now) && OthersKept(s.id)
    {
      var connected := ConnectedPeers(s.id);
      var stale := StalePeerIds(s.peers, connected, s.hostId, now);
      for i := 0 to |stale|
        invariant s.peers == old(s.peers) - set p | p in stale[..i]
        invariant s.View() == old(s.View()).(peers := s.peers)
        invariant connections == old(connections) && sessionPeers == old(sessionPeers)[s.id := connected]
      {
        assert stale[..i + 1] == stale[..i] + [stale[i]];
        s.peers := s.peers - {stale[i]};
      }
      assert stale[..|stale|] == stale;
      assert (set p | p in stale) == Spec.StaleIds(old(s.peers), connected, old(s.hostId), now);
    }

    method RegisterConnection(s: Session, p: PeerId, ws: Spec.Socket)
      modifies this
      ensures VaultOf(s) == Spec.Register(old(VaultOf(s)), p, ws) && OthersKept(s.id)
    {
      SocketPut(connections, s.id, p, ws);
      connections := connections[(s.id, p) := ws];
      var peers := ConnectedPeers(s.id);
      sessionPeers := sessionPeers[s.id := peers + {p}];
    }

    /** `draw` is the token drawn for a peer that has none yet; `None` is a full session. */
    method AdmitPeer(s: Session, p: PeerId, draw: Token, now: int) returns (token: Option<Token>)
      modifies this, s
      ensures (VaultOf(s), token) == Spec.Admit(old(VaultOf(s)), p, draw, now) && OthersKept(s.id)
    {
      ReclaimStaleSlots(s, now);
      var wasAlreadyAdmitted := Spec.Found(s.peers, p);
      if !wasAlreadyAdmitted && |s.peers| >= s.maxPeers { return None; }
      var t := if p in s.peers then s.peers[p].token else draw;
      s.peers := s.peers[p := Peer(now, now, t)];
      SyncPresence(s, now);
      if s.participantCount > 2 { s.isGroup := true; }
      s.status := Active;
      return Some(t);
    }

    method Enter(s: Session, p: PeerId, ws: Spec.Socket, draw: Token, now: int) returns (reply: Spec.Reply)
      modifies this, s
      ensures (VaultOf(s), reply) == Spec.Enter(old(VaultOf(s)), p, ws, draw, now) && OthersKept(s.id)
    {
      RegisterConnection(s, p, ws);
      var token := AdmitPeer(s, p, draw, now);
      if token.None? { return Spec.SessionFull; }
      return Spec.Joined(token.value);
    }

    method Join(session: Session?, j: Spec.JoinFrame, ws: Spec.Socket, open: set<Spec.Socket>, draw: Token, now: int)
      returns (reply: Spec.Reply)
      modifies this, session
      ensures session == null ==>
                reply == (if Spec.ValidPeerId(j.peer) then Spec.NotFound else Spec.InvalidFrame)
                && connections == old(connections) && sessionPeers == old(sessionPeers)
      ensures session != null ==>
                (VaultOf(session), reply) == Spec.Join(old(VaultOf(session)), j, ws, open, draw, now) && OthersKept(session.id)
    {
      if !Spec.ValidPeerId(j.peer) { return Spec.InvalidFrame; }
      if session == null { return Spec.NotFound; }
      ReclaimStaleSlots(session, now);
      reply := Decide(session, j, ws, open, draw, now);
    }

    method TakeHostRole(s: Session, p: PeerId)
      modifies s
      ensures VaultOf(s) == Spec.AsHost(old(VaultOf(s)), p)
    {
      if s.hostId != p {
        s.peers := s.peers - {s.hostId};
        s.hostId := p;
      }
    }

    /** The way in that `Spec.WayIn` names, taken by the checks one after the other. */
    method Decide(s: Session, j: Spec.JoinFrame, ws: Spec.Socket, open: set<Spec.Socket>, draw: Token, now: int)
      returns (reply: Spec.Reply)
      modifies this, s
      ensures (VaultOf(s), reply) == Spec.Decide(old(VaultOf(s)), j, ws, open, draw, now) && OthersKept(s.id)
    {
      if |s.peers| >= s.maxPeers && !Spec.Found(s.peers, j.peer) { return Spec.SessionFull; }
      if Spec.SafeEqual(j.hostRecovery, s.hostRecoveryToken) {
        TakeHostRole(s, j.peer);
        reply := Enter(s, j.peer, ws, draw, now);
        return;
      }
      reply := AsGuest(s, j, ws, open, draw, now);
    }

    /** The ways in for a peer that has not shown the recovery token. */
    method AsGuest(s: Session, j: Spec.JoinFrame, ws: Spec.Socket, open: set<Spec.Socket>, draw: Token, now: int)
      returns (reply: Spec.Reply)
      requires Spec.HasRoom(VaultOf(s), j.peer) && !Spec.SafeEqual(j.hostRecovery, s.hostRecoveryToken)
      modifies this, s
      ensures (VaultOf(s), reply) == Spec.Decide(old(VaultOf(s)), j, ws, open, draw, now) && OthersKept(s.id)
    {
      if j.peer == s.hostId { return Spec.BadHost; }
      if Spec.Found(s.peers, j.peer) {
        if j.peer !in s.peers || !Spec.SafeEqual(j.token, s.peers[j.peer].token) {
          if (s.id, j.peer) in connections && connections[(s.id, j.peer)] in open { return Spec.BadToken; }
        }
        reply := Enter(s, j.peer, ws, draw, now);
        return;
      }
      if j.membership != Spec.NoCredential && s.hostPublicKey.Some? {
        if j.membership != Spec.Vouched { return Spec.BadMembership(j.membership); }
        reply := Enter(s, j.peer, ws, draw, now);
        return;
      }
      reply := Knock(s, j.peer, ws, open, now);
    }

    method Knock(s: Session, p: PeerId, ws: Spec.Socket, open: set<Spec.Socket>, now: int) returns (reply: Spec.Reply)
      modifies this, s
      ensures (VaultOf(s), reply) == Spec.Knock(old(VaultOf(s)), p, ws, open, now) && OthersKept(s.id)
    {
      if (s.id, s.hostId) !in connections || connections[(s.id, s.hostId)] !in open { return Spec.HostOffline; }
      if p in s.pendingPeers {
        RegisterConnection(s, p, ws);
        return Spec.AwaitHost;
      }
      if |s.pendingPeers| >= MaxPendingPeers { return Spec.TooManyPending; }
      s.pendingPeers := s.pendingPeers[p := now];
      RegisterConnection(s, p, ws);
      return Spec.AwaitHost;
    }

    method AcceptJoin(session: Session?, caller: PeerId, target: PeerId, draw: Token, now: int) returns (reply: Spec.Reply)
      modifies this, session
      ensures session != null ==>
                (VaultOf(session), reply) == Spec.Accept(old(VaultOf(session)), caller, target, draw, now) && OthersKept(session.id)
      ensures session == null ==> reply == Spec.Silent && connections == old(connections) && sessionPeers == old(sessionPeers)
    {
      if session == null || session.hostId != caller { return Spec.Silent; }
      if !Spec.ValidPeerId(target) || !Spec.Found(session.pendingPeers, target) { return Spec.Silent; }
      var token := AdmitPeer(session, target, draw, now);
      if token.None? { return Spec.PeerLimit; }
      session.pendingPeers := session.pendingPeers - {target};
      return Spec.Joined(token.value);
    }

    method RejectJoin(session: Session?, caller: PeerId, target: PeerId)
      modifies this, session
      ensures session != null ==>
                VaultOf(session) == Spec.Reject(old(VaultOf(session)), caller, target) && OthersKept(session.id)
      ensures session == null ==> connections == old(connections) && sessionPeers == old(sessionPeers)
    {
      if session == null || session.hostId != caller { return; }
      if !Spec.ValidPeerId(target) || !Spec.Found(session.pendingPeers, target) { return; }
      session.pendingPeers := session.pendingPeers - {target};
      Forget(session, target);
    }

    /** Drops the socket registered for `p`, if there is one. */
    method Forget(s: Session, p: PeerId)
      modifies this
      ensures VaultOf(s) == old(VaultOf(s)).(sockets := old(SocketsOf(connections, s.id)) - {p})
      ensures OthersKept(s.id)
    {
      SocketDropped(connections, s.id, p);
      connections := connections - {(s.id, p)};
    }

    method KickPeer(session: Session?, caller: PeerId, target: PeerId, now: int)
      modifies this, session
      ensures session != null ==>
                VaultOf(session) == Spec.Kick(old(VaultOf(session)), caller, target, now) && OthersKept(session.id)
      ensures session == null ==> connections == old(connections) && sessionPeers == old(sessionPeers)
    {
      if session == null || session.hostId != caller || !session.isGroup { return; }
      if !Spec.ValidPeerId(target) || !Spec.Found(session.peers, target) || target == session.hostId { return; }
      session.peers := session.peers - {target};
      Unlist(session.id, target);
      SyncPresence(session, now);
      Forget(session, target);
    }

    method HandleClose(ws: Spec.Socket, sid: Id, p: PeerId, session: Session?, now: int)
      requires session != null ==> session.id == sid
      modifies this, session
      ensures session != null ==> VaultOf(session) == Spec.Close(old(VaultOf(session)), ws, p, now)
      ensures session == null && (sid, p) in old(connections) && old(connections)[(sid, p)] == ws ==>
                connections == old(connections) - {(sid, p)} && Connected(sid) == old(Connected(sid)) - {p}
      ensures !((sid, p) in old(connections) && old(connections)[(sid, p)] == ws) ==>
                connections == old(connections) && sessionPeers == old(sessionPeers)
      ensures OthersKept(sid)
    {
      if (sid, p) !in connections || connections[(sid, p)] != ws { return; }
      SocketDropped(connections, sid, p);
      connections := connections - {(sid, p)};
      Unlist(sid, p);
      assert OthersKept(sid);
      if session != null { Departed(session, p, now); }
    }

    /** The guest's place in the queue is freed, the member's grace period starts. */
    method Departed(s: Session, p: PeerId, now: int)
      modifies this, s
      ensures var v := old(VaultOf(s));
              VaultOf(s) == Spec.Sync(v.(f := v.f.(pending := v.f.pending - {p},
                peers := if p in v.f.peers then v.f.peers[p := v.f.peers[p].(lastSeenAt := now)] else v.f.peers)), now)
      ensures OthersKept(s.id)
    {
      s.pendingPeers := s.pendingPeers - {p};
      if p in s.peers {
        s.peers := s.peers[p := s.peers[p].(lastSeenAt := now)];
      }
      SyncPresence(s, now);
    }

    /** Closes every socket in the presence set of a session that has left the store. */
    method DisconnectSession(sid: Id)
      modifies this
      ensures Connected(sid) == {} && SocketsOf(connections, sid) == old(SocketsOf(connections, sid)) - old(Connected(sid))
      ensures OthersKept(sid)
    {
      var connected := ConnectedPeers(sid);
      var left := connected;
      ghost var gone: set<PeerId> := {};
      assert old(SocketsOf(connections, sid)) - {} == old(SocketsOf(connections, sid));
      while left != {}
        invariant left <= connected && sessionPeers == old(sessionPeers)[sid := connected]
        invariant forall t :: t != sid ==> SocketsOf(connections, t) == old(SocketsOf(connections, t))
        invariant gone + left == connected
        invariant SocketsOf(connections, sid) == old(SocketsOf(connections, sid)) - gone
        decreases left
      {
        var p :| p in left;
        left := left - {p};
        SocketDropped(connections, sid, p);
        DropTwice(old(SocketsOf(connections, sid)), gone, p);
        gone := gone + {p};
        if (sid, p) in connections {
          connections := connections - {(sid, p)};
        } else {
          DropAbsent(connections, (sid, p));
        }
      }
      sessionPeers := sessionPeers - {sid};
    }
  }
}
