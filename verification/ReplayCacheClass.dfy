/** The relay use case and the transport's proof guard, with their maps updated in place. */
module ReplayCacheClass {
  import opened Common
  import opened OrderedMap
  import Spec = ReplayCache
  import Relay = RelayMessage
  import opened Sessions

  class RelayMessage {
    var seenNonces: Spec.Cache

    constructor ()
      ensures seenNonces == Empty()
    {
      seenNonces := OMap([], map[]);
    }

    method PruneNonces(now: int)
      requires seenNonces.Valid()
      modifies this
      ensures seenNonces == Spec.MakeRoom(Spec.Envelopes, old(seenNonces), now)
    {
      var cutoff := now - Spec.MaxAgeMs;
      IterationSifts(seenNonces, Spec.Young(now));
      var i := 0;
      while i < |seenNonces.keys|
        invariant seenNonces.Valid()
        invariant Iterate(seenNonces, i, Spec.Young(now)) == Iterate(old(seenNonces), 0, Spec.Young(now))
        decreases |seenNonces.keys| - i
      {
        var k := seenNonces.keys[i];
        if seenNonces.vals[k] < cutoff {
          DeleteAt(seenNonces, i);
          seenNonces := seenNonces.Delete(k);
        } else {
          assert seenNonces.Set(k, seenNonces.vals[k]) == seenNonces;
          i := i + 1;
        }
      }
      while |seenNonces.keys| >= Spec.NonceCacheMax
        invariant seenNonces.Valid()
        invariant Spec.EvictOldest(seenNonces) == Spec.EvictOldest(Spec.Prune(old(seenNonces), now))
        decreases |seenNonces.keys|
      {
        var oldest := seenNonces.keys[0];
        DeleteAt(seenNonces, 0);
        seenNonces := seenNonces.Delete(oldest);
      }
    }

    method IsReplay(e: Relay.Envelope, now: int) returns (replay: bool)
      requires seenNonces.Valid()
      modifies this
      ensures (seenNonces, !replay)
           == Spec.Offer(Spec.Envelopes, old(seenNonces), Relay.KeyOf(e), now)
    {
      var key := Relay.KeyOf(e);
      if key in seenNonces.vals { return true; }
      if |seenNonces.keys| >= Spec.NonceCacheMax { PruneNonces(now); }
      seenNonces := seenNonces.Set(key, now);
      return false;
    }

    /**
     `session` is what the store has under the envelope's session id, `online`
     the peers a frame can be handed to. Only a relayed envelope counts as
     activity of the session.
     */
    method Execute(e: Relay.Envelope, session: Session?, online: set<PeerId>, now: int) returns (r: Relay.Outcome)
      requires seenNonces.Valid()
      modifies this, session
      ensures (seenNonces, r) == Relay.Execute(old(seenNonces), e,
                if session == null then None else Some(old(session.peers).Keys), online, now)
      ensures session != null ==>
                session.View() == if r.Relayed? then old(session.View()).(lastActivityAt := now) else old(session.View())
    {
      if session == null { return Relay.SessionNotFound; }
      if |e.payload| == 0 || e.plaintext { return Relay.InvalidEnvelope; }
      var replay := IsReplay(e, now);
      if replay { return Relay.DuplicateNonce; }
      var destinations := session.peers.Keys - {e.from};
      if destinations == {} { return Relay.RecipientNotJoined; }
      var delivered := destinations * online;
      if delivered == {} { return Relay.RecipientOffline; }
      session.lastActivityAt := now;
      return Relay.Relayed(delivered);
    }
  }

  class ProofGuard {
    var usedProofNonces: Spec.Cache

    constructor ()
      ensures usedProofNonces == Empty()
    {
      usedProofNonces := OMap([], map[]);
    }

    method ConsumeProofNonce(sessionId: string, nonce: string, now: int) returns (ok: bool)
      requires usedProofNonces.Valid()
      modifies this
      ensures (usedProofNonces, ok) == Spec.Offer(Spec.Proofs, old(usedProofNonces), Spec.ProofKey(sessionId, nonce), now)
    {
      var key := Spec.ProofKey(sessionId, nonce);
      if key in usedProofNonces.vals { return false; }
      if |usedProofNonces.keys| >= Spec.NonceCacheMax {
        var oldest := usedProofNonces.keys[0];
        usedProofNonces := usedProofNonces.Delete(oldest);
      }
      usedProofNonces := usedProofNonces.Set(key, now);
      return true;
    }

    /** This map's share of the periodic sweep. */
    method PruneStale(now: int)
      requires usedProofNonces.Valid()
      modifies this
      ensures usedProofNonces == Spec.Prune(old(usedProofNonces), now)
    {
      IterationSifts(usedProofNonces, Spec.Young(now));
      var i := 0;
      while i < |usedProofNonces.keys|
        invariant usedProofNonces.Valid()
        invariant Iterate(usedProofNonces, i, Spec.Young(now)) == Iterate(old(usedProofNonces), 0, Spec.Young(now))
        decreases |usedProofNonces.keys| - i
      {
        var k := usedProofNonces.keys[i];
        if now - usedProofNonces.vals[k] > Spec.MaxAgeMs {
          DeleteAt(usedProofNonces, i);
          usedProofNonces := usedProofNonces.Delete(k);
        } else {
          assert usedProofNonces.Set(k, usedProofNonces.vals[k]) == usedProofNonces;
          i := i + 1;
        }
      }
    }
  }
}
