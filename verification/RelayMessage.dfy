/** What becomes of one envelope at the relay, and of the same envelope when it is sent again. */
module RelayMessage {
  import opened Common
  import opened OrderedMap
  import opened ReplayCache

  type PeerId = string

  datatype Envelope = Envelope(sessionId: string, from: PeerId, nonce: string, payload: string, plaintext: bool)

  datatype Outcome =
    | SessionNotFound | InvalidEnvelope | DuplicateNonce | RecipientNotJoined | RecipientOffline
    | Relayed(delivered: set<PeerId>)

  function KeyOf(e: Envelope): Key { EnvelopeKey(e.sessionId, e.from, e.nonce) }

  predicate WellFormed(e: Envelope) { e.payload != "" && !e.plaintext }

  /** `peers` are the members of the envelope's session, if there is one; `online` those a frame can be handed to. */
  function Execute(m: Cache, e: Envelope, peers: Option<set<PeerId>>, online: set<PeerId>, now: int): (r: (Cache, Outcome))
    requires m.Valid()
    ensures r.0.Valid()
  {
    if peers.None? then (m, SessionNotFound)
    else if !WellFormed(e) then (m, InvalidEnvelope)
    else
      var (m2, isNew) := Offer(Envelopes, m, KeyOf(e), now);
      var others := peers.value - {e.from};
      if !isNew then (m2, DuplicateNonce)
      else if others == {} then (m2, RecipientNotJoined)
      else if others * online == {} then (m2, RecipientOffline)
      else (m2, Relayed(others * online))
  }

  /** An unknown session comes before an envelope that is not fit to be relayed; neither spends the nonce. */
  lemma RefusedUnread(m: Cache, e: Envelope, peers: Option<set<PeerId>>, online: set<PeerId>, now: int)
    requires m.Valid()
    ensures var (m2, r) := Execute(m, e, peers, online, now);
            && (r.SessionNotFound? <==> peers.None?)
            && (r.InvalidEnvelope? <==> peers.Some? && (e.payload == "" || e.plaintext))
            && (r.SessionNotFound? || r.InvalidEnvelope? ==> m2 == m)
  {
  }

  /** Each refusal is given exactly when its reason is the first to apply. */
  lemma RefusedExactly(m: Cache, e: Envelope, peers: set<PeerId>, online: set<PeerId>, now: int)
    requires m.Valid() && WellFormed(e)
    ensures var r := Execute(m, e, Some(peers), online, now).1;
            && (r.DuplicateNonce? <==> KeyOf(e) in m.vals)
            && (r.RecipientNotJoined? <==> KeyOf(e) !in m.vals && peers <= {e.from})
            && (r.RecipientOffline? <==> KeyOf(e) !in m.vals && !(peers <= {e.from}) && peers * online <= {e.from})
            && (r.Relayed? ==> forall p :: p in r.delivered <==> p in peers && p != e.from && p in online)
  {
    assert peers - {e.from} == {} <==> peers <= {e.from};
    assert (peers - {e.from}) * online == {} <==> peers * online <= {e.from};
  }

  /** An envelope that got as far as its recipients has spent its nonce, whether it was relayed or refused. */
  lemma NonceIsSpent(m: Cache, e: Envelope, peers: set<PeerId>, online: set<PeerId>, now: int)
    requires m.Valid() && WellFormed(e) && KeyOf(e) !in m.vals
    ensures var (m2, r) := Execute(m, e, Some(peers), online, now);
            !r.DuplicateNonce? && KeyOf(e) in m2.vals && m2.vals[KeyOf(e)] == now
  {
  }

  /**
   Sent again, an envelope is refused as a duplicate if and only if its key is
   still in the cache; and there it is for two minutes, unless a whole cacheful
   of other envelopes was accepted since.
   */
  lemma {:induction false} ResendIsDuplicate(es: seq<Event>, i: nat, e: Envelope, peers: set<PeerId>, online: set<PeerId>, now: int)
    requires ClockRuns(es) && i < |es| && WellFormed(e)
    requires Log(Envelopes, es)[i].accepted && es[i].key == KeyOf(e)
    ensures var r := Execute(After(Envelopes, es), e, Some(peers), online, now).1;
            && (r.DuplicateNonce? <==> KeyOf(e) in After(Envelopes, es).vals)
            && (StillRecent(es, i) ==> r.DuplicateNonce?)
  {
    RefusedExactly(After(Envelopes, es), e, peers, online, now);
    if StillRecent(es, i) { RecentIsKept(es, i, KeyOf(e)); }
  }

  /** Neither two minutes nor a cacheful of other envelopes have passed since event `i`. */
  predicate StillRecent(es: seq<Event>, i: nat)
    requires i < |es|
  {
    EndTime(es) - es[i].at <= MaxAgeMs && Since(Log(Envelopes, es), i) < NonceCacheMax
  }

  lemma {:induction false} RecentIsKept(es: seq<Event>, i: nat, k: Key)
    requires ClockRuns(es) && i < |es| && es[i] == Offered(k, es[i].at)
    requires Log(Envelopes, es)[i].accepted && StillRecent(es, i)
    ensures k in After(Envelopes, es).vals
  {
    CacheRemembers(Envelopes, es);
    LastCovers(Log(Envelopes, es), i, k);
  }

  /** An envelope refused because nobody was reachable is refused again, as a duplicate, once everybody is. */
  lemma RefusedThenDuplicate(e: Envelope, peers: set<PeerId>, now: int, later: int)
    requires WellFormed(e) && !(peers <= {e.from})
    ensures var (m, first) := Execute(Empty(), e, Some(peers), {}, now);
            first == RecipientOffline && Execute(m, e, Some(peers), peers, later).1 == DuplicateNonce
  {
    RefusedExactly(Empty(), e, peers, {}, now);
    NonceIsSpent(Empty(), e, peers, {}, now);
  }
}
