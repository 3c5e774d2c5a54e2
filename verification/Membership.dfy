/**
 The binding checks and freshness window of a membership join, and what the
 replay guard adds to them. Whether each signature verifies is an argument; a
 signature or key that does not decode is `None`.

 Neither the token's expiry nor the proof's timestamp is checked to be a number.
 Each is the number arithmetic makes of it, or `None` if that is NaN, with
 which every comparison is false.
 */
module Membership {
  import opened Common
  import opened OrderedMap
  import opened ReplayCache

  const Version := 1
  const JoinProofToleranceMs := 60000

  datatype Claims = Claims(v: int, sid: string, exp: Option<int>, mpk: string)

  datatype JoinProof = JoinProof(sessionId: string, peerId: string, mpk: string, timestamp: Option<int>, nonce: string)

  datatype Refusal =
    | UnsupportedVersion | NotForThisVault | TokenExpired | BindingMismatch | KeyMismatch
    | OutOfTolerance | MalformedToken | TokenInvalid | MalformedProof | ProofInvalid

  function Abs(x: int): nat { if x < 0 then -x else x }

  function VerifyMembership(sessionId: string, peerId: string, claims: Claims, proof: JoinProof, now: int,
                            hostSig: Option<bool>, memberSig: Option<bool>): Result<string, Refusal>
  {
    if claims.v != Version then Err(UnsupportedVersion)
    else if claims.sid != sessionId then Err(NotForThisVault)
    else if claims.exp.Some? && claims.exp.value < now then Err(TokenExpired)
    else if proof.sessionId != sessionId || proof.peerId != peerId then Err(BindingMismatch)
    else if proof.mpk != claims.mpk then Err(KeyMismatch)
    else if proof.timestamp.Some? && Abs(now - proof.timestamp.value) > JoinProofToleranceMs then Err(OutOfTolerance)
    else if hostSig.None? then Err(MalformedToken)
    else if !hostSig.value then Err(TokenInvalid)
    else if memberSig.None? then Err(MalformedProof)
    else if !memberSig.value then Err(ProofInvalid)
    else Ok(claims.mpk)
  }

  /**
   A join is accepted if and only if the token is of version 1, for this session
   and not past its expiry, the proof names this session, this peer and the
   token's key and is at most a minute off either way, and both signatures hold.
   */
  lemma AcceptsExactly(sessionId: string, peerId: string, claims: Claims, proof: JoinProof, now: int,
                       hostSig: Option<bool>, memberSig: Option<bool>)
    ensures VerifyMembership(sessionId, peerId, claims, proof, now, hostSig, memberSig) == Ok(proof.mpk)
       <==> && claims.v == 1 && claims.sid == sessionId && (claims.exp.Some? ==> now <= claims.exp.value)
            && proof.sessionId == sessionId && proof.peerId == peerId && proof.mpk == claims.mpk
            && (proof.timestamp.Some? ==> -60000 <= now - proof.timestamp.value <= 60000)
            && hostSig == Some(true) && memberSig == Some(true)
    ensures VerifyMembership(sessionId, peerId, claims, proof, now, hostSig, memberSig).Ok?
       ==> VerifyMembership(sessionId, peerId, claims, proof, now, hostSig, memberSig) == Ok(proof.mpk)
  {
  }

  /** At `now` the proof gets past every check but the replay guard, under the token with these claims. */
  predicate Passes(claims: Claims, proof: JoinProof, now: int) {
    VerifyMembership(proof.sessionId, proof.peerId, claims, proof, now, Some(true), Some(true)).Ok?
  }

  /** Event `i` of the guard's run lets the proof in. */
  ghost predicate LetIn(es: seq<Event>, i: nat, claims: Claims, proof: JoinProof) {
    && i < |es| && es[i] == Offered(ProofKey(proof.sessionId, proof.nonce), es[i].at)
    && Passes(claims, proof, es[i].at) && Log(Proofs, es)[i].accepted
  }

  /**
   A proof whose timestamp is a number is let in twice, under whatever tokens,
   only if a whole cacheful of other proofs was accepted in between: its
   validity is never longer than the guard remembers.
   */
  lemma ProofServesOnce(es: seq<Event>, i: nat, j: nat, first: Claims, second: Claims, proof: JoinProof)
    requires ClockRuns(es) && i < j && proof.timestamp.Some?
    requires LetIn(es, i, first, proof) && LetIn(es, j, second, proof)
    ensures Acceptances(Log(Proofs, es), i + 1, j) >= NonceCacheMax
  {
    ReplayIsCaught(Proofs, es, i, j);
  }

  // ----- timestamps that are no number ---------------------------------------------------------

  /** One more event, after those before it. */
  lemma {:induction false} OneMoreEvent(es: seq<Event>, e: Event)
    ensures After(Proofs, es + [e])
         == (match e case Offered(k, at) => Offer(Proofs, After(Proofs, es), k, at).0 case Swept(at) => Prune(After(Proofs, es), at))
    ensures Log(Proofs, es + [e])
         == Log(Proofs, es) + [Record(e, e.Offered? && Offer(Proofs, After(Proofs, es), e.key, e.at).1)]
  {
    assert (es + [e])[..|es|] == es;
  }

  /** The proof, a sweep two minutes later, and the proof again. */
  function Again(k: Key, at: int): seq<Event> {
    [] + [Offered(k, at)] + [Swept(at + MaxAgeMs + 1)] + [Offered(k, at + MaxAgeMs + 1)]
  }

  lemma {:induction false} OneKeySwept(k: Key, at: int)
    ensures Offer(Proofs, Empty(), k, at) == (OMap([k], map[k := at]), true)
    ensures k !in Prune(OMap([k], map[k := at]), at + MaxAgeMs + 1).vals
  {
    assert [] + [k] == [k];
  }

  lemma {:induction false} AgainLog(k: Key, at: int)
    ensures Log(Proofs, Again(k, at))
         == [] + [Record(Offered(k, at), true)] + [Record(Swept(at + MaxAgeMs + 1), false)]
            + [Record(Offered(k, at + MaxAgeMs + 1), true)]
  {
    var e0: seq<Event> := [];
    var e1 := e0 + [Offered(k, at)];
    OneKeySwept(k, at);
    OneMoreEvent(e0, Offered(k, at));
    OneMoreEvent(e1, Swept(at + MaxAgeMs + 1));
    OneMoreEvent(e1 + [Swept(at + MaxAgeMs + 1)], Offered(k, at + MaxAgeMs + 1));
  }

  lemma {:induction false} AgainAccepted(k: Key, at: int)
    ensures var log := Log(Proofs, Again(k, at));
            ClockRuns(Again(k, at)) && log[0].accepted && log[2].accepted && Acceptances(log, 1, 2) == 0
  {
    AgainLog(k, at);
  }

  /** The token is good for the proof while it lasts. */
  predicate Matches(claims: Claims, proof: JoinProof) {
    claims.v == Version && claims.sid == proof.sessionId && claims.mpk == proof.mpk
  }

  /** A proof without a numeric timestamp is let in again after the sweep, with nothing in between. */
  lemma ProofServesTwice(claims: Claims, proof: JoinProof, at: int)
    requires Matches(claims, proof) && proof.timestamp.None?
    requires claims.exp.Some? ==> at + MaxAgeMs + 1 <= claims.exp.value
    ensures var es := Again(ProofKey(proof.sessionId, proof.nonce), at);
            ClockRuns(es) && LetIn(es, 0, claims, proof) && LetIn(es, 2, claims, proof)
            && Acceptances(Log(Proofs, es), 1, 2) == 0
  {
    AgainAccepted(ProofKey(proof.sessionId, proof.nonce), at);
  }

  /** In every run, two uses of the proof under the token have a cacheful between them. */
  ghost predicate ServesOnce(claims: Claims, proof: JoinProof) {
    forall es, i: nat, j: nat :: ClockRuns(es) && i < j && LetIn(es, i, claims, proof) && LetIn(es, j, claims, proof)
      ==> Acceptances(Log(Proofs, es), i + 1, j) >= NonceCacheMax
  }

  /** The guard makes a proof single-use exactly when its timestamp is a number. */
  lemma ServesOnceExactly(claims: Claims, proof: JoinProof)
    requires Matches(claims, proof)
    ensures ServesOnce(claims, proof) <==> proof.timestamp.Some?
  {
    if proof.timestamp.Some? {
      forall es, i: nat, j: nat | ClockRuns(es) && i < j && LetIn(es, i, claims, proof) && LetIn(es, j, claims, proof)
        ensures Acceptances(Log(Proofs, es), i + 1, j) >= NonceCacheMax
      {
        ProofServesOnce(es, i, j, claims, claims, proof);
      }
    } else {
      var at := if claims.exp.Some? then claims.exp.value - MaxAgeMs - 1 else 0;
      ProofServesTwice(claims, proof, at);
      var es := Again(ProofKey(proof.sessionId, proof.nonce), at);
      assert LetIn(es, 0, claims, proof) && LetIn(es, 2, claims, proof);
    }
  }
}
