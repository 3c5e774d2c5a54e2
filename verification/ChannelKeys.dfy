/** Where a client's key pairs and secrets come from: each channel draws its own. */
module ChannelKeys {
  import opened Common
  import opened Symbolic
  import opened Noise
  import opened PeerChannels
  import opened ChannelAgreement
  import opened ChannelNetwork
  import opened ChannelPhases
  import opened SafetyNumbers

  /** The key pairs a channel holds as its own, besides the client's static one. */
  function OwnKeys(c: Channel): set<KeyId> {
    {c.drKey} + (if c.hs.e.Some? then {c.hs.e.value} else {})
  }

  /** The KEM key pair of a responder. */
  function OwnKems(c: Channel): set<nat> { if c.kem.Some? then {c.kem.value} else {} }

  /** The secret an initiator has encapsulated. */
  function OwnSecrets(c: Channel): set<Secret> { if c.initiator && c.pqSecret.Some? then {c.pqSecret.value} else {} }

  /** What a call draws at random. */
  function DrawOf(e: Move): Option<Draw> {
    match e
    case Ensured(_, d) => Some(d)
    case Removed(_) => None
    case Received(_, _, _, _, d) => Some(d)
  }

  /** Everything drawn in a run: key pairs, KEM key pairs, secrets. */
  datatype Stock = Stock(keys: seq<KeyId>, kems: seq<nat>, secrets: seq<Secret>) {

    ghost predicate NothingTwice() { Distinct(keys) && Distinct(kems) && Distinct(secrets) }

    function With(d: Option<Draw>): Stock {
      if d.None? then this
      else Stock(keys + [d.value.dr, d.value.e], kems + [d.value.kem], secrets + [Seed(d.value.secret)])
    }
  }

  function Drawn(es: seq<Move>): Stock {
    if es == [] then Stock([], [], []) else Drawn(es[..|es| - 1]).With(DrawOf(es[|es| - 1]))
  }

  // ----- one call ----------------------------------------------------------------------------------

  lemma {:induction false} WriteTokensDraws(hs: Hs, ts: seq<Token>, kp: KeyId)
    ensures WriteTokens(hs, ts, kp).0.e == hs.e || WriteTokens(hs, ts, kp).0.e == Some(kp)
    decreases |ts|
  {
    if ts != [] && WriteToken(hs, ts[0], kp).1.Some? { WriteTokensDraws(WriteToken(hs, ts[0], kp).0, ts[1..], kp); }
  }

  /** Reading draws nothing, and writing at most the key it is given. */
  lemma MessageDraws(hs: Hs, m: Data, payload: Data, kp: KeyId)
    ensures ReadMessage(hs, m).0.e == hs.e
    ensures WriteMessage(hs, payload, kp).0.e == hs.e || WriteMessage(hs, payload, kp).0.e == Some(kp)
  {
    if hs.index < |PATTERNS| {
      ReadTokensFrame(hs, PATTERNS[hs.index], m);
      WriteTokensDraws(hs, PATTERNS[hs.index], kp);
    }
  }

  /** The ratchet key stays; the ephemeral key, the KEM key and the encapsulated secret stay or become those just drawn. */
  predicate KeysFrom(c: Channel, c2: Channel, d: Draw) {
    && c2.initiator == c.initiator && c2.drKey == c.drKey && (c2.hs.e == c.hs.e || c2.hs.e == Some(d.e))
    && (c2.kem == c.kem || c2.kem == Some(d.kem))
    && (c.initiator ==> c2.pqSecret == c.pqSecret || c2.pqSecret == Some(Seed(d.secret)))
  }

  lemma Step1Draws(c: Channel, peer: PeerId, data: Data, d: Draw)
    ensures KeysFrom(c, OnStep1(c, peer, data, d).0, d)
  {
    MessageDraws(c.hs, data, [], d.e);
    MessageDraws(ReadMessage(c.hs, data).0, data, [PubKey(c.drKey), KemPub(d.kem)], d.e);
  }

  lemma Step2Draws(c: Channel, peer: PeerId, data: Data, d: Draw)
    ensures KeysFrom(c, OnStep2(c, peer, data, d).0, d)
  {
    MessageDraws(c.hs, data, [], d.e);
    var answer := Step2Hs(c, peer, data, d);
    MessageDraws(ReadMessage(c.hs, data).0, data, answer, d.e);
    Step2Rest(c, peer, data, d);
  }

  /** Reading message 2 leaves the channel's own keys alone, and encapsulates at most the secret it is given. */
  lemma Step2Rest(c: Channel, peer: PeerId, data: Data, d: Draw)
    ensures var c2 := OnStep2(c, peer, data, d).0;
            && c2.initiator == c.initiator && c2.drKey == c.drKey && c2.kem == c.kem
            && (c2.pqSecret == c.pqSecret || c2.pqSecret == Some(Seed(d.secret)))
  {
  }

  lemma Step3Draws(c: Channel, data: Data, d: Draw)
    requires !c.initiator
    ensures KeysFrom(c, OnStep3(c, data), d)
  {
    MessageDraws(c.hs, data, [], d.e);
    Step3Hs(c, data);
  }

  /** What a call may do to the keys of one channel: keep them, or replace them by what it draws. */
  predicate KeysMove(was: Option<Channel>, c: Channel, d: Draw) {
    || (was.Some? && KeysFrom(was.value, c, d))
    || (c.drKey == d.dr && (c.hs.e.None? || c.hs.e == Some(d.e)) && (c.kem.None? || c.kem == Some(d.kem))
        && (c.initiator ==> c.pqSecret.None? || c.pqSecret == Some(Seed(d.secret))))
  }

  lemma EnsureMoves(m: Manager, p: PeerId, d: Draw)
    ensures var m2 := EnsureChannel(m, p, d).0; p in m2.channels ==> KeysMove(ChanIn(m, p), m2.channels[p], d)
  {
    MessageDraws(NewChannel(m, p, d).hs, [], [], d.e);
  }

  lemma FrameMoves(m: Manager, from: PeerId, to: PeerId, step: nat, data: Option<Data>, d: Draw)
    ensures var m2 := OnFrame(m, from, to, step, data, d).0; from in m2.channels ==> KeysMove(ChanIn(m, from), m2.channels[from], d)
  {
    if to == m.selfId && step == 0 {
      EnsureMoves(RemovePeer(m, from), from, d);
    } else if to == m.selfId && data.Some? {
      var c := if from !in m.channels || step == 1 then NewChannel(m, from, d) else m.channels[from];
      if c.initiator && step == 2 {
        Step2Draws(c, from, data.value, d);
      } else if !c.initiator && step == 1 {
        Step1Draws(c, from, data.value, d);
      } else if !c.initiator && step == 3 {
        Step3Draws(c, data.value, d);
      }
    }
  }

  /** The draw of a call and the peer it is about. */
  lemma MoveKeys(m: Manager, e: Move, p: PeerId)
    ensures var m2 := MoveStep(m, e);
            p in m2.channels ==>
              || (p in m.channels && m2.channels[p] == m.channels[p])
              || (e.Ensured? && e.peer == p && KeysMove(ChanIn(m, p), m2.channels[p], e.d))
              || (e.Received? && e.from == p && KeysMove(ChanIn(m, p), m2.channels[p], e.d))
  {
    match e
    case Ensured(peer, d) =>
      EnsureMoves(m, peer, d);
      EnsureEffect(m, peer, d);
    case Removed(peer) =>
    case Received(from, to, step, data, d) =>
      FrameMoves(m, from, to, step, data, d);
      FrameLocal(m, from, to, step, data, d);
      if p != from && p in MoveStep(m, e).channels {
        assert p in MoveStep(m, e).channels - {from} && p in m.channels - {from};
        OthersKept(m, MoveStep(m, e), from, p);
      }
  }

  // ----- every run -----------------------------------------------------------------------------------

  /** All were drawn in the run; no two channels share one, and no channel uses one key pair twice. */
  ghost predicate KeysApart(m: Manager, st: Stock) {
    && (forall p :: p in m.channels ==> DrawnFrom(m.channels[p], st) && m.channels[p].hs.e != Some(m.channels[p].drKey))
    && (forall p, q :: p in m.channels && q in m.channels && p != q ==> Apart(m.channels[p], m.channels[q]))
  }

  ghost predicate DrawnFrom(c: Channel, st: Stock) {
    && (forall k :: k in OwnKeys(c) ==> k in st.keys)
    && (forall k :: k in OwnKems(c) ==> k in st.kems)
    && (forall k :: k in OwnSecrets(c) ==> k in st.secrets)
  }

  predicate Apart(c: Channel, q: Channel) {
    OwnKeys(c) !! OwnKeys(q) && OwnKems(c) !! OwnKems(q) && OwnSecrets(c) !! OwnSecrets(q)
  }

  lemma DistinctSplits<T>(a: seq<T>, b: seq<T>)
    requires Distinct(a + b)
    ensures Distinct(a) && Distinct(b) && forall k :: k in b ==> k !in a
  {
    assert forall i :: 0 <= i < |a| ==> (a + b)[i] == a[i];
    assert forall i :: 0 <= i < |b| ==> (a + b)[|a| + i] == b[i];
  }

  /** A new draw gives nothing the run has drawn before. */
  lemma DrawIsNew(st: Stock, d: Draw)
    requires st.With(Some(d)).NothingTwice()
    ensures st.NothingTwice() && d.dr !in st.keys && d.e !in st.keys && d.dr != d.e
    ensures d.kem !in st.kems && Seed(d.secret) !in st.secrets
  {
    DistinctSplits(st.keys, [d.dr, d.e]);
    DistinctSplits(st.kems, [d.kem]);
    DistinctSplits(st.secrets, [Seed(d.secret)]);
    assert [d.dr, d.e][0] != [d.dr, d.e][1];
    assert [d.dr, d.e][0] in [d.dr, d.e] && [d.dr, d.e][1] in [d.dr, d.e];
  }

  /** The channel whose keys move stays apart from another, and drawn in the run. */
  lemma MovedApart(was: Option<Channel>, c: Channel, d: Draw, st: Stock)
    requires KeysMove(was, c, d) && st.With(Some(d)).NothingTwice()
    requires was.Some? ==> DrawnFrom(was.value, st) && was.value.hs.e != Some(was.value.drKey)
    ensures DrawnFrom(c, st.With(Some(d))) && c.hs.e != Some(c.drKey)
    ensures forall q :: DrawnFrom(q, st) && (was.Some? ==> Apart(was.value, q)) ==> Apart(c, q) && Apart(q, c)
  {
    DrawIsNew(st, d);
  }

  lemma MoveApart(m: Manager, e: Move, st: Stock)
    requires KeysApart(m, st) && st.With(DrawOf(e)).NothingTwice()
    ensures KeysApart(MoveStep(m, e), st.With(DrawOf(e)))
  {
    var m2 := MoveStep(m, e);
    forall p | p in m2.channels
      ensures DrawnFrom(m2.channels[p], st.With(DrawOf(e))) && m2.channels[p].hs.e != Some(m2.channels[p].drKey)
      ensures forall q :: q in m2.channels && q != p ==> Apart(m2.channels[p], m2.channels[q])
    {
      ChannelApart(m, e, st, p);
    }
  }

  lemma ChannelApart(m: Manager, e: Move, st: Stock, p: PeerId)
    requires KeysApart(m, st) && st.With(DrawOf(e)).NothingTwice() && p in MoveStep(m, e).channels
    ensures var m2 := MoveStep(m, e);
            && DrawnFrom(m2.channels[p], st.With(DrawOf(e))) && m2.channels[p].hs.e != Some(m2.channels[p].drKey)
            && forall q :: q in m2.channels && q != p ==> Apart(m2.channels[p], m2.channels[q])
  {
    var m2 := MoveStep(m, e);
    MoveKeys(m, e, p);
    var moves := (e.Ensured? && e.peer == p) || (e.Received? && e.from == p);
    if moves && !(p in m.channels && m2.channels[p] == m.channels[p]) {
      MovedApart(ChanIn(m, p), m2.channels[p], e.d, st);
      forall q | q in m2.channels && q != p ensures Apart(m2.channels[p], m2.channels[q]) { MoveKeys(m, e, q); }
    } else {
      forall q | q in m2.channels && q != p ensures Apart(m2.channels[p], m2.channels[q]) {
        MoveKeys(m, e, q);
        if !(q in m.channels && m2.channels[q] == m.channels[q]) { MovedApart(ChanIn(m, q), m2.channels[q], e.d, st); }
      }
    }
  }

  /**
   Over any calls and any frames: if no two draws of the client's run give the
   same thing, no two channels it holds share a ratchet, an ephemeral or a KEM key
   pair or an encapsulated secret, none uses one pair as ratchet and ephemeral
   key, and all of them were drawn in the run.
   */
  lemma {:induction false} KeysAreFresh(m: Manager, es: seq<Move>)
    requires m.channels == map[] && Drawn(es).NothingTwice()
    ensures KeysApart(MoveRun(m, es), Drawn(es))
  {
    if es != [] {
      var front, e := es[..|es| - 1], es[|es| - 1];
      if DrawOf(e).Some? { DrawIsNew(Drawn(front), DrawOf(e).value); }
      KeysAreFresh(m, front);
      MoveApart(MoveRun(m, front), e, Drawn(front));
    }
  }
}
