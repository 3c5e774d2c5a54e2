/**
 What a frame makes of a channel, whoever made the frame up: which ones settle a
 handshake and how, and which ones cost a ready channel.
 */
module ChannelPhases {
  import opened Common
  import opened Symbolic
  import opened Noise
  import opened PeerChannels
  import opened ChannelAgreement
  import opened ChannelNetwork
  import opened ChannelConvergence
  import opened SafetyNumbers
  import opened HandshakeSecrets

  // ----- how a handshake settles ------------------------------------------------------------------

  /** Message 1 is the first 32 bytes; the responder answers exactly if they are a public key, and fails otherwise. */
  lemma Message1Settles(c: Channel, peer: PeerId, data: Data, d: Draw)
    requires !c.initiator && !c.hs.initiator && Unbegun(c.hs) && c.phase == Handshaking
    ensures var (c2, out) := OnStep1(c, peer, data, d);
            if IsKey(Slice(data, DHLEN).0) then c2.phase == Handshaking && c2.hs.index == 2 && out.Some? && out.value.step == 2
            else c2.phase == Failed && out == None
  {
    FirstRead(c.hs, data);
    var hs1, offer := ReadMessage(c.hs, data).0, [PubKey(c.drKey), KemPub(d.kem)];
    assert hs1.re == Some(Slice(data, DHLEN).0) by { FirstReadKey(c.hs, data); }
    SecondWrite(hs1, offer, d.e);
    if IsKey(hs1.re.value) {
      assert hs1.re.value == [PubKey(hs1.re.value[0].id)];
      WriteTwoKeys(hs1, hs1.re.value[0].id, offer, d.e);
    }
  }

  lemma FirstReadKey(hs: Hs, m: Data)
    requires hs.index == 0
    ensures ReadMessage(hs, m).0.re == Some(Slice(m, DHLEN).0)
  {
    assert PATTERNS[0] == [E] && [E][1..] == [];
    assert ReadTokens(hs, [E], m).0 == ReadToken(hs, E, m).0;
  }

  /**
   A frame read as message 2 settles an initiator that waits for one: it is ready
   and has sent message 3 exactly if the frame opens to a ratchet key and a KEM
   key, and has failed otherwise.
   */
  lemma Message2Settles(c: Channel, peer: PeerId, data: Data, d: Draw)
    requires InitiatorShape(c) && c.hs.initiator && c.hs.index == 1
    ensures var (c2, out) := OnStep2(c, peer, data, d);
            if IsOffer(ReadMessage(c.hs, data).1) then c2.phase == Ready && out.Some? && out.value.step == 3
            else c2.phase == Failed
  {
    var (hs1, payload) := ReadMessage(c.hs, data);
    if payload.Some? {
      ReadTwoKeys(c.hs, data);
      assert hs1.re.value == [PubKey(hs1.re.value[0].id)];
      if IsOffer(payload) {
        OfferSplits(payload.value);
        Message2Offered(c, peer, data, d);
      } else {
        Message2Unoffered(c, peer, data, d);
      }
    }
  }

  lemma OfferSplits(p: Data)
    requires IsOffer(Some(p))
    ensures SplitPayload(p) == Some(([p[0]], [p[1]])) && Len([p[1]]) == KEM_PUBLIC_KEY_BYTES
  {
    SplitOfferOf(p[0].id, p[1].kem);
    assert p == [PubKey(p[0].id), KemPub(p[1].kem)];
  }

  lemma Message2Offered(c: Channel, peer: PeerId, data: Data, d: Draw)
    requires InitiatorShape(c) && c.hs.initiator && c.hs.index == 1
    requires var (hs1, payload) := ReadMessage(c.hs, data);
             && IsOffer(payload) && SplitPayload(payload.value) == Some(([payload.value[0]], [payload.value[1]]))
             && Len([payload.value[1]]) == KEM_PUBLIC_KEY_BYTES
             && hs1.index == 2 && hs1.initiator && hs1.re.Some? && IsKey(hs1.re.value) && hs1.sym.cipher.k.Some?
    ensures var (c2, out) := OnStep2(c, peer, data, d);
            c2.phase == Ready && out.Some? && out.value.step == 3
  {
    var (hs1, payload) := ReadMessage(c.hs, data);
    var answer := [PubKey(c.drKey)] + [KemCt(payload.value[1].kem, Seed(d.secret))];
    assert hs1.re.value == [PubKey(hs1.re.value[0].id)];
    WriteThreeKeys(hs1, hs1.re.value[0].id, answer, d.e);
  }

  /** What opens to anything else is refused, sooner or later. */
  lemma Message2Unoffered(c: Channel, peer: PeerId, data: Data, d: Draw)
    requires InitiatorShape(c) && c.hs.initiator && c.hs.index == 1 && !IsOffer(ReadMessage(c.hs, data).1)
    requires var (hs1, payload) := ReadMessage(c.hs, data);
             payload.Some? && hs1.index == 2 && hs1.initiator && hs1.re.Some? && IsKey(hs1.re.value) && hs1.sym.cipher.k.Some?
    ensures OnStep2(c, peer, data, d).0.phase == Failed
  {
    var (hs1, payload) := ReadMessage(c.hs, data);
    if SplitPayload(payload.value).Some? {
      var (drKey, blob) := SplitPayload(payload.value).value;
      if Encapsulate(blob, d.secret).Some? {
        assert hs1.re.value == [PubKey(hs1.re.value[0].id)];
        WriteThreeKeys(hs1, hs1.re.value[0].id, [PubKey(c.drKey)] + Encapsulate(blob, d.secret).value.0, d.e);
        if IsKey(drKey) {
          SplitOffer(payload.value);
          assert false;
        }
      }
    }
  }

  /** A payload of message 3: a ratchet key and as many bytes as a KEM ciphertext has. */
  predicate IsAnswer(payload: Option<Data>) {
    && payload.Some? && Len(payload.value) > DHLEN && IsKey(Slice(payload.value, DHLEN).0)
    && Len(Slice(payload.value, DHLEN).1) == KEM_CIPHERTEXT_BYTES
  }

  /**
   A frame read as message 3 settles a responder that waits for one: it is ready
   exactly if the frame opens to a ratchet key and something of a ciphertext's
   length, and has failed otherwise.
   */
  lemma Message3Settles(c: Channel, data: Data)
    requires Keyed(c, c.hs.s) && !c.initiator && c.hs.index == 2 && c.kem.Some?
    ensures OnStep3(c, data).phase == if IsAnswer(ReadMessage(c.hs, data).1) then Ready else Failed
  {
    if ReadMessage(c.hs, data).1.Some? { ReadThreeAny(c.hs, data); }
  }

  /**
   The secret a responder that message 3 makes ready puts into its root is the one
   in the ciphertext, if and only if the ciphertext was made for its own KEM key;
   any other gives a secret that nobody encapsulated.
   */
  lemma Message3Secret(c: Channel, data: Data, secret: Secret)
    requires Keyed(c, c.hs.s) && !c.initiator && c.hs.index == 2 && c.kem.Some?
    requires OnStep3(c, data).phase == Ready && secret != Rejection(c.kem.value)
    ensures var payload := ReadMessage(c.hs, data).1;
            && payload.Some?
            && (OnStep3(c, data).pqSecret == Some(secret)
                <==> Slice(payload.value, DHLEN).1 == [KemCt(c.kem.value, secret)])
  {
    Message3Settles(c, data);
    ReadThreeAny(c.hs, data);
    CiphertextLen(c.kem.value, secret);
  }

  lemma CiphertextLen(kem: nat, secret: Secret)
    ensures Len([KemCt(kem, secret)]) == KEM_CIPHERTEXT_BYTES
  {
    assert Len([KemCt(kem, secret)]) == KEM_CIPHERTEXT_BYTES + Len([]);
  }

  // ----- what costs a ready channel -----------------------------------------------------------------

  /**
   The frame reaches the channel to its sender: it is addressed to this client,
   and is a restart request to an initiator, a message 1, the message that this
   side's role reads, or anything but a request that does not decode.
   */
  predicate Disturbs(m: Manager, from: PeerId, to: PeerId, step: nat, data: Option<Data>) {
    && to == m.selfId
    && if step == 0 then Less(m.selfId, from)
       else data.None? || step == 1 || step == (if Less(m.selfId, from) then 2 else 3)
  }

  /** A ready channel with the role that the order of the ids gives it. */
  predicate ReadyInRole(m: Manager, p: PeerId) {
    p in m.channels && m.channels[p].phase == Ready && m.channels[p].initiator == Less(m.selfId, p) && m.channels[p].hs.index >= 3
  }

  lemma FinishedReadsNothing(c: Channel, peer: PeerId, data: Data, d: Draw)
    requires c.hs.index >= 3
    ensures OnStep2(c, peer, data, d) == (c.(phase := Failed), None) && OnStep3(c, data) == c.(phase := Failed)
  {
  }

  /** A frame leaves a ready channel as it is, or it is ready no longer; and which, by what anyone can see of the frame. */
  lemma ReadyFrame(m: Manager, from: PeerId, to: PeerId, step: nat, data: Option<Data>, d: Draw, p: PeerId)
    requires ReadyInRole(m, p)
    ensures var m2 := OnFrame(m, from, to, step, data, d).0;
            if from == p && Disturbs(m, from, to, step, data) then p in m2.channels && m2.channels[p].phase != Ready
            else p in m2.channels && m2.channels[p] == m.channels[p]
  {
    LessTotal(m.selfId, from);
    if from != p {
      FrameLocal(m, from, to, step, data, d);
      OthersKept(m, OnFrame(m, from, to, step, data, d).0, from, p);
    } else if to == m.selfId && step == 0 {
      EnsureEffect(RemovePeer(m, from), from, d);
    } else if data.Some? {
      FinishedReadsNothing(m.channels[p], p, data.value, d);
      if to == m.selfId && step == 1 { FreshFrame(m, p, NoiseFrame(to, 1, data.value), d); }
    }
  }

  lemma FrameLocal(m: Manager, from: PeerId, to: PeerId, step: nat, data: Option<Data>, d: Draw)
    ensures OnlyTowards(m, OnFrame(m, from, to, step, data, d).0, from)
  {
    if data.Some? {
      OnSignalLocal(m, from, NoiseFrame(to, step, data.value), d);
    } else {
      EnsureEffect(RemovePeer(m, from), from, d);
    }
  }

  lemma OthersKept(m: Manager, m2: Manager, from: PeerId, p: PeerId)
    requires OnlyTowards(m, m2, from) && p != from && p in m.channels
    ensures p in m2.channels && m2.channels[p] == m.channels[p]
  {
    assert p in m.channels - {from} && (m.channels - {from})[p] == m.channels[p];
    assert (m2.channels - {from})[p] == m2.channels[p];
  }

  /** A message 1 starts afresh. */
  lemma FreshFrame(m: Manager, p: PeerId, f: NoiseFrame, d: Draw)
    requires f.to == m.selfId && f.step == 1
    ensures var m2 := OnSignal(m, p, f, d).0; p in m2.channels && m2.channels[p].phase != Ready
  {
    NewGenuine(m, p, d);
    if !Less(m.selfId, p) { Message1Settles(NewChannel(m, p, d), p, f.data, d); }
  }

  /** What ends a ready channel: the removal of the peer, or a frame from the peer that reaches the channel. */
  predicate EndsReady(m: Manager, e: Move, p: PeerId) {
    match e
    case Ensured(_, _) => false
    case Removed(peer) => peer == p
    case Received(from, to, step, data, _) => from == p && Disturbs(m, from, to, step, data)
  }

  lemma ReadyMove(m: Manager, e: Move, p: PeerId)
    requires ReadyInRole(m, p)
    ensures var m2 := MoveStep(m, e);
            && m2.selfId == m.selfId
            && if EndsReady(m, e, p) then p !in m2.channels || m2.channels[p].phase != Ready
               else p in m2.channels && m2.channels[p] == m.channels[p]
  {
    match e
    case Ensured(peer, d) => EnsureEffect(m, peer, d);
    case Removed(peer) =>
    case Received(from, to, step, data, d) =>
      ReadyFrame(m, from, to, step, data, d, p);
      FrameLocal(m, from, to, step, data, d);
  }

  /** The channel to `p` is throughout the moves what it was before them. */
  ghost predicate Untouched(m: Manager, es: seq<Move>, p: PeerId)
    requires p in m.channels
  {
    es == [] ||
    (Untouched(m, es[..|es| - 1], p) && p in MoveRun(m, es).channels && MoveRun(m, es).channels[p] == m.channels[p])
  }

  ghost predicate NoneEnds(m: Manager, es: seq<Move>, p: PeerId) {
    es == [] || (NoneEnds(m, es[..|es| - 1], p) && !EndsReady(m, es[|es| - 1], p))
  }

  lemma {:induction false} UntouchedAtEnd(m: Manager, es: seq<Move>, p: PeerId)
    requires ReadyInRole(m, p) && Untouched(m, es, p)
    ensures p in MoveRun(m, es).channels && MoveRun(m, es).channels[p] == m.channels[p]
  {
  }

  lemma {:induction false} MovesKeepSelf(m: Manager, es: seq<Move>)
    ensures MoveRun(m, es).selfId == m.selfId
  {
    if es != [] {
      var m1, e := MoveRun(m, es[..|es| - 1]), es[|es| - 1];
      MovesKeepSelf(m, es[..|es| - 1]);
      match e
      case Ensured(peer, d) => EnsureEffect(m1, peer, d);
      case Removed(peer) =>
      case Received(from, to, step, data, d) =>
        FrameLocal(m1, from, to, step, data, d);
    }
  }

  /**
   A ready channel lasts, exactly as it is, throughout any calls and any frames
   from anyone, if and only if nobody removes the peer and no frame under the
   peer's name reaches the channel.
   */
  lemma {:induction false} ReadyLastsExactly(m: Manager, es: seq<Move>, p: PeerId)
    requires ReadyInRole(m, p)
    ensures Untouched(m, es, p) <==> NoneEnds(m, es, p)
  {
    if es != [] {
      var front, e := es[..|es| - 1], es[|es| - 1];
      ReadyLastsExactly(m, front, p);
      if Untouched(m, front, p) {
        UntouchedAtEnd(m, front, p);
        MovesKeepSelf(m, front);
        ReadyMove(MoveRun(m, front), e, p);
      }
    }
  }
}
