/** Messages over ready channels: what one client seals to all, each peer opens to the same bytes. */
module ChannelMessages {
  import opened Common
  import opened Symbolic
  import opened Noise
  import opened NoiseProof
  import opened PeerChannels
  import opened ChannelAgreement
  import opened ChannelNetwork
  import opened ChannelConvergence
  import DR = DoubleRatchet
  import Ratchet = RatchetRun
  import Theorems = RatchetTheorems
  import Padding = MessagePadding
  import Codec = ByteCodec
  import Pro = Prologue

  // ----- sealing to all ------------------------------------------------------------------

  predicate Sealable(m: Manager, peer: PeerId) { peer in m.channels && m.channels[peer].phase == Ready }

  /** Exactly the ready peers get a slot, each the next message of its own ratchet; no other channel moves. */
  lemma {:induction false} EncryptAlongAll(m: Manager, order: seq<PeerId>, padded: Bytes, kps: PeerId -> KeyId)
    requires Distinct(order)
    requires forall p :: p in order && Sealable(m, p) ==> m.channels[p].ratchet.Some?
    ensures var (m2, r) := EncryptAlong(m, order, padded, kps);
            && r.Ok? && SameClient(m2, m) && m2.channels.Keys == m.channels.Keys
            && (forall p :: p in r.value <==> p in order && Sealable(m, p))
            && (forall p :: p in r.value ==>
                  var (st, slot) := DR.Encrypt(m.channels[p].ratchet.value, padded, kps(p));
                  r.value[p] == slot && m2.channels[p] == m.channels[p].(ratchet := Some(st)))
            && (forall p :: p in m.channels && p !in r.value ==> m2.channels[p] == m.channels[p])
  {
    if order != [] {
      var front, last := order[..|order| - 1], order[|order| - 1];
      assert order == front + [last];
      EncryptAlongAll(m, front, padded, kps);
    }
  }

  /** If every ready channel has its ratchet, the payload has a slot for each ready peer and for no one else. */
  lemma SealsToEveryReadyPeer(m: Manager, order: seq<PeerId>, plain: Bytes, kps: PeerId -> KeyId)
    requires Lists(order, m)
    requires forall p :: p in m.channels && Sealable(m, p) ==> m.channels[p].ratchet.Some?
    ensures var (m2, r) := EncryptForAll(m, order, plain, kps);
            && r.Ok? && SameClient(m2, m) && m2.channels.Keys == m.channels.Keys
            && (forall p :: p in r.value <==> Sealable(m, p))
            && (forall p :: p in r.value ==>
                  var (st, slot) := DR.Encrypt(m.channels[p].ratchet.value, Padding.Padded(plain), kps(p));
                  r.value[p] == slot && m2.channels[p] == m.channels[p].(ratchet := Some(st)))
            && (forall p :: p in m.channels && p !in r.value ==> m2.channels[p] == m.channels[p])
  {
    EncryptAlongAll(m, order, Padding.Padded(plain), kps);
  }

  /** A ready channel without a ratchet makes the call throw instead of leaving its peer out. */
  lemma NeverSilentlyOmits(m: Manager, order: seq<PeerId>, plain: Bytes, kps: PeerId -> KeyId, peer: PeerId)
    requires Lists(order, m) && Sealable(m, peer) && m.channels[peer].ratchet.None?
    ensures EncryptForAll(m, order, plain, kps).1.Err?
  {
    EncryptAlongStumbles(m, order, Padding.Padded(plain), kps, peer);
  }

  lemma {:induction false} EncryptAlongStumbles(m: Manager, order: seq<PeerId>, padded: Bytes, kps: PeerId -> KeyId, peer: PeerId)
    requires Distinct(order) && peer in order && Sealable(m, peer) && m.channels[peer].ratchet.None?
    ensures EncryptAlong(m, order, padded, kps).1.Err?
  {
    var front, last := order[..|order| - 1], order[|order| - 1];
    assert order == front + [last];
    if last == peer {
      EncryptLeavesOthers(m, front, padded, kps, peer);
    } else {
      EncryptAlongStumbles(m, front, padded, kps, peer);
    }
  }

  lemma {:induction false} EncryptLeavesOthers(m: Manager, order: seq<PeerId>, padded: Bytes, kps: PeerId -> KeyId, peer: PeerId)
    requires peer !in order
    ensures var m2 := EncryptAlong(m, order, padded, kps).0;
            (peer in m2.channels <==> peer in m.channels) && (peer in m.channels ==> m2.channels[peer] == m.channels[peer])
  {
    if order != [] { EncryptLeavesOthers(m, order[..|order| - 1], padded, kps, peer); }
  }

  // ----- a message from one client to another --------------------------------------------

  lemma {:induction false} RunThen(w: Ratchet.World, es: seq<Ratchet.Event>, e: Ratchet.Event)
    requires Ratchet.AllowedRun(w, es) && Ratchet.Allowed(Ratchet.Run(w, es), e)
    ensures Ratchet.AllowedRun(w, es + [e])
    ensures Ratchet.Run(w, es + [e]) == Ratchet.Step(Ratchet.Run(w, es), e)
    decreases |es|
  {
    if es == [] {
      assert es + [e] == [e];
      assert Ratchet.Run(w, [e]) == Ratchet.Run(Ratchet.Step(w, e), [e][1..]);
    } else {
      RunThen(Ratchet.Step(w, es[0]), es[1..], e);
      assert (es + [e])[1..] == es[1..] + [e];
    }
  }

  lemma ConversationGoesOn(w: Ratchet.World, e: Ratchet.Event)
    requires Theorems.Conversation(w) && Ratchet.Allowed(w, e)
    ensures Theorems.Conversation(Ratchet.Step(w, e))
  {
    var root, alice, bob, es :|
      alice != bob && Ratchet.AllowedRun(Ratchet.Start(root, alice, bob), es) && w == Ratchet.Run(Ratchet.Start(root, alice, bob), es);
    RunThen(Ratchet.Start(root, alice, bob), es, e);
    assert Ratchet.AllowedRun(Ratchet.Start(root, alice, bob), es + [e]);
  }

  /**
   `ma` and `mb` hold the two ends of conversation `w`. What `ma` seals for
   everyone, `mb` opens to exactly the bytes that went in, if and only if the
   new message is within reach of its ratchet; otherwise it gets nothing.
   */
  lemma OpensWhatWasSealed(w: Ratchet.World, p: Ratchet.Party, ma: Manager, mb: Manager, order: seq<PeerId>,
                           plain: Bytes, kps: PeerId -> KeyId, kp: KeyId)
    requires Theorems.Conversation(w) && |plain| < Codec.TWO32
    requires Lists(order, ma)
    requires forall q :: q in ma.channels && Sealable(ma, q) ==> ma.channels[q].ratchet.Some?
    requires Sealable(ma, mb.selfId) && ma.channels[mb.selfId].ratchet == Some(w.Of(p))
    requires Sealable(mb, ma.selfId) && mb.channels[ma.selfId].ratchet == Some(w.Of(Ratchet.Peer(p)))
    requires kps(mb.selfId) !in w.used && kp !in w.used && kp != kps(mb.selfId)
    ensures EncryptForAll(ma, order, plain, kps).1.Ok?
    ensures var payload := EncryptForAll(ma, order, plain, kps).1.value;
            var st := DR.Encrypt(w.Of(p), Padding.Padded(plain), kps(mb.selfId)).0;
            && mb.selfId in payload && payload[mb.selfId].Slot?
            && DecryptFrom(mb, ma.selfId, payload, kp).1
               == if Theorems.WithinReach(w.Of(Ratchet.Peer(p)), st, payload[mb.selfId].h) then Some(plain) else None
  {
    var padded := Padding.Padded(plain);
    SealsToEveryReadyPeer(ma, order, plain, kps);
    SealedThenOpened(w, p, padded, kps(mb.selfId), kp);
    Padding.UnpadUndoesPad(plain);
  }

  /** The same for the two ratchets alone. */
  lemma SealedThenOpened(w: Ratchet.World, p: Ratchet.Party, padded: Bytes, kpSend: KeyId, kp: KeyId)
    requires Theorems.Conversation(w) && kpSend !in w.used && kp !in w.used && kp != kpSend
    ensures var (st, slot) := DR.Encrypt(w.Of(p), padded, kpSend);
            && slot.Slot?
            && var opening := DR.Decrypt(w.Of(Ratchet.Peer(p)), slot, kp).1;
               if Theorems.WithinReach(w.Of(Ratchet.Peer(p)), st, slot.h) then opening == Ok(padded) else opening.Err?
  {
    var e := Ratchet.Send(p, padded, kpSend);
    var w2, q := Ratchet.Step(w, e), Ratchet.Peer(p);
    ConversationGoesOn(w, e);
    var (st, slot) := DR.Encrypt(w.Of(p), padded, kpSend);
    assert w2.log[|w.log|] == Ratchet.Sent(p, slot, padded);
    assert w2.Of(q) == w.Of(q) && w2.Of(p) == st && Ratchet.Peer(q) == p;
    Theorems.OpensIffSentAndWithinReach(w2, q, slot, kp);
  }

  // ----- another session -----------------------------------------------------------------

  /**
   A handshake carried into another session, or to a peer that takes it for
   someone else's, fails at message 2: the initiator latches `Failed`, and sends
   no message 3 that could make the responder ready.
   */
  lemma OtherSessionFails(ci: Channel, mi: Manager, mr: Manager, r: PeerId, i: PeerId, d: Draw, d2: Draw)
    requires Less(mi.selfId, r) && Waiting(ci, mi, r) && !Less(mr.selfId, i)
    requires mi.sessionId != mr.sessionId || mi.selfId != i || r != mr.selfId
    ensures var (cr, out) := OnStep1(NewChannel(mr, i, d), i, [PubKey(ci.hs.e.value)], d);
            && out.Some? && cr.phase == Handshaking
            && OnStep2(ci, r, out.value.data, d2).0.phase == Failed && OnStep2(ci, r, out.value.data, d2).1 == None
  {
    LessTotal(mi.selfId, r);
    Pro.PrologueInjective(mi.sessionId, mi.selfId, r, mr.sessionId, i, mr.selfId);
    var b, br := Blank(mi, r, ci.drKey), NewChannel(mr, i, d);
    FirstMessage(b.hs, ci.hs.e.value);
    PrologueMismatchFails(mi.staticKey, mr.staticKey, PrologueOf(mi, r), PrologueOf(mr, i), [],
                          [PubKey(br.drKey), KemPub(d.kem)], ci.hs.e.value, d.e);
  }
}
