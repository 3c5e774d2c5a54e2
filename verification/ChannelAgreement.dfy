/** One pair of channels: a ready initiator and a ready responder mirror each other. */
module ChannelAgreement {
  import opened Common
  import opened Symbolic
  import opened Noise
  import opened NoiseProof
  import opened HandshakeShapes
  import opened PeerChannels
  import DR = DoubleRatchet

  // ----- the order of peer ids -----------------------------------------------------------

  lemma {:induction false} LessTotal(a: PeerId, b: PeerId)
    ensures a != b <==> Less(a, b) || Less(b, a)
    ensures !(Less(a, b) && Less(b, a))
  {
    if a != [] && b != [] && a[0] == b[0] {
      LessTotal(a[1..], b[1..]);
      assert a == [a[0]] + a[1..] && b == [b[0]] + b[1..];
    }
  }

  // ----- shapes --------------------------------------------------------------------------

  /** Message 3, read back from the hash it was mixed into. */
  function MessageIn(h: Digest): Data {
    if h.Mix? && h.h.Mix? && |h.data| == 1 && |h.h.data| == 1 then [h.h.data[0], h.data[0]] else []
  }

  /** Everything a ready initiator's hash says about the handshake it finished. */
  ghost predicate InitiatorReady(c: Channel) {
    var h, m := c.hs.sym.h, MessageIn(c.hs.sym.h);
    && c.hs.index == 3
    && |m| == 2 && m[1].AeadBox? && m[1].key.Kdf2?
    && ThirdMessage(m, h.h.h, m[1].key.salt, h, c.hs.sym.ck)
    && m[0].plain == [PubKey(c.hs.s)]
    && c.pqSecret.Some? && c.remoteDR.Some? && |c.remoteDR.value| == 1 && c.remoteDR.value[0].PubKey?
    && |m[1].plain| == 2 && m[1].plain[1].KemCt?
    && m[1].plain == [PubKey(c.drKey), KemCt(m[1].plain[1].to, c.pqSecret.value)]
    && LastBox(h.h.h) == Some([c.remoteDR.value[0], KemPub(m[1].plain[1].to)])
    && c.remoteStatic.Some? && c.remoteStatic == BoxBefore(h.h.h)
    && c.safetyNumber == Some(h)
    && c.ratchet == Some(DR.InitAlice(Hybrid(c.hs.sym.ck, c.pqSecret.value), c.drKey, c.remoteDR.value[0].id))
  }

  ghost predicate InitiatorShape(c: Channel) {
    && c.initiator
    && (c.hs.pair.Some? ==> c.hs.index >= 3)
    && (c.phase == Ready ==> InitiatorReady(c))
  }

  predicate IsOffer(d: Option<Data>) {
    d.Some? && |d.value| == 2 && d.value[0].PubKey? && d.value[1].KemPub?
  }

  /** If the last box of the responder's hash is an offer of a DR and a KEM key, it is its own. */
  ghost predicate OwnOffer(c: Channel) {
    IsOffer(LastBox(c.hs.sym.h)) ==>
      && c.kem.Some? && LastBox(c.hs.sym.h) == Some([PubKey(c.drKey), KemPub(c.kem.value)])
      && BoxBefore(c.hs.sym.h) == Some([PubKey(c.hs.s)])
  }

  ghost predicate ResponderShape(c: Channel) {
    && !c.initiator
    && (c.hs.pair.Some? ==> c.hs.index >= 3)
    && (c.hs.index < 2 ==> c.hs.e.None?)
    && (c.hs.index == 2 ==> c.hs.sym.cipher.k.Some? && OwnOffer(c))
    && (c.phase == Ready ==> c.hs.index >= 3)
  }

  /**
   Same hybrid root, opposite roles, DR keys swapped, equal safety numbers, and
   each side holds the other's static key.
   */
  ghost predicate Mirrors(ci: Channel, cr: Channel) {
    && ci.pqSecret.Some? && ci.safetyNumber.Some? && ci.safetyNumber == cr.safetyNumber
    && ci.ratchet == Some(DR.InitAlice(Hybrid(ci.hs.sym.ck, ci.pqSecret.value), ci.drKey, cr.drKey))
    && cr.ratchet == Some(DR.InitBob(Hybrid(ci.hs.sym.ck, ci.pqSecret.value), cr.drKey, ci.drKey))
    && ci.remoteStatic == Some([PubKey(cr.hs.s)]) && cr.remoteStatic == Some([PubKey(ci.hs.s)])
  }

  // ----- the initiator reads message 2 ---------------------------------------------------

  /** The only split whose blob is a KEM public key: the DR key is what comes before it. */
  lemma SplitOffer(payload: Data)
    requires SplitPayload(payload).Some?
    requires |SplitPayload(payload).value.0| == 1 && SplitPayload(payload).value.0[0].PubKey?
    requires |SplitPayload(payload).value.1| == 1 && SplitPayload(payload).value.1[0].KemPub?
    ensures payload == SplitPayload(payload).value.0 + SplitPayload(payload).value.1
  {
    SliceJoins(payload, DR_KEY_BYTES);
  }

  /** A slice that cuts no piece in two only splits the sequence. */
  lemma {:induction false} SliceJoins(d: Data, n: nat)
    requires forall i :: 0 <= i < |Slice(d, n).0| ==> !Slice(d, n).0[i].Cut?
    ensures Slice(d, n).0 + Slice(d, n).1 == d
  {
    if n == 0 || d == [] {
      assert [] + d == d;
    } else if AtomLen(d[0]) > n {
      assert Slice(d, n).0[0].Cut?;
      assert false;
    } else {
      var (taken, rest) := Slice(d[1..], n - AtomLen(d[0]));
      assert forall i :: 0 <= i < |taken| ==> taken[i] == Slice(d, n).0[i + 1];
      SliceJoins(d[1..], n - AtomLen(d[0]));
      assert Slice(d, n).0 + rest == [d[0]] + (taken + rest);
    }
  }

  /** An initiator that message 2 makes ready knows what its hash says, and has sent message 3. */
  lemma OnStep2Ready(c: Channel, peer: PeerId, data: Data, d: Draw)
    requires InitiatorShape(c) && OnStep2(c, peer, data, d).0.phase == Ready
    ensures InitiatorReady(OnStep2(c, peer, data, d).0)
    ensures OnStep2(c, peer, data, d).1 == Some(NoiseFrame(peer, 3, MessageIn(OnStep2(c, peer, data, d).0.hs.sym.h)))
  {
    ReadProceeds(c.hs, data);
    var (hs1, payload) := ReadMessage(c.hs, data);
    var (drKey, blob) := SplitPayload(payload.value).value;
    var (ct, secret) := Encapsulate(blob, d.secret).value;
    var p3 := [PubKey(c.drKey)] + ct;
    WriteProceeds(hs1, p3, d.e);
    ReadTwoShape(c.hs, data);
    WriteThreeShape(hs1, p3, d.e);
    SplitOffer(payload.value);
    assert payload.value == [drKey[0], blob[0]];
    assert p3 == [PubKey(c.drKey), ct[0]];
    var m := WriteMessage(hs1, p3, d.e).1.value;
    assert m == [m[0], m[1]];
  }

  lemma ReadProceeds(hs: Hs, m: Data)
    requires ReadMessage(hs, m).1.Some?
    ensures hs.index < |PATTERNS| && ReadMessage(hs, m).0.index == hs.index + 1
    ensures ReadMessage(hs, m).0.pair.Some? ==> hs.pair.Some? || hs.index + 1 >= |PATTERNS|
  {
    ReadTokensKeys(hs, PATTERNS[hs.index], m);
  }

  lemma WriteProceeds(hs: Hs, payload: Data, kp: KeyId)
    requires WriteMessage(hs, payload, kp).1.Some?
    ensures hs.index < |PATTERNS| && WriteMessage(hs, payload, kp).0.index == hs.index + 1
    ensures WriteMessage(hs, payload, kp).0.pair.Some? ==> hs.pair.Some? || hs.index + 1 >= |PATTERNS|
  {
    WriteTokensKeys(hs, PATTERNS[hs.index], kp);
  }

  // ----- the responder reads message 3 ---------------------------------------------------

  /** The payload of message 3 splits back into the DR key and the ciphertext. */
  lemma SplitAnswer(id: KeyId, kem: nat, secret: Secret)
    ensures SplitPayload([PubKey(id), KemCt(kem, secret)]) == Some(([PubKey(id)], [KemCt(kem, secret)]))
    ensures Len([KemCt(kem, secret)]) == KEM_CIPHERTEXT_BYTES
  {
    var p, b := [PubKey(id), KemCt(kem, secret)], [KemCt(kem, secret)];
    assert p == [PubKey(id)] + b;
    SliceWhole(PubKey(id), b, DR_KEY_BYTES);
    assert p[1..] == b && b[1..] == [];
    assert Len(b) == KEM_CIPHERTEXT_BYTES + Len([]);
    assert Len(p) == DHLEN + Len(b);
  }

  /** A responder made ready by a ready initiator's message 3 mirrors it. */
  lemma OnStep3Mirrors(ci: Channel, cr: Channel)
    requires InitiatorReady(ci) && ci.initiator && ResponderShape(cr)
    requires OnStep3(cr, MessageIn(ci.hs.sym.h)).phase == Ready
    ensures Mirrors(ci, OnStep3(cr, MessageIn(ci.hs.sym.h)))
  {
    var m := MessageIn(ci.hs.sym.h);
    ReadProceeds(cr.hs, m);
    assert cr.hs.index == 2;
    SealedKeyLen(m[0].key, m[0].n, m[0].ad, ci.hs.s);
    ReadThreeShape(cr.hs, m);
    assert cr.hs.sym.h == ci.hs.sym.h.h.h;
    assert IsOffer(LastBox(cr.hs.sym.h));
    SplitAnswer(ci.drKey, m[1].plain[1].to, ci.pqSecret.value);
  }

  // ----- every call keeps the shapes -----------------------------------------------------

  lemma {:induction false} ReadTokensFrame(hs: Hs, ts: seq<Token>, m: Data)
    ensures var h := ReadTokens(hs, ts, m).0;
            h.index == hs.index && h.pair == hs.pair && h.e == hs.e && h.s == hs.s && h.initiator == hs.initiator
    decreases |ts|
  {
    if ts != [] && ReadToken(hs, ts[0], m).1.Some? {
      ReadTokensFrame(ReadToken(hs, ts[0], m).0, ts[1..], ReadToken(hs, ts[0], m).1.value);
    }
  }

  lemma {:induction false} WriteTokensFrame(hs: Hs, ts: seq<Token>, kp: KeyId)
    ensures var h := WriteTokens(hs, ts, kp).0;
            h.index == hs.index && h.pair == hs.pair && h.s == hs.s && h.initiator == hs.initiator
    decreases |ts|
  {
    if ts != [] && WriteToken(hs, ts[0], kp).1.Some? {
      WriteTokensFrame(WriteToken(hs, ts[0], kp).0, ts[1..], kp);
    }
  }

  /** Only a finished message moves the index, and only the last one yields the transport ciphers. */
  lemma MessageFrame(hs: Hs, m: Data, payload: Data, kp: KeyId)
    requires hs.pair.Some? ==> hs.index >= 3
    ensures var (h, r) := ReadMessage(hs, m);
            && h.index == hs.index + (if r.Some? then 1 else 0) && h.e == hs.e && h.s == hs.s && h.initiator == hs.initiator
            && (h.pair.Some? ==> h.index >= 3)
    ensures var (h, r) := WriteMessage(hs, payload, kp);
            && h.index == hs.index + (if r.Some? then 1 else 0) && h.s == hs.s && h.initiator == hs.initiator
            && (h.pair.Some? ==> h.index >= 3)
  {
    if hs.index < 3 {
      ReadTokensFrame(hs, PATTERNS[hs.index], m);
      WriteTokensFrame(hs, PATTERNS[hs.index], kp);
    }
  }

  lemma OnStep2Shape(c: Channel, peer: PeerId, data: Data, d: Draw)
    requires InitiatorShape(c)
    ensures InitiatorShape(OnStep2(c, peer, data, d).0)
  {
    var (hs1, payload) := ReadMessage(c.hs, data);
    MessageFrame(c.hs, data, [], 0);
    if OnStep2(c, peer, data, d).0.phase == Ready {
      OnStep2Ready(c, peer, data, d);
    } else if payload.Some? && SplitPayload(payload.value).Some? {
      var blob := SplitPayload(payload.value).value.1;
      if Encapsulate(blob, d.secret).Some? {
        MessageFrame(hs1, [], [PubKey(c.drKey)] + Encapsulate(blob, d.secret).value.0, d.e);
      }
    }
  }

  /** A fresh responder that gets an initiator's ephemeral key answers with its own offer. */
  lemma OnStep1Shape(c: Channel, peer: PeerId, id: KeyId, d: Draw)
    requires !c.initiator && c.hs.index == 0 && !c.hs.initiator && c.hs.sym.cipher.k.None? && c.hs.pair.None?
    requires c.phase == Handshaking
    ensures var (c2, out) := OnStep1(c, peer, [PubKey(id)], d);
            && ResponderShape(c2) && c2.phase == Handshaking
            && out.Some? && out.value.to == peer && out.value.step == 2
  {
    var data := [PubKey(id)];
    assert data == [PubKey(id)] + [];
    SliceWhole(PubKey(id), [], DHLEN);
    var a := ReadToken(c.hs, E, data).0;
    assert ReadTokens(c.hs, [E], data) == (a, Some([]));
    var hs1 := ReadMessage(c.hs, data).0;
    assert hs1.index == 1 && hs1.re == Some([PubKey(id)]);
    SecondMessageShape(hs1, [PubKey(c.drKey), KemPub(d.kem)], d.e);
    WriteTwoShape(hs1, [PubKey(c.drKey), KemPub(d.kem)], d.e);
  }

  /** What fits in a slice is no longer than the slice. */
  lemma SliceBound(d: Data, n: nat)
    requires |Slice(d, n).0| == 1 && !Slice(d, n).0[0].Cut?
    ensures AtomLen(Slice(d, n).0[0]) <= n
  {
  }

  lemma OfferLen(d: Data)
    requires IsOffer(Some(d))
    ensures Len(d) == DHLEN + KEM_PUBLIC_KEY_BYTES
  {
    assert d[1..] == [d[1]] && d[1..][1..] == [];
    assert Len(d[1..]) == AtomLen(d[1]) + Len([]);
  }

  /** A message 3 that does not open may still have been hashed in half, but never as an offer. */
  lemma ReadThreeFails(hs: Hs, m: Data)
    requires hs.index == 2 && hs.sym.cipher.k.Some? && ReadMessage(hs, m).1.None?
    ensures var h := ReadMessage(hs, m).0;
            h.sym.cipher.k.Some? && (h.sym.h == hs.sym.h || !IsOffer(LastBox(h.sym.h)))
  {
    assert PATTERNS[2] == [S] + ([SE] + []);
    assert PATTERNS[2][1..] == [SE] + [];
    var (ct, rest) := Slice(m, DHLEN + TAG_LENGTH);
    if DecryptAndHash(hs.sym, ct).1.Some? {
      OpenedBox(hs.sym, ct);
      SliceBound(m, DHLEN + TAG_LENGTH);
      if IsOffer(LastBox(Mix(hs.sym.h, ct))) { OfferLen(ct[0].plain); }
      var a := ReadToken(hs, S, m).0;
      assert ReadTokens(hs, PATTERNS[2], m) == ReadTokens(a, [SE] + [], rest);
      assert ([SE] + [])[1..] == [];
      assert ReadTokens(a, [SE] + [], rest).0.sym.h == Mix(hs.sym.h, ct);
    }
  }

  /** A side that has sent nothing has no ephemeral key to read message 2 with. */
  lemma ReadTwoNeedsEphemeral(hs: Hs, m: Data)
    requires hs.index == 1 && hs.e.None?
    ensures ReadMessage(hs, m).1.None?
  {
    assert PATTERNS[1] == [E] + ([EE] + [S, ES]);
    assert PATTERNS[1][1..] == [EE] + [S, ES];
    var (a, rest) := ReadToken(hs, E, m);
    assert ReadTokens(hs, PATTERNS[1], m) == ReadTokens(a, [EE] + [S, ES], rest.value);
    assert ([EE] + [S, ES])[0] == EE;
    assert TokenDh(a, EE).None?;
  }

  lemma OnStep3Shape(c: Channel, data: Data)
    requires ResponderShape(c)
    ensures ResponderShape(OnStep3(c, data))
  {
    MessageFrame(c.hs, data, [], 0);
    if c.hs.index == 1 {
      ReadTwoNeedsEphemeral(c.hs, data);
    } else if c.hs.index == 2 && ReadMessage(c.hs, data).1.None? {
      ReadThreeFails(c.hs, data);
    }
  }
}
