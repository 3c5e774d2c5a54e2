/**
 What a handshake rests on, as terms: which boxes go over the wire under which
 keys, which Diffie-Hellman results the chaining key is made of, and whose
 private keys it takes to compute it.
 */
module HandshakeSecrets {
  import opened Common
  import opened Symbolic
  import opened Noise
  import opened NoiseProof
  import opened HandshakeShapes
  import opened PeerChannels
  import opened ChannelAgreement
  import opened SafetyNumbers
  import DR = DoubleRatchet

  // ----- the three results, as terms ----------------------------------------------------------

  /** This side's ephemeral key is drawn and the peer's is read; an initiator has read a static key too. */
  predicate HoldsKeys(hs: Hs) {
    && hs.e.Some? && hs.re.Some? && IsKey(hs.re.value)
    && (hs.initiator ==> hs.rs.Some? && IsKey(hs.rs.value))
  }

  function EphemeralDh(hs: Hs): Secret
    requires HoldsKeys(hs)
  {
    SharedKey(hs.e.value, hs.re.value[0].id)
  }

  /** The initiator's ephemeral and the responder's static key. */
  function ResponderDh(hs: Hs): Secret
    requires HoldsKeys(hs)
  {
    if hs.initiator then SharedKey(hs.e.value, hs.rs.value[0].id) else SharedKey(hs.s, hs.re.value[0].id)
  }

  /** The initiator's static and the responder's ephemeral key. */
  function InitiatorDh(hs: Hs): Secret
    requires HoldsKeys(hs) && hs.rs.Some? && IsKey(hs.rs.value)
  {
    if hs.initiator then SharedKey(hs.s, hs.re.value[0].id) else SharedKey(hs.e.value, hs.rs.value[0].id)
  }

  // ----- messages 2 and 3, token by token -----------------------------------------------------

  /** Message 2 as it is written, and the state its writer is left in. */
  lemma WriteTwoKeys(hs: Hs, y: KeyId, payload: Data, kp: KeyId)
    requires hs.index == 1 && !hs.initiator && hs.re == Some([PubKey(y)])
    ensures var (hs2, m) := WriteMessage(hs, payload, kp);
            var ee, es := SharedKey(kp, y), SharedKey(hs.s, y);
            var h1 := Mix(hs.sym.h, [PubKey(kp)]);
            var b1 := AeadBox(Kdf2(hs.sym.ck, ee), 0, h1, [PubKey(hs.s)]);
            var b2 := AeadBox(Kdf2(Kdf1(hs.sym.ck, ee), es), 0, Mix(h1, [b1]), payload);
            && m == Some([PubKey(kp), b1, b2])
            && hs2.sym == Sym(Kdf1(Kdf1(hs.sym.ck, ee), es), Mix(Mix(h1, [b1]), [b2]), Cipher(Some(b2.key), 1))
            && hs2 == hs.(e := Some(kp), sym := hs2.sym, index := 2)
  {
    var r1 := WriteToken(hs, E, kp).0;
    var r2 := WriteToken(r1, EE, kp).0;
    var (r3, box) := WriteToken(r2, S, kp);
    var r4 := WriteToken(r3, ES, kp).0;
    assert PATTERNS[1] == [E] + ([EE] + ([S] + ([ES] + [])));
    WriteOne(r3, ES, [], kp);
    WriteOne(r2, S, [ES] + [], kp);
    WriteOne(r1, EE, [S] + ([ES] + []), kp);
    WriteOne(hs, E, [EE] + ([S] + ([ES] + [])), kp);
    var b2 := EncryptAndHash(r4.sym, payload).1;
    assert [PubKey(kp)] + ([] + (box.value + ([] + []))) + b2 == [PubKey(kp), box.value[0], b2[0]];
  }

  /** Message 3 as it is written. */
  lemma WriteThreeKeys(hs: Hs, y: KeyId, payload: Data, kp: KeyId)
    requires hs.index == 2 && hs.initiator && hs.re == Some([PubKey(y)]) && hs.sym.cipher.k.Some?
    ensures var (hs2, m) := WriteMessage(hs, payload, kp);
            var se := SharedKey(hs.s, y);
            var b1 := AeadBox(hs.sym.cipher.k.value, hs.sym.cipher.n, hs.sym.h, [PubKey(hs.s)]);
            var b2 := AeadBox(Kdf2(hs.sym.ck, se), 0, Mix(hs.sym.h, [b1]), payload);
            && m == Some([b1, b2]) && hs2.sym.ck == Kdf1(hs.sym.ck, se)
            && hs2.re == hs.re && hs2.rs == hs.rs && hs2.e == hs.e && hs2.s == hs.s && hs2.initiator
            && hs2.pair == Some(Split(hs2.sym))
  {
    var (r1, box) := WriteToken(hs, S, kp);
    var r2 := WriteToken(r1, SE, kp).0;
    assert PATTERNS[2] == [S] + ([SE] + []);
    WriteOne(r1, SE, [], kp);
    WriteOne(hs, S, [SE] + [], kp);
    var b2 := EncryptAndHash(r2.sym, payload).1;
    assert (box.value + ([] + [])) + b2 == [box.value[0], b2[0]];
  }

  /** The box hashed in last: its key, number and content. */
  predicate SealedLast(h: Digest, key: Secret, n: nat, plain: Data) {
    h.Mix? && h.data == [AeadBox(key, n, h.h, plain)]
  }

  lemma OneBox(d: Data)
    requires |d| == 1 && d[0].AeadBox?
    ensures d == [AeadBox(d[0].key, d[0].n, d[0].ad, d[0].plain)]
  {
  }

  /**
   Whatever message 2 was, whoever reads it mixed in the DH of the two ephemeral
   keys, then that of the initiator's ephemeral and the responder's static key,
   and opened the payload under a key made of both.
   */
  lemma ReadTwoKeys(hs: Hs, m: Data)
    requires hs.index == 1 && ReadMessage(hs, m).1.Some?
    ensures var (hs2, payload) := ReadMessage(hs, m);
            && hs2.e == hs.e && hs2.s == hs.s && hs2.initiator == hs.initiator && hs2.index == 2
            && HoldsKeys(hs2)
            && var ee, es := EphemeralDh(hs2), ResponderDh(hs2);
            && hs2.sym.ck == Kdf1(Kdf1(hs.sym.ck, ee), es) && hs2.sym.cipher.k.Some?
            && SealedLast(hs2.sym.h, Kdf2(Kdf1(hs.sym.ck, ee), es), 0, payload.value)
            && SealedLast(hs2.sym.h.h, Kdf2(hs.sym.ck, ee), 0, hs2.rs.value)
  {
    assert PATTERNS[1] == [E] + ([EE] + ([S] + ([ES] + [])));
    var (a, m1) := ReadToken(hs, E, m);
    ReadOne(hs, E, [EE] + ([S] + ([ES] + [])), m);
    ReadOne(a, EE, [S] + ([ES] + []), m1.value);
    var b := ReadToken(a, EE, m1.value).0;
    ReadOne(b, S, [ES] + [], m1.value);
    var (c, m2) := ReadToken(b, S, m1.value);
    OpenedBox(b.sym, Slice(m1.value, DHLEN + TAG_LENGTH).0);
    ReadOne(c, ES, [], m2.value);
    var d := ReadToken(c, ES, m2.value).0;
    OpenedBox(d.sym, m2.value);
    OneBox(Slice(m1.value, DHLEN + TAG_LENGTH).0);
    OneBox(m2.value);
  }

  /** The same of message 3 and the DH of the initiator's static and the responder's ephemeral key. */
  lemma ReadThreeKeys(hs: Hs, m: Data)
    requires hs.index == 2 && !hs.initiator && HoldsKeys(hs) && hs.sym.cipher.k.Some? && ReadMessage(hs, m).1.Some?
    ensures var (hs2, payload) := ReadMessage(hs, m);
            && hs2.e == hs.e && hs2.re == hs.re && hs2.s == hs.s && !hs2.initiator && hs2.index == 3
            && hs2.rs.Some? && IsKey(hs2.rs.value) && HoldsKeys(hs2) && hs2.sym.ck == Kdf1(hs.sym.ck, InitiatorDh(hs2))
            && SealedLast(hs2.sym.h, Kdf2(hs.sym.ck, InitiatorDh(hs2)), 0, payload.value)
            && SealedLast(hs2.sym.h.h, hs.sym.cipher.k.value, hs.sym.cipher.n, hs2.rs.value)
  {
    assert PATTERNS[2] == [S] + ([SE] + []);
    ReadOne(hs, S, [SE] + [], m);
    var (ct, rest) := Slice(m, DHLEN + TAG_LENGTH);
    OpenedBox(hs.sym, ct);
    var a := ReadToken(hs, S, m).0;
    ReadOne(a, SE, [], rest);
    var b := ReadToken(a, SE, rest).0;
    OpenedBox(b.sym, rest);
    OneBox(ct);
    OneBox(rest);
  }

  // ----- the whole handshake -------------------------------------------------------------------

  function Chained(ee: Secret, es: Secret, se: Secret): Secret { Kdf1(Kdf1(Kdf1(Label(0), ee), es), se) }

  /** The boxes of message 2: the static key under the first result, the payload under the first two. */
  function SecondBoxes(ee: Secret, es: Secret, h: Digest, sr: KeyId, payload: Data): (Atom, Atom) {
    var b1 := AeadBox(Kdf2(Label(0), ee), 0, h, [PubKey(sr)]);
    (b1, AeadBox(Kdf2(Kdf1(Label(0), ee), es), 0, Mix(h, [b1]), payload))
  }

  /** The boxes of message 3: the static key under the key that sealed message 2's payload, with the next number. */
  function ThirdBoxes(ee: Secret, es: Secret, se: Secret, h: Digest, si: KeyId, payload: Data): (Atom, Atom) {
    var b1 := AeadBox(Kdf2(Kdf1(Label(0), ee), es), 1, h, [PubKey(si)]);
    (b1, AeadBox(Kdf2(Kdf1(Kdf1(Label(0), ee), es), se), 0, Mix(h, [b1]), payload))
  }

  /** Message 1 is the ephemeral key and the payload, both in the clear. */
  lemma WriteOneKeys(si: KeyId, prologue: Data, payload: Data, kp: KeyId)
    ensures var hs := NewHs(true, si, prologue);
            var (hs2, m) := WriteMessage(hs, payload, kp);
            && m == Some([PubKey(kp)] + payload) && hs2.index == 1
            && hs2 == hs.(e := Some(kp), index := 1,
                          sym := hs.sym.(h := Mix(Mix(Mix(ProtocolName, prologue), [PubKey(kp)]), payload)))
  {
    var hs := NewHs(true, si, prologue);
    assert PATTERNS[0] == [E] + [];
    WriteOne(hs, E, [], kp);
    assert ([PubKey(kp)] + []) + payload == [PubKey(kp)] + payload;
  }

  lemma BoxesDiffer(ee: Secret, es: Secret, se: Secret, he: Digest, h2: Digest, sr: KeyId, si: KeyId, p2: Data, p3: Data)
    ensures var (b1, b2) := SecondBoxes(ee, es, he, sr, p2);
            var (b3, b4) := ThirdBoxes(ee, es, se, h2, si, p3);
            Distinct([(b1.key, b1.n), (b2.key, b2.n), (b3.key, b3.n), (b4.key, b4.n)])
  {
    var k1 := Kdf1(Label(0), ee);
    assert Height(Kdf2(Label(0), ee)) < Height(Kdf2(k1, es)) < Height(Kdf2(Kdf1(k1, es), se));
  }

  /** The two sides after message 1. */
  ghost predicate Opened(i: Hs, r: Hs, si: KeyId, sr: KeyId, ei: KeyId, h: Digest) {
    && Agree(i, r) && Progress(i, r) && i.initiator && i.index == 1 && i.s == si && r.s == sr
    && r.re == Some([PubKey(ei)]) && r.sym == Sym(Label(0), h, Cipher(None, 0))
  }

  lemma OpenedAfterOne(si: KeyId, sr: KeyId, prologue: Data, p1: Data, ei: KeyId)
    ensures var (i1, r1, got1) := AfterOne(NewHs(true, si, prologue), NewHs(false, sr, prologue), p1, ei);
            Opened(i1, r1, si, sr, ei, Mix(Mix(Mix(ProtocolName, prologue), [PubKey(ei)]), p1))
  {
    var i0, r0 := NewHs(true, si, prologue), NewHs(false, sr, prologue);
    FreshPair(si, sr, prologue);
    MessageAgrees(i0, r0, p1, ei);
    WriteOneKeys(si, prologue, p1, ei);
  }

  /** The two sides after message 2. */
  ghost predicate SecondRead(i: Hs, r: Hs, si: KeyId, er: KeyId, ee: Secret, es: Secret, h: Digest) {
    && Agree(r, i) && Progress(r, i) && i.initiator && i.index == 2 && i.s == si && i.re == Some([PubKey(er)])
    && i.sym == Sym(Kdf1(Kdf1(Label(0), ee), es), h, Cipher(Some(Kdf2(Kdf1(Label(0), ee), es)), 1))
  }

  lemma AnsweredAfterTwo(i: Hs, r: Hs, si: KeyId, sr: KeyId, ei: KeyId, h: Digest, p2: Data, er: KeyId)
    requires Opened(i, r, si, sr, ei, h)
    ensures var (r2, i2, got2) := AfterOne(r, i, p2, er);
            var ee, es, he := SharedKey(ei, er), SharedKey(ei, sr), Mix(h, [PubKey(er)]);
            var (b1, b2) := SecondBoxes(ee, es, he, sr, p2);
            && WriteMessage(r, p2, er).1 == Some([PubKey(er), b1, b2])
            && SecondRead(i2, r2, si, er, ee, es, Mix(Mix(he, [b1]), [b2]))
  {
    MessageAgrees(r, i, p2, er);
    WriteTwoKeys(r, ei, p2, er);
  }

  lemma FinishedAfterThree(i: Hs, r: Hs, si: KeyId, er: KeyId, ee: Secret, es: Secret, h: Digest, p3: Data, kp: KeyId)
    requires SecondRead(i, r, si, er, ee, es, h)
    ensures var (i3, r3, got3) := AfterOne(i, r, p3, kp);
            var (b3, b4) := ThirdBoxes(ee, es, SharedKey(si, er), h, si, p3);
            var ck := Chained(ee, es, SharedKey(si, er));
            && WriteMessage(i, p3, kp).1 == Some([b3, b4]) && i3.sym.ck == ck && r3.sym.ck == ck
            && Transport(i3) == Some((Cipher(Some(Kdf1(ck, Label(2))), 0), Cipher(Some(Kdf2(ck, Label(2))), 0)))
            && Transport(r3) == Some((Cipher(Some(Kdf2(ck, Label(2))), 0), Cipher(Some(Kdf1(ck, Label(2))), 0)))
  {
    MessageAgrees(i, r, p3, kp);
    WriteThreeKeys(i, er, p3, kp);
  }

  /**
   What two honest sides put on the wire, for all keys, payloads and prologues:
   the key, the number and the hash every box is sealed under; and the chaining
   key and the two transport keys they end with.
   */
  lemma Transcript(si: KeyId, sr: KeyId, prologue: Data, p1: Data, p2: Data, p3: Data, ei: KeyId, er: KeyId, kp: KeyId)
    ensures var (i1, r1, got1) := AfterOne(NewHs(true, si, prologue), NewHs(false, sr, prologue), p1, ei);
            var (r2, i2, got2) := AfterOne(r1, i1, p2, er);
            var (i3, r3, got3) := AfterOne(i2, r2, p3, kp);
            var ee, es, se := SharedKey(ei, er), SharedKey(ei, sr), SharedKey(si, er);
            var he := Mix(Mix(Mix(Mix(ProtocolName, prologue), [PubKey(ei)]), p1), [PubKey(er)]);
            var (b1, b2) := SecondBoxes(ee, es, he, sr, p2);
            var (b3, b4) := ThirdBoxes(ee, es, se, Mix(Mix(he, [b1]), [b2]), si, p3);
            var ck := Chained(ee, es, se);
            && WriteMessage(NewHs(true, si, prologue), p1, ei).1 == Some([PubKey(ei)] + p1)
            && WriteMessage(r1, p2, er).1 == Some([PubKey(er), b1, b2])
            && WriteMessage(i2, p3, kp).1 == Some([b3, b4])
            && Distinct([(b1.key, b1.n), (b2.key, b2.n), (b3.key, b3.n), (b4.key, b4.n)])
            && i3.sym.ck == ck && r3.sym.ck == ck
            && Transport(i3) == Some((Cipher(Some(Kdf1(ck, Label(2))), 0), Cipher(Some(Kdf2(ck, Label(2))), 0)))
            && Transport(r3) == Some((Cipher(Some(Kdf2(ck, Label(2))), 0), Cipher(Some(Kdf1(ck, Label(2))), 0)))
  {
    var h1 := Mix(Mix(Mix(ProtocolName, prologue), [PubKey(ei)]), p1);
    WriteOneKeys(si, prologue, p1, ei);
    OpenedAfterOne(si, sr, prologue, p1, ei);
    var (i1, r1, got1) := AfterOne(NewHs(true, si, prologue), NewHs(false, sr, prologue), p1, ei);
    AnsweredAfterTwo(i1, r1, si, sr, ei, h1, p2, er);
    var (r2, i2, got2) := AfterOne(r1, i1, p2, er);
    var ee, es, he := SharedKey(ei, er), SharedKey(ei, sr), Mix(h1, [PubKey(er)]);
    var (b1, b2) := SecondBoxes(ee, es, he, sr, p2);
    FinishedAfterThree(i2, r2, si, er, ee, es, Mix(Mix(he, [b1]), [b2]), p3, kp);
    BoxesDiffer(ee, es, SharedKey(si, er), he, Mix(Mix(he, [b1]), [b2]), sr, si, p2, p3);
  }

  // ----- who can obtain a secret -----------------------------------------------------------------

  /** Secrets that were drawn or rejected, not computed. */
  predicate Uncomputed(secrets: set<Secret>) { forall x :: x in secrets ==> x.Seed? || x.Rejection? }

  predicate Holds(keys: set<KeyId>, a: KeyId, b: KeyId) { a in keys || b in keys }

  /**
   To compute the chaining key an honest handshake ends with takes a private key
   of each of the three pairs. So both static keys together do not suffice, nor
   do one side's two keys less one.
   */
  lemma HandshakeSecretExactly(si: KeyId, sr: KeyId, prologue: Data, p1: Data, p2: Data, p3: Data,
                               ei: KeyId, er: KeyId, kp: KeyId, keys: set<KeyId>, secrets: set<Secret>)
    requires Uncomputed(secrets)
    ensures var (i1, r1, got1) := AfterOne(NewHs(true, si, prologue), NewHs(false, sr, prologue), p1, ei);
            var (r2, i2, got2) := AfterOne(r1, i1, p2, er);
            var i3 := AfterOne(i2, r2, p3, kp).0;
            Obtains(i3.sym.ck, keys, secrets) <==> Holds(keys, ei, er) && Holds(keys, ei, sr) && Holds(keys, si, er)
  {
    Transcript(si, sr, prologue, p1, p2, p3, ei, er, kp);
    ChainedExactly(si, sr, ei, er, keys, secrets);
  }

  lemma ChainedExactly(si: KeyId, sr: KeyId, ei: KeyId, er: KeyId, keys: set<KeyId>, secrets: set<Secret>)
    requires Uncomputed(secrets)
    ensures Obtains(Chained(SharedKey(ei, er), SharedKey(ei, sr), SharedKey(si, er)), keys, secrets)
       <==> Holds(keys, ei, er) && Holds(keys, ei, sr) && Holds(keys, si, er)
  {
    var ee, es := SharedKey(ei, er), SharedKey(ei, sr);
    assert Obtains(Kdf1(Label(0), ee), keys, secrets) <==> Holds(keys, ei, er);
    assert Obtains(Kdf1(Kdf1(Label(0), ee), es), keys, secrets) <==> Holds(keys, ei, er) && Holds(keys, ei, sr);
  }

  // ----- any frames at all -------------------------------------------------------------------------

  /** `dh` went into the chaining key. */
  predicate MixedIn(ck: Secret, dh: Secret) {
    ck.Kdf1? && (ck.ikm == dh || MixedIn(ck.salt, dh))
  }

  lemma {:induction false} MixedNeeded(ck: Secret, dh: Secret, keys: set<KeyId>, secrets: set<Secret>)
    requires Uncomputed(secrets) && MixedIn(ck, dh) && Obtains(ck, keys, secrets)
    ensures Obtains(dh, keys, secrets)
  {
    if ck.ikm != dh { MixedNeeded(ck.salt, dh, keys, secrets); }
  }

  /** The chaining key is made of the first two results. */
  predicate RestsOnTwo(hs: Hs) {
    HoldsKeys(hs) && MixedIn(hs.sym.ck, EphemeralDh(hs)) && MixedIn(hs.sym.ck, ResponderDh(hs))
  }

  predicate RestsOnThree(hs: Hs) {
    RestsOnTwo(hs) && hs.rs.Some? && IsKey(hs.rs.value) && MixedIn(hs.sym.ck, InitiatorDh(hs))
  }

  /** What a ready channel's chaining key and first ratchet are made of, whatever frames made it ready. */
  ghost predicate SoundlyReady(c: Channel) {
    && RestsOnThree(c.hs) && c.remoteStatic == c.hs.rs
    && c.pqSecret.Some? && c.remoteDR.Some? && IsKey(c.remoteDR.value)
    && var root, remote := Hybrid(c.hs.sym.ck, c.pqSecret.value), c.remoteDR.value[0].id;
       c.ratchet == Some(if c.initiator then DR.InitAlice(root, c.drKey, remote) else DR.InitBob(root, c.drKey, remote))
  }

  ghost predicate Keyed(c: Channel, s: KeyId) {
    && c.hs.s == s && c.hs.initiator == c.initiator
    && (!c.initiator && c.hs.index == 2 ==> RestsOnTwo(c.hs) && c.hs.sym.cipher.k.Some?)
    && (c.phase == Ready ==> SoundlyReady(c))
  }

  lemma FrameOf(hs: Hs, m: Data, payload: Data, kp: KeyId)
    ensures ReadMessage(hs, m).0.s == hs.s && ReadMessage(hs, m).0.initiator == hs.initiator
    ensures WriteMessage(hs, payload, kp).0.s == hs.s && WriteMessage(hs, payload, kp).0.initiator == hs.initiator
  {
    if hs.index < |PATTERNS| {
      ReadTokensFrame(hs, PATTERNS[hs.index], m);
      WriteTokensFrame(hs, PATTERNS[hs.index], kp);
    }
  }

  /** Message 2 read and message 3 written by an initiator: all three results are in. */
  lemma ReadThenWrite(hs: Hs, m: Data, answer: Data, kp: KeyId)
    requires hs.initiator && hs.index == 1 && ReadMessage(hs, m).1.Some?
    ensures RestsOnThree(WriteMessage(ReadMessage(hs, m).0, answer, kp).0)
  {
    ReadTwoKeys(hs, m);
    var hs1 := ReadMessage(hs, m).0;
    assert hs1.re.value == [PubKey(hs1.re.value[0].id)];
    WriteThreeKeys(hs1, hs1.re.value[0].id, answer, kp);
  }

  /** Only a reading of message 2 that was waited for makes an initiator ready. */
  lemma Step2ReadyHs(c: Channel, peer: PeerId, data: Data, d: Draw) returns (answer: Data)
    requires InitiatorShape(c) && OnStep2(c, peer, data, d).0.phase == Ready
    ensures c.hs.index == 1 && ReadMessage(c.hs, data).1.Some?
    ensures OnStep2(c, peer, data, d).0.hs == WriteMessage(ReadMessage(c.hs, data).0, answer, d.e).0
  {
    OnStep2Ready(c, peer, data, d);
    var (hs1, payload) := ReadMessage(c.hs, data);
    answer := [PubKey(c.drKey)] + Encapsulate(SplitPayload(payload.value).value.1, d.secret).value.0;
    ReadProceeds(c.hs, data);
    WriteProceeds(hs1, answer, d.e);
  }

  /** What finalizing leaves of a channel that is ready after message 2. */
  lemma Step2ReadyParts(c: Channel, peer: PeerId, data: Data, d: Draw)
    requires InitiatorShape(c) && OnStep2(c, peer, data, d).0.phase == Ready
    ensures var c2 := OnStep2(c, peer, data, d).0; c2.remoteStatic == c2.hs.rs
  {
    OnStep2Ready(c, peer, data, d);
    ReadTwoShape(c.hs, data);
  }

  lemma Step2Keyed(c: Channel, peer: PeerId, data: Data, d: Draw)
    requires Keyed(c, c.hs.s) && c.initiator && InitiatorShape(c)
    ensures Keyed(OnStep2(c, peer, data, d).0, c.hs.s)
  {
    FrameOf(c.hs, data, [], 0);
    if OnStep2(c, peer, data, d).0.phase == Ready {
      var answer := Step2ReadyHs(c, peer, data, d);
      OnStep2Ready(c, peer, data, d);
      Step2ReadyParts(c, peer, data, d);
      FrameOf(ReadMessage(c.hs, data).0, [], answer, d.e);
      ReadThenWrite(c.hs, data, answer, d.e);
    } else {
      var answer := Step2Hs(c, peer, data, d);
      FrameOf(ReadMessage(c.hs, data).0, [], answer, d.e);
    }
  }

  /** Reading on takes nothing out of the chaining key. */
  lemma {:induction false} ReadTokensKeepMixed(hs: Hs, ts: seq<Token>, m: Data)
    requires E !in ts && !hs.initiator && RestsOnTwo(hs) && hs.sym.cipher.k.Some?
    ensures RestsOnTwo(ReadTokens(hs, ts, m).0) && ReadTokens(hs, ts, m).0.sym.cipher.k.Some?
    decreases |ts|
  {
    if ts != [] && ReadToken(hs, ts[0], m).1.Some? {
      ReadTokensKeepMixed(ReadToken(hs, ts[0], m).0, ts[1..], ReadToken(hs, ts[0], m).1.value);
    }
  }

  /** What a responder's handshake state rests on after reading any frame as message 3. */
  lemma Read3Keyed(hs: Hs, m: Data)
    requires !hs.initiator && (hs.index == 2 ==> RestsOnTwo(hs) && hs.sym.cipher.k.Some?)
    ensures var (hs2, payload) := ReadMessage(hs, m);
            && (hs2.index == 2 ==> RestsOnTwo(hs2) && hs2.sym.cipher.k.Some?)
            && (payload.Some? && hs.index == 2 ==> RestsOnThree(hs2))
  {
    if hs.index == 2 {
      ReadTokensKeepMixed(hs, PATTERNS[2], m);
      if ReadMessage(hs, m).1.Some? { ReadThreeKeys(hs, m); }
    } else if hs.index == 1 && ReadMessage(hs, m).1.Some? {
      ReadTwoKeys(hs, m);
    }
  }

  lemma Step3Keyed(c: Channel, data: Data)
    requires Keyed(c, c.hs.s) && GenuineResponder(c)
    ensures Keyed(OnStep3(c, data), c.hs.s)
  {
    FrameOf(c.hs, data, [], 0);
    MessageFrame(c.hs, data, [], 0);
    Read3Keyed(c.hs, data);
    Step3Hs(c, data);
  }

  lemma Step1Keyed(c: Channel, peer: PeerId, data: Data, d: Draw)
    requires !c.initiator && !c.hs.initiator && Unbegun(c.hs) && c.phase == Handshaking
    ensures Keyed(OnStep1(c, peer, data, d).0, c.hs.s)
  {
    FirstRead(c.hs, data);
    var hs1, offer := ReadMessage(c.hs, data).0, [PubKey(c.drKey), KemPub(d.kem)];
    SecondWrite(hs1, offer, d.e);
    if IsKey(hs1.re.value) {
      assert hs1.re.value == [PubKey(hs1.re.value[0].id)];
      WriteTwoKeys(hs1, hs1.re.value[0].id, offer, d.e);
    }
  }

  ghost predicate AllKeyed(m: Manager) { forall p :: p in m.channels ==> Keyed(m.channels[p], m.staticKey) }

  lemma EnsureKeyed(m: Manager, peer: PeerId, d: Draw)
    requires AllKeyed(m)
    ensures AllKeyed(EnsureChannel(m, peer, d).0)
  {
    FrameOf(NewChannel(m, peer, d).hs, [], [], d.e);
  }

  lemma SignalKeyed(m: Manager, from: PeerId, f: NoiseFrame, d: Draw)
    requires AllKeyed(m) && AllGenuine(m)
    ensures AllKeyed(OnSignal(m, from, f, d).0)
  {
    if f.to == m.selfId && f.step == 0 {
      EnsureKeyed(RemovePeer(m, from), from, d);
    } else if f.to == m.selfId {
      NewGenuine(m, from, d);
      var c := if from !in m.channels || f.step == 1 then NewChannel(m, from, d) else m.channels[from];
      FrameKeyed(c, from, f, d);
    }
  }

  /** What a frame of the steps 1 to 3 makes of the channel it is read on. */
  lemma FrameKeyed(c: Channel, from: PeerId, f: NoiseFrame, d: Draw)
    requires Keyed(c, c.hs.s) && Genuine(c) && (f.step == 1 && !c.initiator ==> Unbegun(c.hs) && c.phase == Handshaking)
    ensures c.initiator && f.step == 2 ==> Keyed(OnStep2(c, from, f.data, d).0, c.hs.s)
    ensures !c.initiator && f.step == 1 ==> Keyed(OnStep1(c, from, f.data, d).0, c.hs.s)
    ensures !c.initiator && f.step == 3 ==> Keyed(OnStep3(c, f.data), c.hs.s)
  {
    if c.initiator && f.step == 2 {
      Step2Keyed(c, from, f.data, d);
    } else if !c.initiator && f.step == 1 {
      Step1Keyed(c, from, f.data, d);
    } else if !c.initiator && f.step == 3 {
      Step3Keyed(c, f.data);
    }
  }

  lemma MoveKeyed(m: Manager, e: Move)
    requires AllKeyed(m) && AllGenuine(m)
    ensures AllKeyed(MoveStep(m, e)) && MoveStep(m, e).staticKey == m.staticKey
  {
    match e
    case Ensured(peer, d) => EnsureKeyed(m, peer, d);
    case Removed(peer) =>
    case Received(from, to, step, data, d) =>
      if data.Some? {
        SignalKeyed(m, from, NoiseFrame(to, step, data.value), d);
      } else if step == 0 {
        EnsureKeyed(RemovePeer(m, from), from, d);
      }
  }

  lemma {:induction false} RunKeyed(m: Manager, es: seq<Move>)
    requires m.channels == map[]
    ensures AllKeyed(MoveRun(m, es)) && MoveRun(m, es).staticKey == m.staticKey
  {
    if es != [] {
      RunKeyed(m, es[..|es| - 1]);
      RunGenuine(m, es[..|es| - 1]);
      MoveKeyed(MoveRun(m, es[..|es| - 1]), es[|es| - 1]);
    }
  }

  /**
   A client takes whatever frames a relay hands it. Every channel that comes to
   ready holds public keys `y` and `q` of the peer, ephemeral and static, and its
   ratchet starts from a root made of the DH of its own ephemeral key `e` with
   `y`, that of the initiator's ephemeral and the responder's static key, that of
   the initiator's static and the responder's ephemeral key, and the KEM secret.
   Whoever computes that root knows a private key of each of the three pairs, and
   the KEM secret.
   */
  lemma ReadyRestsOnThreeKeys(m: Manager, es: seq<Move>, p: PeerId, keys: set<KeyId>, secrets: set<Secret>)
    requires Uncomputed(secrets)
    requires m.channels == map[] && p in MoveRun(m, es).channels && MoveRun(m, es).channels[p].phase == Ready
    ensures var c := MoveRun(m, es).channels[p];
            && c.hs.e.Some? && c.hs.re.Some? && IsKey(c.hs.re.value) && c.remoteStatic.Some? && IsKey(c.remoteStatic.value)
            && c.pqSecret.Some? && c.remoteDR.Some? && IsKey(c.remoteDR.value)
            && var s, e, y, q := m.staticKey, c.hs.e.value, c.hs.re.value[0].id, c.remoteStatic.value[0].id;
               var root, remote := Hybrid(c.hs.sym.ck, c.pqSecret.value), c.remoteDR.value[0].id;
            && c.ratchet == Some(if c.initiator then DR.InitAlice(root, c.drKey, remote) else DR.InitBob(root, c.drKey, remote))
            && MixedIn(c.hs.sym.ck, SharedKey(e, y))
            && MixedIn(c.hs.sym.ck, if c.initiator then SharedKey(e, q) else SharedKey(s, y))
            && MixedIn(c.hs.sym.ck, if c.initiator then SharedKey(s, y) else SharedKey(e, q))
            && (Obtains(root, keys, secrets) ==> Holds(keys, e, y) && Holds(keys, e, q) && Holds(keys, s, y) && Obtains(c.pqSecret.value, keys, secrets))
  {
    RunKeyed(m, es);
    var c := MoveRun(m, es).channels[p];
    assert Keyed(c, m.staticKey);
    ThreeNeeded(c.hs, keys, secrets);
  }

  /** What it takes to obtain a chaining key made of the three results. */
  lemma ThreeNeeded(hs: Hs, keys: set<KeyId>, secrets: set<Secret>)
    requires Uncomputed(secrets) && RestsOnThree(hs)
    ensures var s, e, y, q := hs.s, hs.e.value, hs.re.value[0].id, hs.rs.value[0].id;
            Obtains(hs.sym.ck, keys, secrets) ==> Holds(keys, e, y) && Holds(keys, e, q) && Holds(keys, s, y)
  {
    if Obtains(hs.sym.ck, keys, secrets) {
      MixedNeeded(hs.sym.ck, EphemeralDh(hs), keys, secrets);
      MixedNeeded(hs.sym.ck, ResponderDh(hs), keys, secrets);
      MixedNeeded(hs.sym.ck, InitiatorDh(hs), keys, secrets);
    }
  }
}
