/**
 What comparing safety numbers is for. Nothing is assumed of the frames here: a
 relay may make them up. If two ready channels show the same number, they hold
 the two ends of one handshake.
 */
module SafetyNumbers {
  import opened Common
  import opened Symbolic
  import opened Noise
  import opened NoiseProof
  import opened HandshakeShapes
  import opened PeerChannels
  import opened ChannelAgreement
  import opened ChannelNetwork
  import DR = DoubleRatchet

  // ----- the layers of a hash ------------------------------------------------------------------

  /** What was mixed into a running hash, first things first. */
  function Layers(h: Digest): seq<Data> {
    if h.Mix? then Layers(h.h) + [h.data] else []
  }

  predicate IsKey(d: Data) { |d| == 1 && d[0].PubKey? }

  /** Nothing that was mixed in is ever taken out. */
  lemma {:induction false} ReadTokensGrow(hs: Hs, ts: seq<Token>, m: Data)
    ensures Layers(hs.sym.h) <= Layers(ReadTokens(hs, ts, m).0.sym.h)
    decreases |ts|
  {
    if ts != [] && ReadToken(hs, ts[0], m).1.Some? {
      ReadTokensGrow(ReadToken(hs, ts[0], m).0, ts[1..], ReadToken(hs, ts[0], m).1.value);
    }
  }

  lemma ReadGrows(hs: Hs, m: Data)
    ensures Layers(hs.sym.h) <= Layers(ReadMessage(hs, m).0.sym.h)
  {
    if hs.index < |PATTERNS| { ReadTokensGrow(hs, PATTERNS[hs.index], m); }
  }

  lemma {:induction false} WriteTokensGrow(hs: Hs, ts: seq<Token>, kp: KeyId)
    ensures Layers(hs.sym.h) <= Layers(WriteTokens(hs, ts, kp).0.sym.h)
    decreases |ts|
  {
    if ts != [] && WriteToken(hs, ts[0], kp).1.Some? {
      WriteTokensGrow(WriteToken(hs, ts[0], kp).0, ts[1..], kp);
    }
  }

  lemma WriteGrows(hs: Hs, payload: Data, kp: KeyId)
    ensures Layers(hs.sym.h) <= Layers(WriteMessage(hs, payload, kp).0.sym.h)
  {
    if hs.index < |PATTERNS| { WriteTokensGrow(hs, PATTERNS[hs.index], kp); }
  }

  /** Message 1 is read by whoever has not begun, whatever it holds. */
  lemma FirstRead(hs: Hs, m: Data)
    requires hs.index == 0 && hs.sym.cipher.k.None?
    ensures var (hs1, payload) := ReadMessage(hs, m);
            && payload.Some? && hs1.index == 1 && hs1.e == hs.e && hs1.s == hs.s && hs1.initiator == hs.initiator
            && hs1.pair == hs.pair && hs1.rs == hs.rs && hs1.re.Some? && hs1.sym.cipher.k.None?
            && Layers(hs1.sym.h) == Layers(hs.sym.h) + [hs1.re.value] + [payload.value]
  {
    var a := ReadToken(hs, E, m);
    assert PATTERNS[0] == [E] && [E][1..] == [];
    assert ReadTokens(hs, [E], m) == (a.0, a.1);
  }

  /** Whoever writes message 2 mixes its ephemeral key in first, and gets through only to a key it has read. */
  lemma SecondWrite(hs: Hs, payload: Data, kp: KeyId)
    requires hs.index == 1 && hs.re.Some?
    ensures var (hs2, m) := WriteMessage(hs, payload, kp);
            && hs2.e == Some(kp) && hs2.s == hs.s && hs2.initiator == hs.initiator && hs2.pair == hs.pair
            && Layers(hs.sym.h) + [[PubKey(kp)]] <= Layers(hs2.sym.h)
            && hs2.index == (if m.Some? then 2 else 1)
            && (m.Some? ==> IsKey(hs.re.value))
  {
    var a := WriteToken(hs, E, kp).0;
    assert PATTERNS[1] == [E] + [EE, S, ES] && PATTERNS[1][1..] == [EE, S, ES];
    assert WriteTokens(hs, PATTERNS[1], kp).0 == WriteTokens(a, [EE, S, ES], kp).0;
    WriteTokensGrow(a, [EE, S, ES], kp);
    WriteTokensFrame(a, [EE, S, ES], kp);
    WriteTokensE(a, [EE, S, ES], kp);
    assert [EE, S, ES][0] == EE;
  }

  /** Only the token `e` draws an ephemeral key. */
  lemma {:induction false} WriteTokensE(hs: Hs, ts: seq<Token>, kp: KeyId)
    requires E !in ts
    ensures WriteTokens(hs, ts, kp).0.e == hs.e
    decreases |ts|
  {
    if ts != [] && WriteToken(hs, ts[0], kp).1.Some? {
      WriteTokensE(WriteToken(hs, ts[0], kp).0, ts[1..], kp);
    }
  }

  // ----- the initiator ---------------------------------------------------------------------------

  /** The key the side drew for this handshake went into the hash where it belongs, or behind what it was sent first. */
  ghost predicate Rooted(hs: Hs) {
    var l := Layers(hs.sym.h);
    && hs.e.Some?
    && ((|l| > 1 && l[1] == [PubKey(hs.e.value)]) || (|l| > 3 && l[3] == [PubKey(hs.e.value)]))
  }

  predicate Unbegun(hs: Hs) {
    hs.index == 0 && hs.e.None? && hs.sym.cipher.k.None? && hs.pair.None? && |Layers(hs.sym.h)| == 1
  }

  ghost predicate GenuineInitiator(c: Channel) {
    && InitiatorShape(c) && c.hs.initiator
    && (c.hs.index == 0 ==> Unbegun(c.hs))
    && ((c.hs.index == 1 && c.hs.e.Some?) || c.phase == Ready ==> Rooted(c.hs))
  }

  lemma RootedGrows(hs: Hs, hs2: Hs)
    requires Rooted(hs) && hs2.e == hs.e && Layers(hs.sym.h) <= Layers(hs2.sym.h)
    ensures Rooted(hs2)
  {
  }

  lemma FirstWrite(hs: Hs, kp: KeyId)
    requires Unbegun(hs)
    ensures var hs2 := WriteMessage(hs, [], kp).0;
            hs2.index == 1 && hs2.initiator == hs.initiator && hs2.pair == hs.pair && Rooted(hs2)
  {
    var a := WriteToken(hs, E, kp).0;
    assert PATTERNS[0] == [E] && [E][1..] == [];
    assert WriteTokens(hs, [E], kp) == (a, Some([PubKey(kp)] + []));
    assert Layers(a.sym.h) == Layers(hs.sym.h) + [[PubKey(kp)]];
  }

  /** Message 2 read out of turn, before anything was sent. */
  lemma Step2Unbegun(c: Channel, peer: PeerId, data: Data, d: Draw)
    requires GenuineInitiator(c) && c.hs.index == 0
    ensures GenuineInitiator(OnStep2(c, peer, data, d).0)
  {
    OnStep2Shape(c, peer, data, d);
    FirstRead(c.hs, data);
    var (hs1, payload) := ReadMessage(c.hs, data);
    if SplitPayload(payload.value).Some? {
      var blob := SplitPayload(payload.value).value.1;
      if Encapsulate(blob, d.secret).Some? {
        SecondWrite(hs1, [PubKey(c.drKey)] + Encapsulate(blob, d.secret).value.0, d.e);
      }
    }
  }

  /** The handshake state that a reading of message 2 leaves: what it read, or what it wrote after that. */
  lemma Step2Hs(c: Channel, peer: PeerId, data: Data, d: Draw) returns (answer: Data)
    ensures var hs1, c2 := ReadMessage(c.hs, data).0, OnStep2(c, peer, data, d).0;
            c2.hs == hs1 || (ReadMessage(c.hs, data).1.Some? && c2.hs == WriteMessage(hs1, answer, d.e).0)
  {
    var payload := ReadMessage(c.hs, data).1;
    answer := [];
    if payload.Some? && SplitPayload(payload.value).Some? {
      var blob := SplitPayload(payload.value).value.1;
      if Encapsulate(blob, d.secret).Some? { answer := [PubKey(c.drKey)] + Encapsulate(blob, d.secret).value.0; }
    }
  }

  /** What was rooted stays rooted through a reading of message 2 and the writing of message 3. */
  lemma AwaitedRooted(hs: Hs, data: Data, answer: Data, kp: KeyId)
    requires hs.index == 1 && hs.pair.None? && Rooted(hs)
    ensures var hs1 := ReadMessage(hs, data).0;
            && Rooted(hs1) && hs1.initiator == hs.initiator && hs1.index >= 1
            && (ReadMessage(hs, data).1.Some? ==>
                  var hs2 := WriteMessage(hs1, answer, kp).0;
                  Rooted(hs2) && hs2.initiator == hs.initiator && hs2.index >= 1)
  {
    MessageFrame(hs, data, [], 0);
    ReadGrows(hs, data);
    var hs1 := ReadMessage(hs, data).0;
    RootedGrows(hs, hs1);
    if ReadMessage(hs, data).1.Some? {
      ThirdWrite(hs1, answer, kp);
      RootedGrows(hs1, WriteMessage(hs1, answer, kp).0);
    }
  }

  /** Message 2 read while waiting for it. */
  lemma Step2Awaited(c: Channel, peer: PeerId, data: Data, d: Draw)
    requires GenuineInitiator(c) && c.hs.index == 1
    ensures GenuineInitiator(OnStep2(c, peer, data, d).0)
  {
    OnStep2Shape(c, peer, data, d);
    if c.hs.e.None? {
      MessageFrame(c.hs, data, [], 0);
      ReadTwoNeedsEphemeral(c.hs, data);
    } else {
      var answer := Step2Hs(c, peer, data, d);
      AwaitedRooted(c.hs, data, answer, d.e);
    }
  }

  lemma ThirdWrite(hs: Hs, payload: Data, kp: KeyId)
    requires hs.index >= 2 && (hs.pair.Some? ==> hs.index >= 3)
    ensures var hs2 := WriteMessage(hs, payload, kp).0;
            hs2.e == hs.e && hs2.index >= 2 && hs2.initiator == hs.initiator && Layers(hs.sym.h) <= Layers(hs2.sym.h)
  {
    MessageFrame(hs, [], payload, kp);
    WriteGrows(hs, payload, kp);
    if hs.index == 2 { WriteTokensE(hs, PATTERNS[2], kp); }
  }

  /** Message 2 read when the handshake is past it: the channel fails. */
  lemma Step2Late(c: Channel, peer: PeerId, data: Data, d: Draw)
    requires GenuineInitiator(c) && c.hs.index >= 2
    ensures GenuineInitiator(OnStep2(c, peer, data, d).0)
  {
    OnStep2Shape(c, peer, data, d);
    MessageFrame(c.hs, data, [], 0);
    var (hs1, payload) := ReadMessage(c.hs, data);
    if payload.Some? && SplitPayload(payload.value).Some? {
      var blob := SplitPayload(payload.value).value.1;
      if Encapsulate(blob, d.secret).Some? {
        ThirdWrite(hs1, [PubKey(c.drKey)] + Encapsulate(blob, d.secret).value.0, d.e);
      }
    }
  }

  lemma Step2Genuine(c: Channel, peer: PeerId, data: Data, d: Draw)
    requires GenuineInitiator(c)
    ensures GenuineInitiator(OnStep2(c, peer, data, d).0)
  {
    if c.hs.index == 0 {
      Step2Unbegun(c, peer, data, d);
    } else if c.hs.index == 1 {
      Step2Awaited(c, peer, data, d);
    } else {
      Step2Late(c, peer, data, d);
    }
  }

  // ----- the responder ---------------------------------------------------------------------------

  /** What a ready responder's hash says about the handshake it finished, if its offer is on record there. */
  ghost predicate ResponderReady(c: Channel) {
    var h, m := c.hs.sym.h, MessageIn(c.hs.sym.h);
    && |m| == 2 && m[1].AeadBox? && m[1].key.Kdf2?
    && ThirdMessage(m, h.h.h, m[1].key.salt, h, c.hs.sym.ck)
    && c.remoteStatic == Some(m[0].plain) && c.safetyNumber == Some(h)
    && SplitPayload(m[1].plain).Some? && c.kem.Some? && c.pqSecret.Some?
    && c.pqSecret == Decapsulate(c.kem.value, SplitPayload(m[1].plain).value.1)
    && c.remoteDR == Some(SplitPayload(m[1].plain).value.0) && IsKey(c.remoteDR.value)
    && c.ratchet == Some(DR.InitBob(Hybrid(c.hs.sym.ck, c.pqSecret.value), c.drKey, c.remoteDR.value[0].id))
    && (IsOffer(LastBox(h.h.h)) ==>
          LastBox(h.h.h) == Some([PubKey(c.drKey), KemPub(c.kem.value)]) && BoxBefore(h.h.h) == Some([PubKey(c.hs.s)]))
  }

  /** The responder has answered a real message 1. */
  ghost predicate Clean(c: Channel) {
    ResponderShape(c) && c.hs.index >= 2 && c.kem.Some? && (c.phase == Ready ==> ResponderReady(c))
  }

  ghost predicate GenuineResponder(c: Channel) {
    var l := Layers(c.hs.sym.h);
    && !c.initiator && !c.hs.initiator && (c.hs.pair.Some? ==> c.hs.index >= 3)
    && (c.hs.index == 0 ==> Unbegun(c.hs))
    && (c.phase == Ready ==> c.hs.index >= 3 && c.safetyNumber == Some(c.hs.sym.h))
    && (c.hs.e.None? ==> c.hs.index <= 1 && c.phase != Ready)
    && (c.hs.e.Some? ==> |l| > 3 && l[3] == [PubKey(c.hs.e.value)] && (IsKey(l[1]) ==> Clean(c)))
  }

  /** Two boxes opened as message 3, whatever else was on the wire. */
  lemma ReadThreeAny(hs: Hs, data: Data)
    requires hs.index == 2 && hs.sym.cipher.k.Some? && ReadMessage(hs, data).1.Some?
    ensures var (hs2, payload) := ReadMessage(hs, data);
            var m := MessageIn(hs2.sym.h);
            && |m| == 2 && ThirdMessage(m, hs.sym.h, hs.sym.ck, hs2.sym.h, hs2.sym.ck)
            && hs2.rs == Some(m[0].plain) && payload == Some(m[1].plain)
            && hs2.index == 3 && hs2.s == hs.s && hs2.pair.Some?
  {
    assert PATTERNS[2] == [S] + ([SE] + []);
    ReadOne(hs, S, [SE] + [], data);
    var (ct, rest) := Slice(data, DHLEN + TAG_LENGTH);
    OpenedBox(hs.sym, ct);
    var a := ReadToken(hs, S, data).0;
    ReadOne(a, SE, [], rest);
    var b := ReadToken(a, SE, rest).0;
    OpenedBox(b.sym, rest);
    ReadTokensKeys(hs, PATTERNS[2], data);
    assert ReadMessage(hs, data).0.sym.h == Mix(Mix(hs.sym.h, ct), rest);
    assert ct == [ct[0]] && rest == [rest[0]];
  }

  /** Message 3 makes a responder ready that knows what its hash says. */
  lemma Step3Ready(c: Channel, data: Data)
    requires Clean(c) && OnStep3(c, data).phase == Ready
    ensures ResponderReady(OnStep3(c, data))
  {
    ReadProceeds(c.hs, data);
    ReadThreeAny(c.hs, data);
  }

  lemma Step3Clean(c: Channel, data: Data)
    requires Clean(c)
    ensures Clean(OnStep3(c, data))
  {
    OnStep3Shape(c, data);
    MessageFrame(c.hs, data, [], 0);
    if OnStep3(c, data).phase == Ready { Step3Ready(c, data); }
  }

  /** What a reading of message 3 makes of the channel, whoever reads it. */
  lemma Step3Hs(c: Channel, data: Data)
    ensures var (hs2, payload) := ReadMessage(c.hs, data);
            var c2 := OnStep3(c, data);
            && c2.hs == hs2 && c2.initiator == c.initiator
            && (c2.phase == Ready ==> payload.Some? && (c.phase == Ready || (hs2.pair.Some? && c2.safetyNumber == Some(hs2.sym.h))))
  {
  }

  /** Message 3 read by a responder that has sent nothing. */
  lemma Step3Unasked(c: Channel, data: Data)
    requires GenuineResponder(c) && c.hs.e.None?
    ensures GenuineResponder(OnStep3(c, data))
  {
    Step3Hs(c, data);
    MessageFrame(c.hs, data, [], 0);
    if c.hs.index == 0 { FirstRead(c.hs, data); } else { ReadTwoNeedsEphemeral(c.hs, data); }
  }

  lemma PrefixKept<T>(l: seq<T>, l2: seq<T>)
    requires l <= l2 && |l| > 3
    ensures |l2| > 3 && l2[1] == l[1] && l2[3] == l[3]
  {
  }

  /** Message 3 read after an answer, to whatever. */
  lemma Step3Answered(c: Channel, data: Data)
    requires GenuineResponder(c) && c.hs.e.Some?
    ensures GenuineResponder(OnStep3(c, data))
  {
    Step3Hs(c, data);
    MessageFrame(c.hs, data, [], 0);
    ReadGrows(c.hs, data);
    PrefixKept(Layers(c.hs.sym.h), Layers(ReadMessage(c.hs, data).0.sym.h));
    if IsKey(Layers(c.hs.sym.h)[1]) { Step3Clean(c, data); }
    AnsweredKept(c, OnStep3(c, data));
  }

  /** The invariant after an answer, put together. */
  lemma AnsweredKept(c: Channel, c2: Channel)
    requires GenuineResponder(c) && c.hs.e.Some? && c2.hs.e == c.hs.e && !c2.initiator && !c2.hs.initiator
    requires (c2.hs.pair.Some? ==> c2.hs.index >= 3) && c2.hs.index >= c.hs.index && c2.hs.index > 0
    requires c2.phase == Ready ==> c2.hs.index >= 3 && c2.safetyNumber == Some(c2.hs.sym.h)
    requires var l, l2 := Layers(c.hs.sym.h), Layers(c2.hs.sym.h);
             |l| > 3 && |l2| > 3 && l2[1] == l[1] && l2[3] == l[3] && (IsKey(l[1]) ==> Clean(c2))
    ensures GenuineResponder(c2)
  {
  }

  lemma Step3Genuine(c: Channel, data: Data)
    requires GenuineResponder(c)
    ensures GenuineResponder(OnStep3(c, data))
  {
    if c.hs.e.None? { Step3Unasked(c, data); } else { Step3Answered(c, data); }
  }

  lemma Step1Genuine(c: Channel, peer: PeerId, data: Data, d: Draw)
    requires !c.initiator && !c.hs.initiator && Unbegun(c.hs) && c.phase == Handshaking
    ensures GenuineResponder(OnStep1(c, peer, data, d).0)
  {
    FirstRead(c.hs, data);
    var hs1 := ReadMessage(c.hs, data).0;
    var offer := [PubKey(c.drKey), KemPub(d.kem)];
    SecondWrite(hs1, offer, d.e);
    if IsKey(hs1.re.value) {
      SecondMessageShape(hs1, offer, d.e);
      WriteTwoShape(hs1, offer, d.e);
    }
  }

  // ----- equal numbers ---------------------------------------------------------------------------

  /** The two hashes tell one story, so the two channels hold its two ends. */
  lemma EqualHashesMirror(ci: Channel, cr: Channel)
    requires InitiatorReady(ci) && ResponderReady(cr) && ci.hs.sym.h == cr.hs.sym.h
    ensures Mirrors(ci, cr)
  {
    var m := MessageIn(ci.hs.sym.h);
    SplitAnswer(ci.drKey, m[1].plain[1].to, ci.pqSecret.value);
    assert IsOffer(LastBox(ci.hs.sym.h.h.h));
  }

  /**
   Two ready channels that know no more of each other than their frames made
   them: the numbers are equal exactly if the channels mirror each other. The two
   ephemeral keys were drawn independently, so they differ.
   */
  lemma EqualNumbersMirror(ci: Channel, cr: Channel)
    requires GenuineInitiator(ci) && GenuineResponder(cr) && ci.phase == Ready && cr.phase == Ready
    requires ci.hs.e != cr.hs.e
    ensures ci.safetyNumber == cr.safetyNumber <==> Mirrors(ci, cr)
  {
    if ci.safetyNumber == cr.safetyNumber { EqualHashesMirror(ci, cr); }
  }

  // ----- any frames at all -----------------------------------------------------------------------

  /** A client's own calls, and any frame at all, from whoever sends it. */
  datatype Move =
    | Ensured(peer: PeerId, d: Draw)
    | Removed(peer: PeerId)
    | Received(from: PeerId, to: PeerId, step: nat, data: Option<Data>, d: Draw)

  function MoveStep(m: Manager, e: Move): Manager {
    match e
    case Ensured(peer, d) => EnsureChannel(m, peer, d).0
    case Removed(peer) => RemovePeer(m, peer)
    case Received(from, to, step, data, d) => OnFrame(m, from, to, step, data, d).0
  }

  function MoveRun(m: Manager, es: seq<Move>): Manager {
    if es == [] then m else MoveStep(MoveRun(m, es[..|es| - 1]), es[|es| - 1])
  }

  ghost predicate Genuine(c: Channel) { if c.initiator then GenuineInitiator(c) else GenuineResponder(c) }

  ghost predicate AllGenuine(m: Manager) { forall p :: p in m.channels ==> Genuine(m.channels[p]) }

  lemma NewGenuine(m: Manager, peer: PeerId, d: Draw)
    ensures var c := NewChannel(m, peer, d);
            Genuine(c) && Unbegun(c.hs) && c.hs.initiator == c.initiator && c.phase == Handshaking && Genuine(c.(phase := Failed))
  {
    var c := NewChannel(m, peer, d);
    assert Layers(c.hs.sym.h) == Layers(ProtocolName) + [PrologueOf(m, peer)];
  }

  /** A failure changes nothing else. */
  lemma FailedGenuine(c: Channel)
    requires Genuine(c)
    ensures Genuine(c.(phase := Failed))
  {
  }

  lemma EnsureGenuine(m: Manager, peer: PeerId, d: Draw)
    requires AllGenuine(m)
    ensures AllGenuine(EnsureChannel(m, peer, d).0)
  {
    NewGenuine(m, peer, d);
    FirstWrite(NewChannel(m, peer, d).hs, d.e);
  }

  lemma SignalGenuine(m: Manager, from: PeerId, f: NoiseFrame, d: Draw)
    requires AllGenuine(m)
    ensures AllGenuine(OnSignal(m, from, f, d).0)
  {
    if f.to == m.selfId && f.step == 0 {
      EnsureGenuine(RemovePeer(m, from), from, d);
    } else if f.to == m.selfId {
      NewGenuine(m, from, d);
      var c := if from !in m.channels || f.step == 1 then NewChannel(m, from, d) else m.channels[from];
      if c.initiator && f.step == 2 {
        Step2Genuine(c, from, f.data, d);
      } else if !c.initiator && f.step == 1 {
        Step1Genuine(c, from, f.data, d);
      } else if !c.initiator && f.step == 3 {
        Step3Genuine(c, f.data);
      }
    }
  }

  lemma MoveGenuine(m: Manager, e: Move)
    requires AllGenuine(m)
    ensures AllGenuine(MoveStep(m, e))
  {
    match e
    case Ensured(peer, d) => EnsureGenuine(m, peer, d);
    case Removed(peer) =>
    case Received(from, to, step, data, d) =>
      if data.Some? {
        SignalGenuine(m, from, NoiseFrame(to, step, data.value), d);
      } else if to == m.selfId && step == 0 {
        EnsureGenuine(RemovePeer(m, from), from, d);
      } else if to == m.selfId {
        NewGenuine(m, from, d);
        if from in m.channels { FailedGenuine(m.channels[from]); }
      }
  }

  lemma {:induction false} RunGenuine(m: Manager, es: seq<Move>)
    requires m.channels == map[]
    ensures AllGenuine(MoveRun(m, es))
  {
    if es != [] {
      RunGenuine(m, es[..|es| - 1]);
      MoveGenuine(MoveRun(m, es[..|es| - 1]), es[|es| - 1]);
    }
  }

  /**
   Two clients start with nothing and take whatever frames a relay hands them,
   genuine, altered or made up, in any order. Wherever one has a ready channel as
   initiator and the other one as responder, the safety numbers are equal if and
   only if the two channels mirror each other: one hybrid root, opposite roles,
   swapped ratchet keys, each other's static key.
   */
  lemma SafetyNumbersDecide(mi: Manager, mr: Manager, es: seq<Move>, ns: seq<Move>, r: PeerId, i: PeerId)
    requires mi.channels == map[] && mr.channels == map[]
    requires r in MoveRun(mi, es).channels && i in MoveRun(mr, ns).channels
    requires var ci, cr := MoveRun(mi, es).channels[r], MoveRun(mr, ns).channels[i];
             ci.initiator && !cr.initiator && ci.phase == Ready && cr.phase == Ready && ci.hs.e != cr.hs.e
    ensures var ci, cr := MoveRun(mi, es).channels[r], MoveRun(mr, ns).channels[i];
            ci.safetyNumber == cr.safetyNumber <==> Mirrors(ci, cr)
  {
    RunGenuine(mi, es);
    RunGenuine(mr, ns);
    EqualNumbersMirror(MoveRun(mi, es).channels[r], MoveRun(mr, ns).channels[i]);
  }
}
