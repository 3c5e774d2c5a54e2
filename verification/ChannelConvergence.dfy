/**
 With lossless wires and nobody reloading or removing a peer, every order of
 ensuring and delivering brings a pair to ready, within a bounded number of
 deliveries; and a responder that lost its channel recovers by ensuring it anew.
 */
module ChannelConvergence {
  import opened Common
  import opened Symbolic
  import opened Noise
  import opened NoiseProof
  import opened PeerChannels
  import opened ChannelAgreement
  import opened ChannelNetwork
  import DR = DoubleRatchet

  /** The two managers of a pair, initiator first. */
  ghost predicate Partners(mi: Manager, mr: Manager) {
    Less(mi.selfId, mr.selfId) && mi.sessionId == mr.sessionId
  }

  lemma SamePrologue(mi: Manager, mr: Manager)
    requires Partners(mi, mr)
    ensures PrologueOf(mi, mr.selfId) == PrologueOf(mr, mi.selfId)
  {
    LessTotal(mi.selfId, mr.selfId);
  }

  function Blank(m: Manager, peer: PeerId, dr: KeyId): Channel { NewChannel(m, peer, Draw(dr, 0, 0, 0)) }

  // ----- the stages of a handshake -------------------------------------------------------

  /** The initiator has sent message 1 and nothing has come back. */
  ghost predicate Waiting(c: Channel, mi: Manager, r: PeerId) {
    var b := Blank(mi, r, c.drKey);
    c.hs.e.Some? && c == b.(hs := WriteMessage(b.hs, [], c.hs.e.value).0)
  }

  /** The responder has sent `m2`, which the waiting initiator will read. */
  ghost predicate Answered(ci: Channel, cr: Channel, m2: Data) {
    && !cr.initiator && cr.phase == Handshaking && cr.kem.Some? && cr.hs.index == 2 && !cr.hs.initiator
    && ReadMessage(ci.hs, m2).1 == Some([PubKey(cr.drKey), KemPub(cr.kem.value)])
    && Agree(ReadMessage(ci.hs, m2).0, cr.hs) && Progress(ReadMessage(ci.hs, m2).0, cr.hs)
    && ReadMessage(ci.hs, m2).0.s == ci.hs.s
  }

  /** The initiator is ready and has sent `m3`, which the responder will read. */
  ghost predicate Closing(ci: Channel, cr: Channel, m3: Data) {
    && ci.phase == Ready && ci.hs.pair.Some? && ci.pqSecret.Some? && ci.safetyNumber == Some(ci.hs.sym.h)
    && !cr.initiator && cr.phase == Handshaking && cr.kem.Some?
    && ci.ratchet == Some(DR.InitAlice(Hybrid(ci.hs.sym.ck, ci.pqSecret.value), ci.drKey, cr.drKey))
    && ci.remoteStatic == Some([PubKey(cr.hs.s)])
    && ReadMessage(cr.hs, m3).1 == Some([PubKey(ci.drKey), KemCt(cr.kem.value, ci.pqSecret.value)])
    && Agree(ci.hs, ReadMessage(cr.hs, m3).0) && Progress(ci.hs, ReadMessage(cr.hs, m3).0)
    && ReadMessage(cr.hs, m3).0.s == cr.hs.s
    && ReadMessage(cr.hs, m3).0.rs == Some([PubKey(ci.hs.s)])
  }

  ghost predicate Done(p: Pair) {
    && IsPhase(p.ci, Ready) && IsPhase(p.cr, Ready) && p.toR == [] && p.toI == []
    && Mirrors(p.ci.value, p.cr.value)
  }

  /**
   Nothing under way, and one side at least has no channel: the responder, with
   the initiator's settled or gone too; or the initiator, whatever the responder
   still holds.
   */
  ghost predicate Idle(p: Pair) {
    && p.toR == [] && p.toI == []
    && ((p.cr == None && !IsPhase(p.ci, Handshaking)) || p.ci == None)
  }

  predicate IsBlank(c: Option<Channel>, m: Manager, peer: PeerId) { c.Some? && c.value == Blank(m, peer, c.value.drKey) }

  function Restart(to: PeerId): NoiseFrame { NoiseFrame(to, 0, []) }

  ghost predicate Asked(p: Pair, p0: Pair, mi: Manager, mr: Manager) {
    p.ci == p0.ci && IsBlank(p.cr, mr, mi.selfId) && p.toR == [] && p.toI == [Restart(mi.selfId)]
  }

  ghost predicate Offered(p: Pair, mi: Manager, mr: Manager) {
    && p.ci.Some? && Waiting(p.ci.value, mi, mr.selfId)
    && p.toR == [NoiseFrame(mr.selfId, 1, [PubKey(p.ci.value.hs.e.value)])]
    && (p.toI == [] || (p.toI == [Restart(mi.selfId)] && IsBlank(p.cr, mr, mi.selfId)))
  }

  ghost predicate Replied(p: Pair, mi: Manager, mr: Manager) {
    && p.ci.Some? && Waiting(p.ci.value, mi, mr.selfId) && p.cr.Some? && p.toR == []
    && 1 <= |p.toI| <= 2 && (|p.toI| == 2 ==> p.toI[0] == Restart(mi.selfId))
    && var f := p.toI[|p.toI| - 1];
       f.to == mi.selfId && f.step == 2 && Answered(p.ci.value, p.cr.value, f.data)
  }

  ghost predicate Confirmed(p: Pair, mi: Manager, mr: Manager) {
    && p.ci.Some? && p.cr.Some? && p.toI == [] && |p.toR| == 1
    && p.toR[0].to == mr.selfId && p.toR[0].step == 3 && Closing(p.ci.value, p.cr.value, p.toR[0].data)
  }

  /** Where a pair that started from `p0` can be. */
  ghost predicate Stage(p: Pair, p0: Pair, mi: Manager, mr: Manager) {
    || (p == p0 && Idle(p0))
    || (Asked(p, p0, mi, mr) && Idle(p0))
    || Offered(p, mi, mr)
    || Replied(p, mi, mr)
    || Confirmed(p, mi, mr)
    || Done(p)
  }

  /** How many frames can still be delivered between the two. */
  function Rank(p: Pair): nat {
    if IsPhase(p.ci, Ready) && p.toR != [] then 1
    else if !IsPhase(p.ci, Handshaking) then (if p.ci == None || p.cr == None || p.toI != [] then 4 else 0)
    else if p.toR != [] then (if p.cr == None then 4 else 3 + |p.toI|)
    else 1 + |p.toI|
  }

  // ----- the four frames -----------------------------------------------------------------

  lemma OfferMade(mi: Manager, r: PeerId, d: Draw)
    requires Less(mi.selfId, r) && r !in mi.channels
    ensures var (m2, out) := EnsureChannel(mi, r, d);
            && r in m2.channels && Waiting(m2.channels[r], mi, r)
            && out == Some(NoiseFrame(r, 1, [PubKey(m2.channels[r].hs.e.value)]))
  {
    LessTotal(mi.selfId, r);
    var b := Blank(mi, r, d.dr);
    assert NewChannel(mi, r, d) == b;
    FirstMessage(b.hs, d.e);
    WriteTokensKeys(b.hs, PATTERNS[0], d.e);
  }

  /** The responder's answer to message 1. */
  lemma AnswerMade(ci: Channel, mi: Manager, mr: Manager, d: Draw)
    requires Partners(mi, mr) && Waiting(ci, mi, mr.selfId)
    ensures var (cr, out) := OnStep1(NewChannel(mr, mi.selfId, d), mi.selfId, [PubKey(ci.hs.e.value)], d);
            out.Some? && out.value.to == mi.selfId && out.value.step == 2 && Answered(ci, cr, out.value.data)
  {
    SamePrologue(mi, mr);
    LessTotal(mi.selfId, mr.selfId);
    var bi, br := Blank(mi, mr.selfId, ci.drKey), NewChannel(mr, mi.selfId, d);
    FreshPair(mi.staticKey, mr.staticKey, PrologueOf(mi, mr.selfId));
    MessageAgrees(bi.hs, br.hs, [], ci.hs.e.value);
    FirstMessage(bi.hs, ci.hs.e.value);
    var r1 := ReadMessage(br.hs, [PubKey(ci.hs.e.value)]).0;
    MessageAgrees(r1, ci.hs, [PubKey(br.drKey), KemPub(d.kem)], d.e);
  }

  lemma SplitOfferOf(id: KeyId, kem: nat)
    ensures SplitPayload([PubKey(id), KemPub(kem)]) == Some(([PubKey(id)], [KemPub(kem)]))
    ensures Len([KemPub(kem)]) == KEM_PUBLIC_KEY_BYTES
  {
    var p, b := [PubKey(id), KemPub(kem)], [KemPub(kem)];
    assert p == [PubKey(id)] + b;
    SliceWhole(PubKey(id), b, DR_KEY_BYTES);
    assert p[1..] == b && b[1..] == [];
    assert Len(b) == KEM_PUBLIC_KEY_BYTES + Len([]);
    assert Len(p) == DHLEN + Len(b);
  }

  /** The initiator's message 3, after which it is ready. */
  lemma ConfirmMade(ci: Channel, cr: Channel, mi: Manager, r: PeerId, m2: Data, d: Draw)
    requires Less(mi.selfId, r) && Waiting(ci, mi, r) && Answered(ci, cr, m2)
    ensures var (c2, out) := OnStep2(ci, r, m2, d);
            && out.Some? && out.value.to == r && out.value.step == 3
            && Closing(c2, cr, out.value.data)
  {
    var (hs1, pay2) := ReadMessage(ci.hs, m2);
    SplitOfferOf(cr.drKey, cr.kem.value);
    var ct := [KemCt(cr.kem.value, Seed(d.secret))];
    var pay3 := [PubKey(ci.drKey), KemCt(cr.kem.value, Seed(d.secret))];
    assert [PubKey(ci.drKey)] + ct == pay3;
    ReadProceeds(ci.hs, m2);
    WaitingHs(ci, mi, r);
    ReadTokensFrame(ci.hs, PATTERNS[1], m2);
    MessageAgrees(hs1, cr.hs, pay3, d.e);
    ProceedSplits(hs1, pay3, d.e);
    WriteTokensKeys(hs1, PATTERNS[2], d.e);
  }

  lemma WaitingHs(c: Channel, mi: Manager, r: PeerId)
    requires Less(mi.selfId, r) && Waiting(c, mi, r)
    ensures c.hs.index == 1 && c.hs.initiator && c.initiator && c.phase == Handshaking && c.hs.pair.None?
  {
    var b := Blank(mi, r, c.drKey);
    FirstMessage(b.hs, c.hs.e.value);
    WriteTokensFrame(b.hs, PATTERNS[0], c.hs.e.value);
  }

  /** The responder reads message 3 and is ready too. */
  lemma Finish(ci: Channel, cr: Channel, m3: Data)
    requires Closing(ci, cr, m3)
    ensures OnStep3(cr, m3).phase == Ready && Mirrors(ci, OnStep3(cr, m3))
  {
    SplitAnswer(ci.drKey, cr.kem.value, ci.pqSecret.value);
  }

  // ----- one call and one stage ----------------------------------------------------------

  /** `m` is the manager `base`, whatever channels it has now. */
  ghost predicate SameClient(m: Manager, base: Manager) { m.(channels := base.channels) == base }

  lemma EnsureByInitiator(p: Pair, p0: Pair, mi: Manager, mr: Manager, m: Manager, d: Draw)
    requires Stage(p, p0, mi, mr) && Partners(mi, mr) && SameClient(m, mi) && ChanIn(m, mr.selfId) == p.ci
    ensures var (m2, out) := EnsureChannel(m, mr.selfId, d);
            var p2 := p.(ci := ChanIn(m2, mr.selfId), toR := p.toR + Out(out));
            Stage(p2, p0, mi, mr) && Rank(p2) <= Rank(p) && p2.ci.Some?
  {
    LessTotal(mi.selfId, mr.selfId);
    var (m2, out) := EnsureChannel(m, mr.selfId, d);
    var p2 := p.(ci := ChanIn(m2, mr.selfId), toR := p.toR + Out(out));
    if p.ci.Some? {
      assert p.toR + [] == p.toR;
      assert p2 == p;
    } else {
      OfferMade(m, mr.selfId, d);
      WaitingHs(p2.ci.value, m, mr.selfId);
      assert p2.toR == [out.value];
      assert Offered(p2, mi, mr);
    }
  }

  lemma EnsureByResponder(p: Pair, p0: Pair, mi: Manager, mr: Manager, m: Manager, d: Draw)
    requires Stage(p, p0, mi, mr) && Partners(mi, mr) && SameClient(m, mr) && ChanIn(m, mi.selfId) == p.cr
    ensures var (m2, out) := EnsureChannel(m, mi.selfId, d);
            var p2 := p.(cr := ChanIn(m2, mi.selfId), toI := p.toI + Out(out));
            Stage(p2, p0, mi, mr) && Rank(p2) <= Rank(p) && p2.cr.Some?
  {
    LessTotal(mi.selfId, mr.selfId);
    var (m2, out) := EnsureChannel(m, mi.selfId, d);
    var p2 := p.(cr := ChanIn(m2, mi.selfId), toI := p.toI + Out(out));
    if p.cr.Some? {
      assert p.toI + [] == p.toI;
      assert p2 == p;
    } else {
      assert p2.toI == [Restart(mi.selfId)];
      assert IsBlank(p2.cr, mr, mi.selfId);
      if p.ci.Some? && p.toR != [] { WaitingHs(p.ci.value, mi, mr.selfId); }
    }
  }

  /** The initiator, settled or without a channel, is asked to restart. */
  lemma InitiatorRestarts(p: Pair, p0: Pair, mi: Manager, mr: Manager, m: Manager, d: Draw)
    requires Asked(p, p0, mi, mr) && Idle(p0)
    requires Partners(mi, mr) && SameClient(m, mi) && ChanIn(m, mr.selfId) == p.ci
    ensures var (m2, out) := OnSignal(m, mr.selfId, p.toI[0], d);
            var p2 := p.(ci := ChanIn(m2, mr.selfId), toI := p.toI[1..], toR := p.toR + Out(out));
            Offered(p2, mi, mr) && Rank(p2) < Rank(p)
  {
    var (m2, out) := OnSignal(m, mr.selfId, p.toI[0], d);
    OfferMade(RemovePeer(m, mr.selfId), mr.selfId, d);
    WaitingHs(ChanIn(m2, mr.selfId).value, RemovePeer(m, mr.selfId), mr.selfId);
    assert p.toR + Out(out) == [out.value];
  }

  /** A waiting initiator ignores a restart request. */
  lemma InitiatorIgnores(p: Pair, mi: Manager, mr: Manager, m: Manager, d: Draw)
    requires Offered(p, mi, mr) || (Replied(p, mi, mr) && |p.toI| == 2)
    requires Partners(mi, mr) && SameClient(m, mi) && ChanIn(m, mr.selfId) == p.ci && p.toI != []
    ensures OnSignal(m, mr.selfId, p.toI[0], d) == (m, None)
    ensures Offered(p.(toI := p.toI[1..]), mi, mr) || Replied(p.(toI := p.toI[1..]), mi, mr)
    ensures Rank(p.(toI := p.toI[1..])) < Rank(p)
  {
    WaitingHs(p.ci.value, mi, mr.selfId);
    var p2 := p.(toI := p.toI[1..]);
    assert Offered(p, mi, mr) ==> Offered(p2, mi, mr);
    assert Replied(p, mi, mr) ==> Replied(p2, mi, mr);
  }

  lemma InitiatorConfirms(p: Pair, mi: Manager, mr: Manager, m: Manager, d: Draw)
    requires Replied(p, mi, mr) && |p.toI| == 1
    requires Partners(mi, mr) && SameClient(m, mi) && ChanIn(m, mr.selfId) == p.ci
    ensures var (m2, out) := OnSignal(m, mr.selfId, p.toI[0], d);
            var p2 := p.(ci := ChanIn(m2, mr.selfId), toI := p.toI[1..], toR := p.toR + Out(out));
            Confirmed(p2, mi, mr) && Rank(p2) < Rank(p)
  {
    WaitingHs(p.ci.value, mi, mr.selfId);
    ConfirmMade(p.ci.value, p.cr.value, mi, mr.selfId, p.toI[0].data, d);
    var (m2, out) := OnSignal(m, mr.selfId, p.toI[0], d);
    assert p.toR + Out(out) == [out.value];
  }

  /** The initiator handles the oldest frame on its wire. */
  lemma InitiatorGets(p: Pair, p0: Pair, mi: Manager, mr: Manager, m: Manager, d: Draw)
    requires Stage(p, p0, mi, mr) && Partners(mi, mr) && SameClient(m, mi) && ChanIn(m, mr.selfId) == p.ci
    requires p.toI != []
    ensures var (m2, out) := OnSignal(m, mr.selfId, p.toI[0], d);
            var p2 := p.(ci := ChanIn(m2, mr.selfId), toI := p.toI[1..], toR := p.toR + Out(out));
            Stage(p2, p0, mi, mr) && Rank(p2) < Rank(p) && p2.ci.Some?
  {
    if Asked(p, p0, mi, mr) {
      InitiatorRestarts(p, p0, mi, mr, m, d);
    } else if Replied(p, mi, mr) && |p.toI| == 1 {
      InitiatorConfirms(p, mi, mr, m, d);
    } else {
      InitiatorIgnores(p, mi, mr, m, d);
      assert p.toR + [] == p.toR;
    }
  }

  /** The responder answers message 1. */
  lemma ResponderAnswers(p: Pair, mi: Manager, mr: Manager, m: Manager, d: Draw)
    requires Offered(p, mi, mr) && Partners(mi, mr) && SameClient(m, mr) && ChanIn(m, mi.selfId) == p.cr
    ensures var (m2, out) := OnSignal(m, mi.selfId, p.toR[0], d);
            var p2 := p.(cr := ChanIn(m2, mi.selfId), toR := p.toR[1..], toI := p.toI + Out(out));
            Replied(p2, mi, mr) && Rank(p2) < Rank(p)
  {
    LessTotal(mi.selfId, mr.selfId);
    var (m2, out) := OnSignal(m, mi.selfId, p.toR[0], d);
    AnswerMade(p.ci.value, mi, m, d);
    WaitingHs(p.ci.value, mi, mr.selfId);
    assert p.toI + Out(out) == p.toI + [out.value];
  }

  /** The responder reads message 3. */
  lemma ResponderFinishes(p: Pair, mi: Manager, mr: Manager, m: Manager, d: Draw)
    requires Confirmed(p, mi, mr) && Partners(mi, mr) && SameClient(m, mr) && ChanIn(m, mi.selfId) == p.cr
    ensures var (m2, out) := OnSignal(m, mi.selfId, p.toR[0], d);
            var p2 := p.(cr := ChanIn(m2, mi.selfId), toR := p.toR[1..], toI := p.toI + Out(out));
            Done(p2) && Rank(p2) < Rank(p)
  {
    LessTotal(mi.selfId, mr.selfId);
    Finish(p.ci.value, p.cr.value, p.toR[0].data);
  }

  /** The responder handles the oldest frame on its wire. */
  lemma ResponderGets(p: Pair, p0: Pair, mi: Manager, mr: Manager, m: Manager, d: Draw)
    requires Stage(p, p0, mi, mr) && Partners(mi, mr) && SameClient(m, mr) && ChanIn(m, mi.selfId) == p.cr
    requires p.toR != []
    ensures var (m2, out) := OnSignal(m, mi.selfId, p.toR[0], d);
            var p2 := p.(cr := ChanIn(m2, mi.selfId), toR := p.toR[1..], toI := p.toI + Out(out));
            Stage(p2, p0, mi, mr) && Rank(p2) < Rank(p) && p2.cr.Some?
  {
    if Offered(p, mi, mr) { ResponderAnswers(p, mi, mr, m, d); } else { ResponderFinishes(p, mi, mr, m, d); }
  }

  // ----- whole runs ----------------------------------------------------------------------

  /** Nobody reloads and nobody removes a peer. */
  predicate Calm(e: Event) { e.Ensure? || e.Deliver? || e.Overhear? }

  ghost predicate SameClients(n: Net, n0: Net) {
    && n.peers.Keys == n0.peers.Keys
    && (forall a :: a in n.peers ==> n.peers[a].selfId == a && SameClient(n.peers[a], n0.peers[a]))
  }

  lemma StepClients(n: Net, n0: Net, e: Event)
    requires Calm(e) && SameClients(n, n0)
    ensures SameClients(Step(n, e), n0)
  {
    match e {
      case Ensure(a, b, d) => if a in n.peers { EnsureEffect(n.peers[a], b, d); }
      case Deliver(a, b, d) => if b in n.peers && n.Wire(a, b) != [] { OnSignalLocal(n.peers[b], a, n.Wire(a, b)[0], d); }
      case Overhear(_, _, _, _, _, _) => OverhearsNothing(n, e);
    }
  }

  ghost predicate StageAt(n: Net, n0: Net, i: PeerId, r: PeerId)
    requires i in n0.peers && r in n0.peers
  {
    Stage(PairOf(n, i, r), PairOf(n0, i, r), n0.peers[i], n0.peers[r])
  }

  /** `e` takes a frame off one of the two wires of the pair. */
  predicate Between(n: Net, e: Event, i: PeerId, r: PeerId) {
    e.Deliver? && ((e.a, e.b) == (i, r) || (e.a, e.b) == (r, i)) && n.Wire(e.a, e.b) != []
  }

  /** Channels are only ever gained, and the rank only ever falls; a delivery lowers it. */
  ghost predicate Progresses(n: Net, e: Event, i: PeerId, r: PeerId) {
    var p, p2 := PairOf(n, i, r), PairOf(Step(n, e), i, r);
    && Rank(p2) + (if Between(n, e, i, r) then 1 else 0) <= Rank(p)
    && (p.ci.Some? ==> p2.ci.Some?) && (p.cr.Some? ==> p2.cr.Some?)
    && (e.Ensure? && (e.a, e.b) == (i, r) ==> p2.ci.Some?)
    && (e.Ensure? && (e.a, e.b) == (r, i) ==> p2.cr.Some?)
  }

  lemma EnsureStage(n: Net, n0: Net, a: PeerId, b: PeerId, d: Draw, i: PeerId, r: PeerId)
    requires SameClients(n, n0) && i in n0.peers && r in n0.peers && Partners(n0.peers[i], n0.peers[r])
    requires n0.peers[i].selfId == i && n0.peers[r].selfId == r
    requires StageAt(n, n0, i, r) && a in n.peers
    ensures StageAt(Step(n, Ensure(a, b, d)), n0, i, r) && Progresses(n, Ensure(a, b, d), i, r)
  {
    var p, mi, mr := PairOf(n, i, r), n0.peers[i], n0.peers[r];
    var (m, out) := EnsureChannel(n.peers[a], b, d);
    EnsureEffect(n.peers[a], b, d);
    LessTotal(i, r);
    ActLocal(n, a, m, b, out, i, r);
    ActLocal(n, a, m, b, out, r, i);
    if (a, b) == (i, r) {
      EnsureByInitiator(p, PairOf(n0, i, r), mi, mr, n.peers[i], d);
    } else if (a, b) == (r, i) {
      EnsureByResponder(p, PairOf(n0, i, r), mi, mr, n.peers[r], d);
    } else {
      assert PairOf(Step(n, Ensure(a, b, d)), i, r) == p;
    }
  }

  lemma DeliverStage(n: Net, n0: Net, a: PeerId, b: PeerId, d: Draw, i: PeerId, r: PeerId)
    requires SameClients(n, n0) && i in n0.peers && r in n0.peers && Partners(n0.peers[i], n0.peers[r])
    requires n0.peers[i].selfId == i && n0.peers[r].selfId == r
    requires StageAt(n, n0, i, r) && b in n.peers && n.Wire(a, b) != []
    ensures StageAt(Step(n, Deliver(a, b, d)), n0, i, r) && Progresses(n, Deliver(a, b, d), i, r)
  {
    var p, mi, mr := PairOf(n, i, r), n0.peers[i], n0.peers[r];
    LessTotal(i, r);
    if (a, b) == (r, i) {
      InitiatorGets(p, PairOf(n0, i, r), mi, mr, n.peers[i], d);
    } else if (a, b) == (i, r) {
      ResponderGets(p, PairOf(n0, i, r), mi, mr, n.peers[r], d);
    }
    if a != b {
      DeliverEffect(n, a, b, d, i, r);
      DeliverEffect(n, a, b, d, r, i);
    } else {
      OnSignalLocal(n.peers[b], a, n.Wire(a, b)[0], d);
      var (m, out) := OnSignal(n.peers[b], a, n.Wire(a, b)[0], d);
      ActLocal(Popped(n, a, b), b, m, a, out, i, r);
      ActLocal(Popped(n, a, b), b, m, a, out, r, i);
    }
  }

  /** A net in which the pair has nothing under way, and both clients are there, in one session. */
  ghost predicate Quiet(n: Net, i: PeerId, r: PeerId) {
    && SameClients(n, n) && i in n.peers && r in n.peers
    && Partners(n.peers[i], n.peers[r]) && Idle(PairOf(n, i, r))
  }

  /** The frames delivered between the two in a run. */
  function Deliveries(n: Net, es: seq<Event>, i: PeerId, r: PeerId): nat {
    if es == [] then 0
    else
      var front := es[..|es| - 1];
      Deliveries(n, front, i, r) + (if Between(Run(n, front), es[|es| - 1], i, r) then 1 else 0)
  }

  predicate Ensures(e: Event, a: PeerId, b: PeerId) { e.Ensure? && e.a == a && e.b == b }

  lemma {:induction false} RunStage(n: Net, es: seq<Event>, i: PeerId, r: PeerId)
    requires Quiet(n, i, r) && forall e :: e in es ==> Calm(e)
    ensures SameClients(Run(n, es), n) && StageAt(Run(n, es), n, i, r)
    ensures var p := PairOf(Run(n, es), i, r);
            && Rank(p) + Deliveries(n, es, i, r) <= Rank(PairOf(n, i, r))
            && ((exists e :: e in es && Ensures(e, i, r)) ==> p.ci.Some?)
            && ((exists e :: e in es && Ensures(e, r, i)) ==> p.cr.Some?)
  {
    if es != [] {
      var front, last := es[..|es| - 1], es[|es| - 1];
      assert es == front + [last];
      RunStage(n, front, i, r);
      var m := Run(n, front);
      StepClients(m, n, last);
      StepStage(m, n, last, i, r);
    }
  }

  lemma StepStage(m: Net, n: Net, e: Event, i: PeerId, r: PeerId)
    requires Quiet(n, i, r) && SameClients(m, n) && StageAt(m, n, i, r) && Calm(e)
    ensures StageAt(Step(m, e), n, i, r) && Progresses(m, e, i, r)
  {
    match e {
      case Ensure(a, b, d) => if a in m.peers { EnsureStage(m, n, a, b, d, i, r); }
      case Deliver(a, b, d) => if b in m.peers && m.Wire(a, b) != [] { DeliverStage(m, n, a, b, d, i, r); }
      case Overhear(_, _, _, _, _, _) => OverhearsNothing(m, e);
    }
  }

  /**
   Convergence of a pair. However the events are ordered, at most four frames
   are ever delivered between the two; and once a side that matters has ensured
   the channel and no frame is left in flight, both sides are ready and mirror
   each other. The side that matters is one that had no channel: a responder
   recovers whatever settled channel the initiator kept, an initiator whatever
   channel the responder kept.
   */
  lemma PairConverges(n: Net, es: seq<Event>, i: PeerId, r: PeerId)
    requires Quiet(n, i, r) && forall e :: e in es ==> Calm(e)
    requires (n.Chan(r, i) == None && exists e :: e in es && Ensures(e, r, i))
          || (n.Chan(i, r) == None && exists e :: e in es && Ensures(e, i, r))
    ensures Deliveries(n, es, i, r) <= 4
    ensures var p := PairOf(Run(n, es), i, r); p.toR == [] && p.toI == [] ==> Done(p)
  {
    RunStage(n, es, i, r);
  }

  /** Any number of clients of one session that start with nothing: all pairs become ready. */
  lemma EveryPairConverges(n: Net, es: seq<Event>)
    requires Start(n) && forall e :: e in es ==> Calm(e)
    requires forall a, b :: a in n.peers && b in n.peers ==> n.peers[a].sessionId == n.peers[b].sessionId
    requires forall a, b :: a in n.peers && b in n.peers && Less(a, b) ==>
               (exists e :: e in es && Ensures(e, a, b)) || (exists e :: e in es && Ensures(e, b, a))
    requires forall a, b :: a in n.peers && b in n.peers ==> Run(n, es).Wire(a, b) == []
    ensures forall a, b :: a in n.peers && b in n.peers && Less(a, b) ==> Done(PairOf(Run(n, es), a, b))
  {
    forall a, b | a in n.peers && b in n.peers && Less(a, b)
      ensures Done(PairOf(Run(n, es), a, b))
    {
      assert n.Chan(a, b) == None && n.Chan(b, a) == None;
      PairConverges(n, es, a, b);
    }
  }
}
