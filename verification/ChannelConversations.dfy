/**
 The network of `ChannelNetwork` with messages on top: clients seal for their
 ready peers and open what comes in, while handshakes, removals and reloads go
 on. For any one pair, a ghost record follows the conversation its channels hold.
 */
module ChannelConversations {
  import opened Common
  import opened Symbolic
  import opened Noise
  import opened PeerChannels
  import opened ChannelAgreement
  import opened ChannelNetwork
  import opened ChannelMessages
  import DR = DoubleRatchet
  import Ratchet = RatchetRun
  import Theorems = RatchetTheorems
  import Padding = MessagePadding
  import Codec = ByteCodec

  // ----- from a handshake to a conversation -------------------------------------------------

  /** A fresh pair of ratchets is a conversation that has not begun. */
  lemma StartConverses(root: Secret, alice: KeyId, bob: KeyId)
    requires alice != bob
    ensures Theorems.Conversation(Ratchet.Start(root, alice, bob))
  {
    var none: seq<Ratchet.Event> := [];
    assert Ratchet.AllowedRun(Ratchet.Start(root, alice, bob), none);
    assert Ratchet.Run(Ratchet.Start(root, alice, bob), none) == Ratchet.Start(root, alice, bob);
  }

  /** Two channels that mirror each other hold the two ends of one conversation. */
  lemma MirrorsConverse(ci: Channel, cr: Channel)
    requires Mirrors(ci, cr) && ci.drKey != cr.drKey
    ensures var w := Ratchet.Start(Hybrid(ci.hs.sym.ck, ci.pqSecret.value), ci.drKey, cr.drKey);
            Theorems.Conversation(w) && ci.ratchet == Some(w.alice) && cr.ratchet == Some(w.bob)
  {
    StartConverses(Hybrid(ci.hs.sym.ck, ci.pqSecret.value), ci.drKey, cr.drKey);
  }

  // ----- handlers do not look at ratchets -------------------------------------------------------

  /** The same channel but for how far its ratchet has moved. */
  ghost predicate Twin(c: Channel, q: Channel) {
    c.(ratchet := q.ratchet) == q && (c.ratchet.None? <==> q.ratchet.None?)
  }

  ghost predicate Twins(m: Manager, k: Manager) {
    && m.(channels := k.channels) == k && m.channels.Keys == k.channels.Keys
    && forall p :: p in m.channels ==> Twin(m.channels[p], k.channels[p])
  }

  /** Every ready channel has its ratchet. */
  ghost predicate Ratcheted(m: Manager) {
    forall p :: p in m.channels && m.channels[p].phase == Ready ==> m.channels[p].ratchet.Some?
  }

  lemma FinalizeTwins(c: Channel, q: Channel)
    requires Twin(c, q)
    ensures Twin(Finalize(c), Finalize(q))
    ensures Finalize(c).phase == Ready && c.phase != Ready ==> Finalize(c) == Finalize(q) && Finalize(c).ratchet.Some?
    ensures c.phase == Ready && c.ratchet.Some? && Finalize(c).phase == Ready ==> Finalize(c).ratchet.Some?
  {
  }

  lemma Step2Twins(c: Channel, q: Channel, peer: PeerId, data: Data, d: Draw)
    requires Twin(c, q)
    ensures var (c2, out) := OnStep2(c, peer, data, d);
            var (q2, out2) := OnStep2(q, peer, data, d);
            && out == out2 && Twin(c2, q2)
            && (c2.phase == Ready && c.phase != Ready ==> c2 == q2 && c2.ratchet.Some?)
            && (c2.phase == Ready && c.ratchet.Some? ==> c2.ratchet.Some?)
  {
  }

  lemma Step3Twins(c: Channel, q: Channel, data: Data)
    requires Twin(c, q)
    ensures var c2, q2 := OnStep3(c, data), OnStep3(q, data);
            && Twin(c2, q2)
            && (c2.phase == Ready && c.phase != Ready ==> c2 == q2 && c2.ratchet.Some?)
            && (c2.phase == Ready && c.ratchet.Some? ==> c2.ratchet.Some?)
  {
    var (hs1, payload) := ReadMessage(c.hs, data);
    if payload.Some? && SplitPayload(payload.value).Some? {
      var (drKey, blob) := SplitPayload(payload.value).value;
      var c1, q1 := c.(hs := hs1, remoteDR := Some(drKey)), q.(hs := hs1, remoteDR := Some(drKey));
      FinalizeTwins(c1, q1);
      if c.kem.Some? && Decapsulate(c.kem.value, blob).Some? {
        var secret := Decapsulate(c.kem.value, blob);
        FinalizeTwins(c1.(pqSecret := secret), q1.(pqSecret := secret));
      }
    }
  }

  /** A channel to `peer` that a call has just made ready is the same in both, ratchet and all. */
  ghost predicate NewlyReadyAlike(m: Manager, m2: Manager, k2: Manager, peer: PeerId) {
    (Sealable(m2, peer) && !Sealable(m, peer)) ==>
      (peer in k2.channels && m2.channels[peer] == k2.channels[peer] && m2.channels[peer].ratchet.Some?)
  }

  lemma EnsureTwins(m: Manager, k: Manager, peer: PeerId, d: Draw)
    requires Twins(m, k) && Ratcheted(m)
    ensures var (m2, out) := EnsureChannel(m, peer, d);
            var (k2, out2) := EnsureChannel(k, peer, d);
            out == out2 && Twins(m2, k2) && Ratcheted(m2) && NewlyReadyAlike(m, m2, k2, peer)
  {
    assert NewChannel(m, peer, d) == NewChannel(k, peer, d);
  }

  lemma SetTwins(m: Manager, k: Manager, peer: PeerId, c: Channel, q: Channel)
    requires Twins(m, k) && Ratcheted(m) && Twin(c, q) && (c.phase == Ready ==> c.ratchet.Some?)
    ensures Twins(SetChannel(m, peer, c), SetChannel(k, peer, q)) && Ratcheted(SetChannel(m, peer, c))
  {
  }

  lemma SignalTwins(m: Manager, k: Manager, peer: PeerId, f: NoiseFrame, d: Draw)
    requires Twins(m, k) && Ratcheted(m)
    ensures var (m2, out) := OnSignal(m, peer, f, d);
            var (k2, out2) := OnSignal(k, peer, f, d);
            out == out2 && Twins(m2, k2) && Ratcheted(m2) && NewlyReadyAlike(m, m2, k2, peer)
  {
    if f.to != m.selfId {
    } else if f.step == 0 {
      EnsureTwins(RemovePeer(m, peer), RemovePeer(k, peer), peer, d);
    } else {
      assert NewChannel(m, peer, d) == NewChannel(k, peer, d);
      var c := if peer !in m.channels || f.step == 1 then NewChannel(m, peer, d) else m.channels[peer];
      var q := if peer !in k.channels || f.step == 1 then NewChannel(k, peer, d) else k.channels[peer];
      Step2Twins(c, q, peer, f.data, d);
      Step3Twins(c, q, f.data);
      var c2 := if c.initiator && f.step == 2 then OnStep2(c, peer, f.data, d).0
                else if !c.initiator && f.step == 1 then OnStep1(c, peer, f.data, d).0
                else if !c.initiator && f.step == 3 then OnStep3(c, f.data) else c;
      var q2 := if c.initiator && f.step == 2 then OnStep2(q, peer, f.data, d).0
                else if !c.initiator && f.step == 1 then OnStep1(q, peer, f.data, d).0
                else if !c.initiator && f.step == 3 then OnStep3(q, f.data) else q;
      SetTwins(m, k, peer, c2, q2);
    }
  }

  // ----- the network with messages -----------------------------------------------------------------

  /**
   `net` is the network; `ref` the same network had no message ever been sealed
   or opened; `w` the conversation that the pair at hand is in, from the moment
   its initiator is ready.
   */
  datatype Talk = Talk(net: Net, ref: Net, w: Option<Ratchet.World>)

  datatype TalkEvent =
    | Signal(s: Event)
    | SealAll(a: PeerId, order: seq<PeerId>, plain: Bytes, kps: PeerId -> KeyId)
    | Open(b: PeerId, from: PeerId, payload: Payload, kp: KeyId)

  function NetStep(n: Net, e: TalkEvent): Net {
    match e
    case Signal(s) => Step(n, s)
    case SealAll(a, order, plain, kps) =>
      if a !in n.peers then n else n.(peers := n.peers[a := EncryptAlong(n.peers[a], order, Padding.Padded(plain), kps).0])
    case Open(b, from, payload, kp) =>
      if b !in n.peers then n else n.(peers := n.peers[b := DecryptFrom(n.peers[b], from, payload, kp).0])
  }

  /** Both sides are ready, and message 3 has been read. */
  predicate LinkedUp(p: Pair) { IsPhase(p.ci, Ready) && IsPhase(p.cr, Ready) && p.toR == [] }

  /** What the event means in the conversation of the pair, if anything. */
  function Turn(n: Net, e: TalkEvent, i: PeerId, r: PeerId): Option<Ratchet.Event> {
    var p := PairOf(n, i, r);
    match e
    case Signal(s) => None
    case SealAll(a, order, plain, kps) =>
      if a == i && IsPhase(p.ci, Ready) then Some(Ratchet.Send(Ratchet.Alice, Padding.Padded(plain), kps(r)))
      else if a == r && LinkedUp(p) then Some(Ratchet.Send(Ratchet.Bob, Padding.Padded(plain), kps(i)))
      else None
    case Open(b, from, payload, kp) =>
      if (b, from) == (i, r) && IsPhase(p.ci, Ready) && i in payload then Some(Ratchet.Deliver(Ratchet.Alice, payload[i], kp))
      else if (b, from) == (r, i) && LinkedUp(p) && r in payload then Some(Ratchet.Deliver(Ratchet.Bob, payload[r], kp))
      else None
  }

  function RemoteKey(c: Channel): KeyId {
    if c.remoteDR.Some? && |c.remoteDR.value| == 1 && c.remoteDR.value[0].PubKey? then c.remoteDR.value[0].id else 0
  }

  function RootOf(c: Channel): Secret {
    Hybrid(c.hs.sym.ck, if c.pqSecret.Some? then c.pqSecret.value else Seed(0))
  }

  predicate BecomesReady(n: Net, s: Event, i: PeerId, r: PeerId) {
    IsPhase(Step(n, s).Chan(i, r), Ready) && !IsPhase(n.Chan(i, r), Ready)
  }

  /** The record starts when the initiator becomes ready and ends with its channel. */
  function NextW(t: Talk, e: TalkEvent, i: PeerId, r: PeerId): Option<Ratchet.World> {
    if e.Signal? then
      var c := Step(t.net, e.s).Chan(i, r);
      if !IsPhase(c, Ready) then None
      else if BecomesReady(t.net, e.s, i, r) then Some(Ratchet.Start(RootOf(c.value), c.value.drKey, RemoteKey(c.value)))
      else t.w
    else
      var turn := Turn(t.net, e, i, r);
      if turn.Some? && t.w.Some? then Some(Ratchet.Step(t.w.value, turn.value)) else t.w
  }

  function TalkStep(t: Talk, e: TalkEvent, i: PeerId, r: PeerId): Talk {
    Talk(NetStep(t.net, e), if e.Signal? then Step(t.ref, e.s) else t.ref, NextW(t, e, i, r))
  }

  /**
   A payload is sealed for the keys of the channel map. New key pairs are new to
   the pair's conversation, and what is opened in it is no forgery under its
   root; nothing else is asked of the network.
   */
  ghost predicate TalkAllowed(t: Talk, e: TalkEvent, i: PeerId, r: PeerId) {
    match e
    case Signal(s) =>
      BecomesReady(t.net, s, i, r) ==>
        (var c := Step(t.net, s).Chan(i, r).value; c.drKey != RemoteKey(c))
    case SealAll(a, order, plain, kps) =>
      && (a in t.net.peers ==> Lists(order, t.net.peers[a]))
      && (Turn(t.net, e, i, r).Some? && t.w.Some? ==> Ratchet.Allowed(t.w.value, Turn(t.net, e, i, r).value))
    case Open(b, from, payload, kp) =>
      Turn(t.net, e, i, r).Some? && t.w.Some? ==> Ratchet.Allowed(t.w.value, Turn(t.net, e, i, r).value)
  }

  function TalkRun(n: Net, es: seq<TalkEvent>, i: PeerId, r: PeerId): Talk {
    if es == [] then Talk(n, n, None) else TalkStep(TalkRun(n, es[..|es| - 1], i, r), es[|es| - 1], i, r)
  }

  ghost predicate TalkAllowedRun(n: Net, es: seq<TalkEvent>, i: PeerId, r: PeerId) {
    es == [] ||
    (TalkAllowedRun(n, es[..|es| - 1], i, r) && TalkAllowed(TalkRun(n, es[..|es| - 1], i, r), es[|es| - 1], i, r))
  }

  // ----- what every step keeps ----------------------------------------------------------------------

  ghost predicate Alike(n: Net, k: Net) {
    && n.wires == k.wires && n.peers.Keys == k.peers.Keys
    && forall a :: a in n.peers ==> Twins(n.peers[a], k.peers[a]) && Ratcheted(n.peers[a])
  }

  /** The responder's first ratchet, as the ready initiator's channel determines it. */
  function BobOf(c: Channel): DR.State { DR.InitBob(RootOf(c), RemoteKey(c), c.drKey) }

  ghost predicate Converses(p: Pair, w: Option<Ratchet.World>) {
    if !IsPhase(p.ci, Ready) then w == None
    else
      && w.Some? && Theorems.Conversation(w.value) && p.ci.value.ratchet == Some(w.value.alice)
      && (p.toR != [] ==> w.value.bob == BobOf(p.ci.value))
      && (p.toR == [] && IsPhase(p.cr, Ready) ==> p.cr.value.ratchet == Some(w.value.bob))
  }

  ghost predicate TalkInv(t: Talk, i: PeerId, r: PeerId) {
    Inv(t.ref) && Alike(t.net, t.ref) && Converses(PairOf(t.net, i, r), t.w)
  }

  /** One client's move, made in both. */
  lemma ActAlike(n: Net, k: Net, a: PeerId, m: Manager, q: Manager, b: PeerId, out: Option<NoiseFrame>)
    requires Alike(n, k) && a in n.peers && Twins(m, q) && Ratcheted(m)
    ensures Alike(n.Act(a, m, b, out), k.Act(a, q, b, out))
  {
  }

  lemma DeliverAlike(n: Net, k: Net, a: PeerId, b: PeerId, d: Draw)
    requires Alike(n, k) && b in n.peers && n.Wire(a, b) != []
    ensures Alike(Step(n, Deliver(a, b, d)), Step(k, Deliver(a, b, d)))
  {
    var f := n.Wire(a, b)[0];
    SignalTwins(n.peers[b], k.peers[b], a, f, d);
    var (m, out) := OnSignal(n.peers[b], a, f, d);
    ActAlike(Popped(n, a, b), Popped(k, a, b), b, m, OnSignal(k.peers[b], a, f, d).0, a, out);
  }

  lemma SignalAlike(n: Net, k: Net, s: Event)
    requires Alike(n, k) && (forall a :: a in k.peers ==> k.peers[a].selfId == a)
    ensures Alike(Step(n, s), Step(k, s))
  {
    match s {
      case Ensure(a, b, d) =>
        if a in n.peers {
          EnsureTwins(n.peers[a], k.peers[a], b, d);
          var (m, out) := EnsureChannel(n.peers[a], b, d);
          ActAlike(n, k, a, m, EnsureChannel(k.peers[a], b, d).0, b, out);
        }
      case Remove(a, b) =>
      case Reload(a, key) =>
      case Deliver(a, b, d) => if b in n.peers && n.Wire(a, b) != [] { DeliverAlike(n, k, a, b, d); }
      case Overhear(_, _, _, _, _, _) =>
        OverhearsNothing(n, s);
        OverhearsNothing(k, s);
    }
  }

  lemma SealKeepsTwins(m: Manager, k: Manager, order: seq<PeerId>, plain: Bytes, kps: PeerId -> KeyId)
    requires Twins(m, k) && Ratcheted(m) && Lists(order, m)
    ensures var m2 := EncryptAlong(m, order, Padding.Padded(plain), kps).0;
            && Twins(m2, k) && Ratcheted(m2)
            && forall p :: p in m.channels ==>
                 m2.channels[p] == if m.channels[p].phase == Ready
                                   then m.channels[p].(ratchet := Some(DR.Encrypt(m.channels[p].ratchet.value, Padding.Padded(plain), kps(p)).0))
                                   else m.channels[p]
  {
    SealsToEveryReadyPeer(m, order, plain, kps);
  }

  lemma OpenKeepsTwins(m: Manager, k: Manager, from: PeerId, payload: Payload, kp: KeyId)
    requires Twins(m, k) && Ratcheted(m)
    ensures var m2 := DecryptFrom(m, from, payload, kp).0;
            && Twins(m2, k) && Ratcheted(m2)
            && forall p :: p in m.channels ==>
                 m2.channels[p] == if p == from && m.channels[p].phase == Ready && m.selfId in payload
                                   then m.channels[p].(ratchet := Some(DR.Decrypt(m.channels[p].ratchet.value, payload[m.selfId], kp).0))
                                   else m.channels[p]
  {
  }

  lemma MessageAlike(t: Talk, e: TalkEvent, i: PeerId, r: PeerId)
    requires Alike(t.net, t.ref) && !e.Signal? && TalkAllowed(t, e, i, r)
    ensures Alike(NetStep(t.net, e), t.ref)
  {
    match e {
      case SealAll(a, order, plain, kps) => if a in t.net.peers { SealKeepsTwins(t.net.peers[a], t.ref.peers[a], order, plain, kps); }
      case Open(b, from, payload, kp) => if b in t.net.peers { OpenKeepsTwins(t.net.peers[b], t.ref.peers[b], from, payload, kp); }
    }
  }

  // ----- a message and the pair's conversation ---------------------------------------------------------

  lemma AliceTurns(p: Pair, w: Ratchet.World, turn: Ratchet.Event, st: DR.State)
    requires Converses(p, Some(w)) && IsPhase(p.ci, Ready) && Ratchet.Allowed(w, turn)
    requires Ratchet.Step(w, turn) == Ratchet.Step(w, turn).(bob := w.bob) && Ratchet.Step(w, turn).alice == st
    ensures Converses(p.(ci := Some(p.ci.value.(ratchet := Some(st)))), Some(Ratchet.Step(w, turn)))
  {
    ConversationGoesOn(w, turn);
  }

  lemma BobTurns(p: Pair, w: Ratchet.World, turn: Ratchet.Event, st: DR.State)
    requires Converses(p, Some(w)) && LinkedUp(p) && Ratchet.Allowed(w, turn)
    requires Ratchet.Step(w, turn) == Ratchet.Step(w, turn).(alice := w.alice) && Ratchet.Step(w, turn).bob == st
    ensures Converses(p.(cr := Some(p.cr.value.(ratchet := Some(st)))), Some(Ratchet.Step(w, turn)))
  {
    ConversationGoesOn(w, turn);
  }

  /** A responder that is not linked up may move its ratchet: nothing is recorded of it. */
  lemma BobUnlinked(p: Pair, w: Option<Ratchet.World>, st: DR.State)
    requires Converses(p, w) && p.cr.Some? && !LinkedUp(p)
    ensures Converses(p.(cr := Some(p.cr.value.(ratchet := Some(st)))), w)
  {
  }

  function WithRatchet(c: Channel, st: DR.State): Option<Channel> { Some(c.(ratchet := Some(st))) }

  /** What a seal does to the channel that `x` has to `y`. */
  lemma SealChan(n: Net, k: Net, e: TalkEvent, x: PeerId, y: PeerId)
    requires Alike(n, k) && e.SealAll? && e.a in n.peers && Lists(e.order, n.peers[e.a])
    ensures var c := n.Chan(x, y);
            && NetStep(n, e).Wire(x, y) == n.Wire(x, y)
            && NetStep(n, e).Chan(x, y)
               == if e.a == x && IsPhase(c, Ready) && c.value.ratchet.Some?
                  then WithRatchet(c.value, DR.Encrypt(c.value.ratchet.value, Padding.Padded(e.plain), e.kps(y)).0)
                  else c
  {
    SealKeepsTwins(n.peers[e.a], k.peers[e.a], e.order, e.plain, e.kps);
  }

  lemma ReadyHasRatchet(n: Net, k: Net, x: PeerId, y: PeerId)
    requires Alike(n, k) && IsPhase(n.Chan(x, y), Ready)
    ensures n.Chan(x, y).value.ratchet.Some?
  {
  }

  lemma SealConverses(t: Talk, e: TalkEvent, i: PeerId, r: PeerId)
    requires TalkInv(t, i, r) && i != r && e.SealAll? && TalkAllowed(t, e, i, r)
    ensures Converses(PairOf(NetStep(t.net, e), i, r), NextW(t, e, i, r))
  {
    if e.a in t.net.peers {
      var p, padded := PairOf(t.net, i, r), Padding.Padded(e.plain);
      SealChan(t.net, t.ref, e, i, r);
      SealChan(t.net, t.ref, e, r, i);
      if IsPhase(p.cr, Ready) { ReadyHasRatchet(t.net, t.ref, r, i); }
      if e.a == i && IsPhase(p.ci, Ready) {
        AliceTurns(p, t.w.value, Ratchet.Send(Ratchet.Alice, padded, e.kps(r)), DR.Encrypt(t.w.value.alice, padded, e.kps(r)).0);
      } else if e.a == r && LinkedUp(p) {
        BobTurns(p, t.w.value, Ratchet.Send(Ratchet.Bob, padded, e.kps(i)), DR.Encrypt(t.w.value.bob, padded, e.kps(i)).0);
      } else if e.a == r && IsPhase(p.cr, Ready) {
        BobUnlinked(p, t.w, DR.Encrypt(p.cr.value.ratchet.value, padded, e.kps(i)).0);
      }
    }
  }

  /** What an opening does to the channel that `x` has to `y`. */
  lemma OpenChan(n: Net, k: Net, e: TalkEvent, x: PeerId, y: PeerId)
    requires Alike(n, k) && e.Open? && e.b in n.peers && n.peers[e.b].selfId == e.b
    ensures var c := n.Chan(x, y);
            && NetStep(n, e).Wire(x, y) == n.Wire(x, y)
            && NetStep(n, e).Chan(x, y)
               == if (e.b, e.from) == (x, y) && IsPhase(c, Ready) && c.value.ratchet.Some? && x in e.payload
                  then WithRatchet(c.value, DR.Decrypt(c.value.ratchet.value, e.payload[x], e.kp).0)
                  else c
  {
    OpenKeepsTwins(n.peers[e.b], k.peers[e.b], e.from, e.payload, e.kp);
  }

  lemma OpenConverses(t: Talk, e: TalkEvent, i: PeerId, r: PeerId)
    requires TalkInv(t, i, r) && i != r && e.Open? && TalkAllowed(t, e, i, r)
    ensures Converses(PairOf(NetStep(t.net, e), i, r), NextW(t, e, i, r))
  {
    if e.b in t.net.peers {
      var p := PairOf(t.net, i, r);
      assert t.ref.peers[e.b].selfId == e.b;
      OpenChan(t.net, t.ref, e, i, r);
      OpenChan(t.net, t.ref, e, r, i);
      if IsPhase(p.cr, Ready) { ReadyHasRatchet(t.net, t.ref, r, i); }
      if (e.b, e.from) == (i, r) && IsPhase(p.ci, Ready) && i in e.payload {
        AliceTurns(p, t.w.value, Ratchet.Deliver(Ratchet.Alice, e.payload[i], e.kp), DR.Decrypt(t.w.value.alice, e.payload[i], e.kp).0);
      } else if (e.b, e.from) == (r, i) && LinkedUp(p) && r in e.payload {
        BobTurns(p, t.w.value, Ratchet.Deliver(Ratchet.Bob, e.payload[r], e.kp), DR.Decrypt(t.w.value.bob, e.payload[r], e.kp).0);
      } else if (e.b, e.from) == (r, i) && IsPhase(p.cr, Ready) && r in e.payload {
        BobUnlinked(p, t.w, DR.Decrypt(p.cr.value.ratchet.value, e.payload[r], e.kp).0);
      }
    }
  }

  /** `NextW` after a handshake event, told from the pair before and after. */
  function NextOfPair(p: Pair, p2: Pair, w: Option<Ratchet.World>): Option<Ratchet.World> {
    if !IsPhase(p2.ci, Ready) then None
    else if !IsPhase(p.ci, Ready) then Some(Ratchet.Start(RootOf(p2.ci.value), p2.ci.value.drKey, RemoteKey(p2.ci.value)))
    else w
  }

  lemma NextIsOfPair(t: Talk, s: Event, i: PeerId, r: PeerId)
    ensures NextW(t, Signal(s), i, r) == NextOfPair(PairOf(t.net, i, r), PairOf(Step(t.net, s), i, r), t.w)
  {
  }

  /** A side keeps its channel and what it sent, or is not ready afterwards; nobody becomes ready. */
  ghost predicate Calmly(p: Pair, p2: Pair) {
    && (p2.ci == p.ci || !IsPhase(p2.ci, Ready)) && (p2.cr == p.cr || !IsPhase(p2.cr, Ready))
    && (p2.ci == p.ci && IsPhase(p.ci, Ready) ==> p2.toR == p.toR)
  }

  lemma CalmlyConverses(p: Pair, p2: Pair, w: Option<Ratchet.World>)
    requires Converses(p, w) && Calmly(p, p2)
    ensures Converses(p2, NextOfPair(p, p2, w))
  {
  }

  /** The responder has taken a frame off its wire; if that links the two up, its ratchet is the one expected. */
  lemma ReadByBob(p: Pair, p2: Pair, w: Option<Ratchet.World>)
    requires Converses(p, w) && p2.ci == p.ci && p.toR != [] && p2.toR == p.toR[1..]
    requires LinkedUp(p2) ==> p2.cr.value.ratchet == Some(BobOf(p.ci.value))
    ensures Converses(p2, NextOfPair(p, p2, w))
  {
  }

  // ----- a handshake event and the pair's conversation ---------------------------------------------------

  /** A ready initiator that is still ready after a frame has not moved and has sent nothing. */
  lemma ReadyInitiatorStill(m: Manager, peer: PeerId, f: NoiseFrame, d: Draw)
    requires Less(m.selfId, peer) && Sealable(m, peer)
    requires m.channels[peer].initiator && m.channels[peer].hs.index >= 3
    ensures var (m2, out) := OnSignal(m, peer, f, d);
            Sealable(m2, peer) ==> m2.channels[peer] == m.channels[peer] && out == None
  {
    LessTotal(m.selfId, peer);
    if f.to == m.selfId && f.step == 0 {
      EnsureEffect(RemovePeer(m, peer), peer, d);
    }
  }

  /** A ready responder does not survive another message 3. */
  lemma ReadyResponderFails(c: Channel, data: Data)
    requires c.phase == Ready && c.hs.index >= 3
    ensures OnStep3(c, data).phase == Failed
  {
  }

  lemma DeliverToInitiatorConverses(t: Talk, s: Event, i: PeerId, r: PeerId)
    requires TalkInv(t, i, r) && Less(i, r) && s.Deliver? && s.a == r && s.b == i
    requires i in t.net.peers && t.net.Wire(r, i) != [] && TalkAllowed(t, Signal(s), i, r)
    ensures Converses(PairOf(Step(t.net, s), i, r), NextW(t, Signal(s), i, r))
  {
    LessTotal(i, r);
    var f := t.net.Wire(r, i)[0];
    var p, q := PairOf(t.net, i, r), PairOf(t.ref, i, r);
    assert PairOk(q, i, r);
    var (m2, out) := OnSignal(t.net.peers[i], r, f, s.d);
    var (k2, out2) := OnSignal(t.ref.peers[i], r, f, s.d);
    SignalTwins(t.net.peers[i], t.ref.peers[i], r, f, s.d);
    InitiatorSignal(t.ref.peers[i], r, f, s.d);
    DeliverEffect(t.net, r, i, s.d, i, r);
    DeliverEffect(t.net, r, i, s.d, r, i);
    var p2 := PairOf(Step(t.net, s), i, r);
    assert p2 == Pair(ChanIn(m2, r), p.cr, p.toR + Out(out), p.toI[1..]);
    if IsPhase(p2.ci, Ready) {
      if IsPhase(p.ci, Ready) {
        ReadyInitiatorStill(t.net.peers[i], r, f, s.d);
        assert p.toR + [] == p.toR;
      } else {
        NewlyReadyConverses(p2, k2.channels[r]);
      }
    }
  }

  /** The conversation that begins when the initiator becomes ready. */
  lemma NewlyReadyConverses(p: Pair, q: Channel)
    requires p.ci == Some(q) && q.phase == Ready && InitiatorReady(q) && p.toR != [] && q.drKey != RemoteKey(q)
    ensures Converses(p, Some(Ratchet.Start(RootOf(q), q.drKey, RemoteKey(q))))
  {
    StartConverses(RootOf(q), q.drKey, RemoteKey(q));
  }

  /** A responder that message 3 leaves ready was not ready before: its ratchet is the reference's. */
  lemma Message3Read(m: Manager, k: Manager, i: PeerId, f: NoiseFrame, d: Draw)
    requires Twins(m, k) && Ratcheted(m) && Less(i, m.selfId) && f.to == m.selfId && f.step == 3
    requires i in k.channels ==> ResponderShape(k.channels[i])
    ensures var m2, k2 := OnSignal(m, i, f, d).0, OnSignal(k, i, f, d).0;
            Sealable(m2, i) ==> i in k2.channels && m2.channels[i] == k2.channels[i]
  {
    LessTotal(i, m.selfId);
    SignalTwins(m, k, i, f, d);
    if Sealable(m, i) { ReadyResponderFails(m.channels[i], f.data); }
  }

  /** In the reference the responder's ratchet is the one the initiator's channel determines. */
  lemma MirrorsBob(ci: Channel, cr: Channel)
    requires Mirrors(ci, cr) && InitiatorReady(ci)
    ensures cr.ratchet == Some(BobOf(ci))
  {
    assert DR.InitAlice(RootOf(ci), ci.drKey, RemoteKey(ci)).dhr == RemoteKey(ci);
    assert DR.InitAlice(RootOf(ci), ci.drKey, cr.drKey).dhr == cr.drKey;
  }

  /** The pair's channel and wire after the responder's delivery. */
  lemma ResponderTakes(n: Net, s: Event, i: PeerId, r: PeerId)
    requires i != r && s.Deliver? && s.a == i && s.b == r && r in n.peers && n.Wire(i, r) != []
    ensures var p, p2 := PairOf(n, i, r), PairOf(Step(n, s), i, r);
            p2.ci == p.ci && p2.toR == p.toR[1..] && p2.cr == ChanIn(OnSignal(n.peers[r], i, n.Wire(i, r)[0], s.d).0, i)
  {
    DeliverEffect(n, i, r, s.d, i, r);
    DeliverEffect(n, i, r, s.d, r, i);
  }

  /** A delivery that links the two up leaves the responder the reference's channel. */
  lemma LinksUpAlike(t: Talk, s: Event, i: PeerId, r: PeerId)
    requires TalkInv(t, i, r) && Less(i, r) && s.Deliver? && s.a == i && s.b == r
    requires r in t.net.peers && t.net.Wire(i, r) != []
    requires LinkedUp(PairOf(Step(t.net, s), i, r))
    ensures PairOf(Step(t.net, s), i, r).cr == PairOf(Step(t.ref, s), i, r).cr
  {
    LessTotal(i, r);
    ResponderTakes(t.net, s, i, r);
    ResponderTakes(t.ref, s, i, r);
    var q := PairOf(t.ref, i, r);
    assert PairOk(q, i, r);
    LastFrame(PairOf(t.net, i, r), q, i, r);
    Message3Read(t.net.peers[r], t.ref.peers[r], i, t.net.Wire(i, r)[0], s.d);
  }

  /** The last frame of a ready initiator is message 3, and the responder that reads it is well shaped. */
  lemma LastFrame(p: Pair, q: Pair, i: PeerId, r: PeerId)
    requires PairOk(q, i, r) && p.toR == q.toR && |p.toR| == 1 && IsPhase(q.ci, Ready)
    ensures p.toR[0].step == 3 && p.toR[0].to == r && (q.cr.Some? ==> ResponderShape(q.cr.value))
  {
  }

  lemma TwinPairs(n: Net, k: Net, i: PeerId, r: PeerId)
    requires Alike(n, k)
    ensures var p, q := PairOf(n, i, r), PairOf(k, i, r);
            && p.toR == q.toR && p.toI == q.toI && (p.ci.Some? <==> q.ci.Some?) && (p.cr.Some? <==> q.cr.Some?)
            && (p.ci.Some? ==> Twin(p.ci.value, q.ci.value)) && (p.cr.Some? ==> Twin(p.cr.value, q.cr.value))
  {
  }

  lemma LinkedBob(p: Pair, q: Pair, i: PeerId, r: PeerId)
    requires PairOk(q, i, r) && LinkedUp(p) && p.toR == q.toR && p.cr == q.cr && q.ci.Some? && Twin(p.ci.value, q.ci.value)
    ensures p.cr.value.ratchet == Some(BobOf(p.ci.value))
  {
    MirrorsBob(q.ci.value, q.cr.value);
  }

  lemma DeliverToResponderConverses(t: Talk, s: Event, i: PeerId, r: PeerId)
    requires TalkInv(t, i, r) && Less(i, r) && s.Deliver? && s.a == i && s.b == r
    requires r in t.net.peers && t.net.Wire(i, r) != []
    requires Inv(Step(t.ref, s)) && Alike(Step(t.net, s), Step(t.ref, s))
    ensures Converses(PairOf(Step(t.net, s), i, r), NextW(t, Signal(s), i, r))
  {
    LessTotal(i, r);
    var p2, q2 := PairOf(Step(t.net, s), i, r), PairOf(Step(t.ref, s), i, r);
    ResponderTakes(t.net, s, i, r);
    if LinkedUp(p2) {
      LinksUpAlike(t, s, i, r);
      TwinPairs(Step(t.net, s), Step(t.ref, s), i, r);
      assert PairOk(q2, i, r);
      LinkedBob(p2, q2, i, r);
    }
    ReadByBob(PairOf(t.net, i, r), p2, t.w);
    NextIsOfPair(t, s, i, r);
  }

  lemma EnsureCalmly(n: Net, a: PeerId, b: PeerId, d: Draw, i: PeerId, r: PeerId)
    requires i != r && a in n.peers
    ensures Calmly(PairOf(n, i, r), PairOf(Step(n, Ensure(a, b, d)), i, r))
  {
    var (m, out) := EnsureChannel(n.peers[a], b, d);
    EnsureEffect(n.peers[a], b, d);
    ActLocal(n, a, m, b, out, i, r);
    ActLocal(n, a, m, b, out, r, i);
    assert n.Wire(i, r) + [] == n.Wire(i, r);
  }

  lemma RemoveCalmly(n: Net, a: PeerId, b: PeerId, i: PeerId, r: PeerId)
    requires i != r && a in n.peers
    ensures Calmly(PairOf(n, i, r), PairOf(Step(n, Remove(a, b)), i, r))
  {
    var m := RemovePeer(n.peers[a], b);
    assert m.channels - {b} == n.peers[a].channels - {b};
    ActLocal(n, a, m, b, None, i, r);
    ActLocal(n, a, m, b, None, r, i);
    assert n.Wire(i, r) + [] == n.Wire(i, r);
  }

  /** Events of other pairs, and those that only give a side a new channel or take one away. */
  lemma QuietSignalConverses(t: Talk, s: Event, i: PeerId, r: PeerId)
    requires Converses(PairOf(t.net, i, r), t.w) && i != r && !s.Deliver?
    requires forall a :: a in t.net.peers ==> t.net.peers[a].selfId == a
    ensures Converses(PairOf(Step(t.net, s), i, r), NextW(t, Signal(s), i, r))
  {
    match s {
      case Ensure(a, b, d) => if a in t.net.peers { EnsureCalmly(t.net, a, b, d, i, r); }
      case Remove(a, b) => if a in t.net.peers { RemoveCalmly(t.net, a, b, i, r); }
      case Reload(a, key) =>
      case Overhear(_, _, _, _, _, _) => OverhearsNothing(t.net, s);
    }
    CalmlyConverses(PairOf(t.net, i, r), PairOf(Step(t.net, s), i, r), t.w);
    NextIsOfPair(t, s, i, r);
  }

  lemma OtherDeliveryConverses(t: Talk, s: Event, i: PeerId, r: PeerId)
    requires TalkInv(t, i, r) && Less(i, r) && s.Deliver? && s.b in t.net.peers && t.net.Wire(s.a, s.b) != []
    requires (s.a, s.b) != (i, r) && (s.a, s.b) != (r, i)
    ensures Converses(PairOf(Step(t.net, s), i, r), NextW(t, Signal(s), i, r))
  {
    assert t.ref.Wire(s.a, s.a) == [];
    DeliverEffect(t.net, s.a, s.b, s.d, i, r);
    DeliverEffect(t.net, s.a, s.b, s.d, r, i);
    CalmlyConverses(PairOf(t.net, i, r), PairOf(Step(t.net, s), i, r), t.w);
    NextIsOfPair(t, s, i, r);
  }

  lemma TalkStepInv(t: Talk, e: TalkEvent, i: PeerId, r: PeerId)
    requires TalkInv(t, i, r) && Less(i, r) && TalkAllowed(t, e, i, r)
    ensures TalkInv(TalkStep(t, e, i, r), i, r)
  {
    LessTotal(i, r);
    match e
    case SealAll(a, order, plain, kps) =>
      MessageAlike(t, e, i, r);
      SealConverses(t, e, i, r);
    case Open(b, from, payload, kp) =>
      MessageAlike(t, e, i, r);
      OpenConverses(t, e, i, r);
    case Signal(s) =>
      StepInv(t.ref, s);
      SignalAlike(t.net, t.ref, s);
      if !s.Deliver? {
        assert forall a :: a in t.net.peers ==> t.ref.peers[a].selfId == a;
        QuietSignalConverses(t, s, i, r);
      } else if s.b in t.net.peers && t.net.Wire(s.a, s.b) != [] {
        if (s.a, s.b) == (i, r) {
          DeliverToResponderConverses(t, s, i, r);
        } else if (s.a, s.b) == (r, i) {
          DeliverToInitiatorConverses(t, s, i, r);
        } else {
          OtherDeliveryConverses(t, s, i, r);
        }
      }
  }

  // ----- every run ------------------------------------------------------------------------------------

  lemma {:induction false} TalkRunInv(n: Net, es: seq<TalkEvent>, i: PeerId, r: PeerId)
    requires Start(n) && Less(i, r) && TalkAllowedRun(n, es, i, r)
    ensures TalkInv(TalkRun(n, es, i, r), i, r)
  {
    if es == [] {
      var none: seq<Event> := [];
      RunInv(n, none);
      assert Run(n, none) == n;
    } else {
      TalkRunInv(n, es[..|es| - 1], i, r);
      TalkStepInv(TalkRun(n, es[..|es| - 1], i, r), es[|es| - 1], i, r);
    }
  }

  /**
   In every run of handshakes, removals, reloads, seals and openings, whenever
   both sides of a pair are ready and message 3 has been read, the two ratchets
   are the two ends of one conversation, begun when the initiator became ready.
   */
  lemma ChannelsConverse(n: Net, es: seq<TalkEvent>, i: PeerId, r: PeerId)
    requires Start(n) && Less(i, r) && TalkAllowedRun(n, es, i, r)
    requires LinkedUp(PairOf(TalkRun(n, es, i, r).net, i, r))
    ensures var t := TalkRun(n, es, i, r);
            var p := PairOf(t.net, i, r);
            && t.w.Some? && Theorems.Conversation(t.w.value)
            && p.ci.value.ratchet == Some(t.w.value.alice) && p.cr.value.ratchet == Some(t.w.value.bob)
  {
    TalkRunInv(n, es, i, r);
  }

  /**
   End to end: at any point of any run at which a pair is linked up, what either
   of the two seals for all its peers the other opens to exactly the same bytes,
   if and only if the message is within reach of its ratchet.
   */
  lemma SealedIsOpened(n: Net, es: seq<TalkEvent>, i: PeerId, r: PeerId, who: Ratchet.Party,
                       order: seq<PeerId>, plain: Bytes, kps: PeerId -> KeyId, kp: KeyId)
    requires Start(n) && Less(i, r) && TalkAllowedRun(n, es, i, r) && |plain| < Codec.TWO32
    requires LinkedUp(PairOf(TalkRun(n, es, i, r).net, i, r))
    requires var t := TalkRun(n, es, i, r);
             var (a, b) := if who.Alice? then (i, r) else (r, i);
             Lists(order, t.net.peers[a])
             && (t.w.Some? ==> kps(b) !in t.w.value.used && kp !in t.w.value.used) && kp != kps(b)
    ensures var t := TalkRun(n, es, i, r);
            var (a, b) := if who.Alice? then (i, r) else (r, i);
            var sealed := EncryptForAll(t.net.peers[a], order, plain, kps).1;
            && t.w.Some? && sealed.Ok? && b in sealed.value && sealed.value[b].Slot?
            && var st := DR.Encrypt(t.w.value.Of(who), Padding.Padded(plain), kps(b)).0;
               DecryptFrom(t.net.peers[b], a, sealed.value, kp).1
               == if Theorems.WithinReach(t.w.value.Of(Ratchet.Peer(who)), st, sealed.value[b].h) then Some(plain) else None
  {
    var t := TalkRun(n, es, i, r);
    var (a, b) := if who.Alice? then (i, r) else (r, i);
    TalkRunInv(n, es, i, r);
    ChannelsConverse(n, es, i, r);
    assert t.net.peers[a].selfId == t.ref.peers[a].selfId == a && t.net.peers[b].selfId == t.ref.peers[b].selfId == b;
    OpensWhatWasSealed(t.w.value, who, t.net.peers[a], t.net.peers[b], order, plain, kps, kp);
  }
}
