/**
 From which states a pair of channels comes to ready without anyone's help, and
 how a reload in mid-handshake leads into one from which it does not.
 */
module ChannelRecovery {
  import opened Common
  import opened Symbolic
  import opened Noise
  import opened PeerChannels
  import opened ChannelAgreement
  import opened ChannelNetwork
  import opened ChannelConvergence

  // ----- pairs in which nothing moves --------------------------------------------------------

  /** The events that reach a pair, and what they leave of it. */
  lemma CalmPair(n: Net, e: Event, i: PeerId, r: PeerId)
    requires Calm(e) && i != r && (forall a :: n.Wire(a, a) == []) && (forall a :: a in n.peers ==> n.peers[a].selfId == a)
    ensures var p, p2 := PairOf(n, i, r), PairOf(Step(n, e), i, r);
            || p2 == p
            || (Ensures(e, i, r) && i in n.peers
                && var (m, out) := EnsureChannel(n.peers[i], r, e.d); p2 == p.(ci := ChanIn(m, r), toR := p.toR + Out(out)))
            || (Ensures(e, r, i) && r in n.peers
                && var (m, out) := EnsureChannel(n.peers[r], i, e.d); p2 == p.(cr := ChanIn(m, i), toI := p.toI + Out(out)))
            || Between(n, e, i, r)
  {
    match e {
      case Ensure(a, b, d) =>
        if a in n.peers {
          var (m, out) := EnsureChannel(n.peers[a], b, d);
          EnsureEffect(n.peers[a], b, d);
          ActLocal(n, a, m, b, out, i, r);
          ActLocal(n, a, m, b, out, r, i);
        }
      case Deliver(a, b, d) =>
        if b in n.peers && n.Wire(a, b) != [] && !Between(n, e, i, r) {
          DeliverEffect(n, a, b, d, i, r);
          DeliverEffect(n, a, b, d, r, i);
        }
      case Overhear(_, _, _, _, _, _) => OverhearsNothing(n, e);
    }
  }

  /** Two channels and nothing in flight. */
  ghost predicate Frozen(p: Pair) { p.ci.Some? && p.cr.Some? && p.toR == [] && p.toI == [] }

  lemma FrozenStep(n: Net, e: Event, i: PeerId, r: PeerId)
    requires Calm(e) && i != r && Inv(n) && Frozen(PairOf(n, i, r))
    ensures PairOf(Step(n, e), i, r) == PairOf(n, i, r)
  {
    CalmPair(n, e, i, r);
  }

  /** The initiator waits for an answer that nobody will send; the responder may have asked it to restart. */
  ghost predicate Stuck(p: Pair, i: PeerId) {
    && IsPhase(p.ci, Handshaking) && p.toR == []
    && (p.cr == None ==> p.toI == []) && (p.toI == [] || p.toI == [Restart(i)])
  }

  /** An initiator in mid-handshake takes no notice of a request to restart. */
  lemma RestartIgnored(n: Net, d: Draw, i: PeerId, r: PeerId)
    requires Less(i, r) && i in n.peers && n.peers[i].selfId == i
    requires IsPhase(n.Chan(i, r), Handshaking) && n.Wire(r, i) == [Restart(i)]
    ensures PairOf(Step(n, Deliver(r, i, d)), i, r) == PairOf(n, i, r).(toI := [])
  {
    LessTotal(i, r);
    DeliverEffect(n, r, i, d, i, r);
    DeliverEffect(n, r, i, d, r, i);
    assert n.Wire(i, r) + [] == n.Wire(i, r);
  }

  lemma StuckStep(n: Net, e: Event, i: PeerId, r: PeerId)
    requires Calm(e) && Less(i, r) && Inv(n) && Stuck(PairOf(n, i, r), i)
    ensures Stuck(PairOf(Step(n, e), i, r), i)
  {
    LessTotal(i, r);
    if Between(n, e, i, r) {
      RestartIgnored(n, e.d, i, r);
    } else {
      CalmPair(n, e, i, r);
      if Ensures(e, r, i) && r in n.peers { EnsureEffect(n.peers[r], i, e.d); }
    }
  }

  // ----- whole runs ----------------------------------------------------------------------------

  lemma {:induction false} InvAlong(n: Net, es: seq<Event>)
    requires Inv(n)
    ensures Inv(Run(n, es))
  {
    if es != [] {
      InvAlong(n, es[..|es| - 1]);
      StepInv(Run(n, es[..|es| - 1]), es[|es| - 1]);
    }
  }

  lemma {:induction false} StaysFrozen(n: Net, es: seq<Event>, i: PeerId, r: PeerId)
    requires Inv(n) && i != r && Frozen(PairOf(n, i, r)) && forall e :: e in es ==> Calm(e)
    ensures PairOf(Run(n, es), i, r) == PairOf(n, i, r)
  {
    if es != [] {
      var front := es[..|es| - 1];
      StaysFrozen(n, front, i, r);
      InvAlong(n, front);
      FrozenStep(Run(n, front), es[|es| - 1], i, r);
    }
  }

  lemma {:induction false} StaysStuck(n: Net, es: seq<Event>, i: PeerId, r: PeerId)
    requires Inv(n) && Less(i, r) && Stuck(PairOf(n, i, r), i) && forall e :: e in es ==> Calm(e)
    ensures Stuck(PairOf(Run(n, es), i, r), i)
  {
    if es != [] {
      var front := es[..|es| - 1];
      StaysStuck(n, front, i, r);
      InvAlong(n, front);
      StuckStep(Run(n, front), es[|es| - 1], i, r);
    }
  }

  /**
   What the two clients can look up before the run: the initiator has no channel,
   or the responder has none and the initiator is not in mid-handshake, or both
   are ready.
   */
  predicate Recoverable(p: Pair) {
    || p.ci == None
    || (p.cr == None && !IsPhase(p.ci, Handshaking))
    || (IsPhase(p.ci, Ready) && IsPhase(p.cr, Ready))
  }

  /**
   In any net that keeps the invariant, so after any events whatever, and with
   nothing in flight between the two, let each side ensure the channel, and let everything be delivered,
   in any order and with any other events but reloads and removals in between.
   The pair ends ready, each mirroring the other, if and only if it was
   recoverable before.
   */
  lemma ConvergesExactly(n: Net, es: seq<Event>, i: PeerId, r: PeerId)
    requires Inv(n) && i in n.peers && r in n.peers && Partners(n.peers[i], n.peers[r])
    requires n.Wire(i, r) == [] && n.Wire(r, i) == []
    requires forall e :: e in es ==> Calm(e)
    requires (exists e :: e in es && Ensures(e, i, r)) && (exists e :: e in es && Ensures(e, r, i))
    requires Run(n, es).Wire(i, r) == [] && Run(n, es).Wire(r, i) == []
    ensures Done(PairOf(Run(n, es), i, r)) <==> Recoverable(PairOf(n, i, r))
  {
    var p := PairOf(n, i, r);
    LessTotal(i, r);
    if Idle(p) {
      PairConverges(n, es, i, r);
    } else if p.cr == None {
      StaysStuck(n, es, i, r);
    } else {
      StaysFrozen(n, es, i, r);
      assert PairOk(p, i, r);
    }
  }

  // ----- a reload in mid-handshake --------------------------------------------------------------

  /** A responder without a channel that is sent message 3 reads it as message 1, and is not ready. */
  lemma Message3Unasked(m: Manager, i: PeerId, f: NoiseFrame, d: Draw)
    requires Less(i, m.selfId) && i !in m.channels && f.to == m.selfId && f.step == 3
    ensures var (m2, out) := OnSignal(m, i, f, d);
            out == None && i in m2.channels && m2.channels[i].phase != Ready
  {
    LessTotal(i, m.selfId);
    var c := NewChannel(m, i, d);
    MessageFrame(c.hs, f.data, [], 0);
  }

  /** The initiator has offered: message 1 alone is on its way. */
  lemma OfferSent(n: Net, d: Draw, i: PeerId, r: PeerId)
    requires Less(i, r) && i in n.peers && n.peers[i].selfId == i && n.Chan(i, r) == None && n.Wire(i, r) == []
    ensures var n2 := Step(n, Ensure(i, r, d));
            var p, p2 := PairOf(n, i, r), PairOf(n2, i, r);
            && p2.ci.Some? && Waiting(p2.ci.value, n.peers[i], r) && p2.cr == p.cr && p2.toI == p.toI
            && p2.toR == [NoiseFrame(r, 1, [PubKey(p2.ci.value.hs.e.value)])]
            && i in n2.peers && SameClient(n2.peers[i], n.peers[i]) && (r in n.peers ==> r in n2.peers && n2.peers[r] == n.peers[r])
  {
    LessTotal(i, r);
    var (m, out) := EnsureChannel(n.peers[i], r, d);
    EnsureEffect(n.peers[i], r, d);
    OfferMade(n.peers[i], r, d);
    ActLocal(n, i, m, r, out, i, r);
    ActLocal(n, i, m, r, out, r, i);
  }

  /** The responder has answered: message 2 alone is on its way. */
  lemma AnswerSent(n: Net, mi: Manager, d: Draw, i: PeerId, r: PeerId)
    requires i in n.peers && r in n.peers && n.peers[r].selfId == r && mi.selfId == i && Partners(mi, n.peers[r])
    requires var p := PairOf(n, i, r);
             p.ci.Some? && Waiting(p.ci.value, mi, r) && p.toI == []
             && p.toR == [NoiseFrame(r, 1, [PubKey(p.ci.value.hs.e.value)])]
    ensures var n2 := Step(n, Deliver(i, r, d));
            var p, p2 := PairOf(n, i, r), PairOf(n2, i, r);
            && p2.ci == p.ci && p2.cr.Some? && p2.toR == [] && |p2.toI| == 1
            && p2.toI[0].to == i && p2.toI[0].step == 2 && Answered(p2.ci.value, p2.cr.value, p2.toI[0].data)
            && i in n2.peers && n2.peers[i] == n.peers[i] && r in n2.peers && SameClient(n2.peers[r], n.peers[r])
  {
    LessTotal(i, r);
    var p := PairOf(n, i, r);
    OnSignalLocal(n.peers[r], i, p.toR[0], d);
    AnswerMade(p.ci.value, mi, n.peers[r], d);
    DeliverEffect(n, i, r, d, i, r);
    DeliverEffect(n, i, r, d, r, i);
    assert p.toI + Out(OnSignal(n.peers[r], i, p.toR[0], d).1) == [OnSignal(n.peers[r], i, p.toR[0], d).1.value];
  }

  /** The initiator reads message 2 whoever still holds the other end, and is ready: message 3 alone is on its way. */
  lemma ConfirmSent(n: Net, mi: Manager, cr: Channel, d: Draw, i: PeerId, r: PeerId)
    requires Less(i, r) && i in n.peers && mi.selfId == i && SameClient(n.peers[i], mi)
    requires var p := PairOf(n, i, r);
             && p.ci.Some? && Waiting(p.ci.value, mi, r) && p.toR == [] && |p.toI| == 1
             && p.toI[0].to == i && p.toI[0].step == 2 && Answered(p.ci.value, cr, p.toI[0].data)
    ensures var n2 := Step(n, Deliver(r, i, d));
            var p, p2 := PairOf(n, i, r), PairOf(n2, i, r);
            && IsPhase(p2.ci, Ready) && p2.cr == p.cr && p2.toI == []
            && |p2.toR| == 1 && p2.toR[0].to == r && p2.toR[0].step == 3
            && (r in n.peers ==> r in n2.peers && n2.peers[r] == n.peers[r])
  {
    LessTotal(i, r);
    var p := PairOf(n, i, r);
    WaitingHs(p.ci.value, mi, r);
    ConfirmMade(p.ci.value, cr, mi, r, p.toI[0].data, d);
    DeliverEffect(n, r, i, d, i, r);
    DeliverEffect(n, r, i, d, r, i);
    assert p.toR + Out(OnSignal(n.peers[i], r, p.toI[0], d).1) == [OnSignal(n.peers[i], r, p.toI[0], d).1.value];
  }

  /** The reloaded responder takes message 3: nothing is in flight, and it is not ready. */
  lemma ConfirmWasted(n: Net, d: Draw, i: PeerId, r: PeerId)
    requires Less(i, r) && r in n.peers && n.peers[r].selfId == r
    requires var p := PairOf(n, i, r);
             IsPhase(p.ci, Ready) && p.cr == None && p.toI == [] && |p.toR| == 1 && p.toR[0].to == r && p.toR[0].step == 3
    ensures HalfOpen(PairOf(Step(n, Deliver(i, r, d)), i, r))
  {
    LessTotal(i, r);
    var p := PairOf(n, i, r);
    Message3Unasked(n.peers[r], i, p.toR[0], d);
    DeliverEffect(n, i, r, d, i, r);
    DeliverEffect(n, i, r, d, r, i);
  }

  /** The initiator is ready, the responder is not, and nothing is in flight. */
  predicate HalfOpen(p: Pair) {
    IsPhase(p.ci, Ready) && p.cr.Some? && p.cr.value.phase != Ready && p.toR == [] && p.toI == []
  }

  /** The handshake with the reload in it. */
  function ReloadedRun(i: PeerId, r: PeerId, d1: Draw, d2: Draw, key: KeyId, d3: Draw, d4: Draw): seq<Event> {
    [] + [Ensure(i, r, d1)] + [Deliver(i, r, d2)] + [Reload(r, key)] + [Deliver(r, i, d3)] + [Deliver(i, r, d4)]
  }

  lemma OneMore(n: Net, es: seq<Event>, e: Event)
    ensures Run(n, es + [e]) == Step(Run(n, es), e)
  {
    assert (es + [e])[..|es|] == es;
  }

  lemma ReloadedRunSteps(n: Net, i: PeerId, r: PeerId, d1: Draw, d2: Draw, key: KeyId, d3: Draw, d4: Draw)
    ensures Run(n, ReloadedRun(i, r, d1, d2, key, d3, d4))
         == Step(Step(Step(Step(Step(n, Ensure(i, r, d1)), Deliver(i, r, d2)), Reload(r, key)), Deliver(r, i, d3)), Deliver(i, r, d4))
  {
    var e0: seq<Event> := [];
    var e1 := e0 + [Ensure(i, r, d1)];
    var e2 := e1 + [Deliver(i, r, d2)];
    var e3 := e2 + [Reload(r, key)];
    var e4 := e3 + [Deliver(r, i, d3)];
    OneMore(n, e0, Ensure(i, r, d1));
    OneMore(n, e1, Deliver(i, r, d2));
    OneMore(n, e2, Reload(r, key));
    OneMore(n, e3, Deliver(r, i, d3));
    OneMore(n, e4, Deliver(i, r, d4));
  }

  /**
   From the start, for any draws: the initiator offers, the responder answers and
   reloads, the initiator confirms. The initiator is ready and nothing is in
   flight, and the responder is not ready.
   */
  lemma ReloadHalfOpens(n: Net, i: PeerId, r: PeerId, d1: Draw, d2: Draw, key: KeyId, d3: Draw, d4: Draw)
    requires Start(n) && i in n.peers && r in n.peers && Partners(n.peers[i], n.peers[r])
    ensures HalfOpen(PairOf(Run(n, ReloadedRun(i, r, d1, d2, key, d3, d4)), i, r))
  {
    LessTotal(i, r);
    var mi := n.peers[i];
    OfferSent(n, d1, i, r);
    var n1 := Step(n, Ensure(i, r, d1));
    AnswerSent(n1, mi, d2, i, r);
    var n2 := Step(n1, Deliver(i, r, d2));
    var n3 := Step(n2, Reload(r, key));
    ConfirmSent(n3, mi, PairOf(n2, i, r).cr.value, d3, i, r);
    var n4 := Step(n3, Deliver(r, i, d3));
    ConfirmWasted(n4, d4, i, r);
    ReloadedRunSteps(n, i, r, d1, d2, key, d3, d4);
  }

  /**
   A half-open pair stays half open through everything but reloads and removals.
   The initiator seals for a peer that opens nothing it is sent.
   */
  lemma HalfOpenStays(n: Net, es: seq<Event>, i: PeerId, r: PeerId, payload: Payload, kp: KeyId)
    requires Inv(n) && Less(i, r) && HalfOpen(PairOf(n, i, r)) && forall e :: e in es ==> Calm(e)
    ensures HalfOpen(PairOf(Run(n, es), i, r))
    ensures DecryptFrom(Run(n, es).peers[r], i, payload, kp).1 == None
  {
    LessTotal(i, r);
    StaysFrozen(n, es, i, r);
  }
}
