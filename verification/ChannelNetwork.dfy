/**
 Any number of clients exchanging handshake frames over FIFO wires, with every
 client free to ensure or remove a channel or to reload at any time. The relay
 hands every frame to all members of the session, so each client also hears the
 frames that are meant for others.
 */
module ChannelNetwork {
  import opened Common
  import opened Symbolic
  import opened Noise
  import opened PeerChannels
  import opened ChannelAgreement

  type Wires = map<(PeerId, PeerId), seq<NoiseFrame>>

  datatype Net = Net(peers: map<PeerId, Manager>, wires: Wires) {

    function Wire(a: PeerId, b: PeerId): seq<NoiseFrame> {
      if (a, b) in wires then wires[(a, b)] else []
    }

    function Chan(a: PeerId, b: PeerId): Option<Channel> {
      if a in peers && b in peers[a].channels then Some(peers[a].channels[b]) else None
    }

    /** `a` becomes `m`, having sent `out` to `b`. */
    function Act(a: PeerId, m: Manager, b: PeerId, out: Option<NoiseFrame>): Net {
      Net(peers[a := m], if out.None? then wires else wires[(a, b) := Wire(a, b) + [out.value]])
    }
  }

  datatype Event =
    | Ensure(a: PeerId, b: PeerId, d: Draw)
    | Remove(a: PeerId, b: PeerId)
    | Reload(a: PeerId, staticKey: KeyId)
    | Deliver(a: PeerId, b: PeerId, d: Draw)  // the oldest frame on the wire from a to b
    // the relay's copy for b of any frame to another client, early or late, once or often
    | Overhear(b: PeerId, from: PeerId, to: PeerId, step: nat, data: Option<Data>, d: Draw)

  function Step(n: Net, e: Event): Net {
    match e
    case Ensure(a, b, d) =>
      if a !in n.peers then n
      else var (m, out) := EnsureChannel(n.peers[a], b, d); n.Act(a, m, b, out)
    case Remove(a, b) =>
      if a !in n.peers then n else n.Act(a, RemovePeer(n.peers[a], b), b, None)
    case Reload(a, staticKey) =>
      if a !in n.peers then n
      else n.Act(a, n.peers[a].(staticKey := staticKey, channels := map[]), a, None)
    case Deliver(a, b, d) =>
      if b !in n.peers || n.Wire(a, b) == [] then n
      else
        var n1 := n.(wires := n.wires[(a, b) := n.Wire(a, b)[1..]]);
        var (m, out) := OnSignal(n.peers[b], a, n.Wire(a, b)[0], d);
        n1.Act(b, m, a, out)
    case Overhear(b, from, to, step, data, d) =>
      if b !in n.peers || to == b then n
      else var (m, out) := OnFrame(n.peers[b], from, to, step, data, d); n.Act(b, m, from, out)
  }

  function Run(n: Net, es: seq<Event>): Net {
    if es == [] then n else Step(Run(n, es[..|es| - 1]), es[|es| - 1])
  }

  /** Clients that have done nothing yet. */
  ghost predicate Start(n: Net) {
    && n.wires == map[]
    && (forall a :: a in n.peers ==> n.peers[a].selfId == a && n.peers[a].channels == map[])
  }

  // ----- the invariant of one pair -------------------------------------------------------

  /** The two channels of a pair and the two wires between them, initiator first. */
  datatype Pair = Pair(ci: Option<Channel>, cr: Option<Channel>, toR: seq<NoiseFrame>, toI: seq<NoiseFrame>)

  function PairOf(n: Net, i: PeerId, r: PeerId): Pair {
    Pair(n.Chan(i, r), n.Chan(r, i), n.Wire(i, r), n.Wire(r, i))
  }

  ghost predicate WireOk(w: seq<NoiseFrame>, to: PeerId) {
    forall k :: 0 <= k < |w| ==> w[k].to == to && (w[k].step == 1 ==> |w[k].data| == 1 && w[k].data[0].PubKey?)
  }

  predicate IsPhase(c: Option<Channel>, p: Phase) { c.Some? && c.value.phase == p }

  ghost predicate PairOk(p: Pair, i: PeerId, r: PeerId) {
    && (p.ci.Some? ==> InitiatorShape(p.ci.value))
    && (p.cr.Some? ==> ResponderShape(p.cr.value))
    && WireOk(p.toR, r) && WireOk(p.toI, i)
    && (IsPhase(p.ci, Ready) && p.toR != [] ==>
          p.toR[|p.toR| - 1].step == 3 && p.toR[|p.toR| - 1].data == MessageIn(p.ci.value.hs.sym.h))
    && (IsPhase(p.ci, Ready) && p.toR == [] && IsPhase(p.cr, Ready) ==> Mirrors(p.ci.value, p.cr.value))
  }

  ghost predicate Inv(n: Net) {
    && (forall a :: a in n.peers ==> n.peers[a].selfId == a)
    && (forall a :: n.Wire(a, a) == [])
    && (forall i, r :: Less(i, r) ==> PairOk(PairOf(n, i, r), i, r))
  }

  // ----- what one call does to the caller's own channel ----------------------------------

  lemma EnsureEffect(m: Manager, peer: PeerId, d: Draw)
    ensures var (m2, out) := EnsureChannel(m, peer, d);
            && m2.(channels := m.channels) == m && m2.channels - {peer} == m.channels - {peer}
            && (out.None? ==> m2 == m)
            && (out.Some? ==>
                  && peer !in m.channels && peer in m2.channels && m2.channels[peer].phase == Handshaking
                  && out.value.to == peer
                  && (Less(m.selfId, peer) ==>
                        && InitiatorShape(m2.channels[peer])
                        && out.value.step == 1 && |out.value.data| == 1 && out.value.data[0].PubKey?)
                  && (!Less(m.selfId, peer) ==> ResponderShape(m2.channels[peer]) && out.value.step == 0))
  {
    if peer != m.selfId && peer !in m.channels && Less(m.selfId, peer) {
      FirstMessage(NewChannel(m, peer, d).hs, d.e);
    }
  }

  lemma FirstMessage(hs: Hs, e: KeyId)
    requires hs.index == 0 && hs.sym.cipher.k.None? && hs.pair.None?
    ensures WriteMessage(hs, [], e).1 == Some([PubKey(e)])
    ensures WriteMessage(hs, [], e).0.index == 1 && WriteMessage(hs, [], e).0.pair.None?
  {
    assert [PubKey(e)] + [] == [PubKey(e)];
    assert WriteTokens(hs, [E], e) == (WriteToken(hs, E, e).0, Some([PubKey(e)]));
    assert WriteMessage(hs, [], e).1 == Some([PubKey(e)] + []);
  }

  /** A call of `m` changed at most its channel to `peer`. */
  ghost predicate OnlyTowards(m: Manager, m2: Manager, peer: PeerId) {
    m2.(channels := m.channels) == m && m2.channels - {peer} == m.channels - {peer}
  }

  function Out(out: Option<NoiseFrame>): seq<NoiseFrame> { if out.None? then [] else [out.value] }

  lemma OnSignalLocal(m: Manager, peer: PeerId, f: NoiseFrame, d: Draw)
    ensures OnlyTowards(m, OnSignal(m, peer, f, d).0, peer)
  {
    if f.step == 0 { EnsureEffect(RemovePeer(m, peer), peer, d); }
  }

  /** What an initiator's manager may have done with a frame from `peer`. */
  ghost predicate InitiatorDid(m: Manager, m2: Manager, out: Option<NoiseFrame>, peer: PeerId) {
    && OnlyTowards(m, m2, peer) && WireOk(Out(out), peer)
    && peer in m2.channels && InitiatorShape(m2.channels[peer])
    && (m2.channels[peer].phase == Ready ==>
          || (m2 == m && out == None)
          || out == Some(NoiseFrame(peer, 3, MessageIn(m2.channels[peer].hs.sym.h))))
  }

  /** An initiator that is ready after a frame either was so before, or has just sent message 3. */
  lemma InitiatorSignal(m: Manager, peer: PeerId, f: NoiseFrame, d: Draw)
    requires Less(m.selfId, peer) && f.to == m.selfId
    requires peer in m.channels ==> InitiatorShape(m.channels[peer])
    ensures var (m2, out) := OnSignal(m, peer, f, d); InitiatorDid(m, m2, out, peer)
  {
    LessTotal(m.selfId, peer);
    if f.step == 0 {
      InitiatorRestarts(m, peer, d);
    } else {
      var c := if peer !in m.channels || f.step == 1 then NewChannel(m, peer, d) else m.channels[peer];
      if f.step == 2 {
        var (c2, out) := OnStep2(c, peer, f.data, d);
        InitiatorStep2(m, c, peer, f.data, d);
        assert OnSignal(m, peer, f, d) == (SetChannel(m, peer, c2), out);
      } else {
        assert OnSignal(m, peer, f, d) == (SetChannel(m, peer, c), None);
        assert peer in m.channels && c == m.channels[peer] ==> SetChannel(m, peer, c) == m;
      }
    }
  }

  lemma InitiatorRestarts(m: Manager, peer: PeerId, d: Draw)
    requires Less(m.selfId, peer) && m.selfId != peer
    requires peer in m.channels ==> InitiatorShape(m.channels[peer])
    ensures var (m2, out) := OnRestartRequest(m, peer, d); InitiatorDid(m, m2, out, peer)
  {
    EnsureEffect(RemovePeer(m, peer), peer, d);
  }

  lemma InitiatorStep2(m: Manager, c: Channel, peer: PeerId, data: Data, d: Draw)
    requires InitiatorShape(c)
    ensures var (c2, out) := OnStep2(c, peer, data, d); InitiatorDid(m, SetChannel(m, peer, c2), out, peer)
  {
    OnStep2Shape(c, peer, data, d);
    OnStep2Sends(c, peer, data, d);
    if OnStep2(c, peer, data, d).0.phase == Ready { OnStep2Ready(c, peer, data, d); }
  }

  lemma OnStep2Sends(c: Channel, peer: PeerId, data: Data, d: Draw)
    ensures var out := OnStep2(c, peer, data, d).1;
            out.Some? ==> out.value.to == peer && out.value.step == 3
  {
  }

  /** A responder that is ready after a frame either was so before, or has just read message 3. */
  lemma ResponderSignal(m: Manager, peer: PeerId, f: NoiseFrame, d: Draw) returns (c: Channel)
    requires Less(peer, m.selfId) && f.to == m.selfId
    requires f.step == 1 ==> |f.data| == 1 && f.data[0].PubKey?
    requires peer in m.channels ==> ResponderShape(m.channels[peer])
    ensures ResponderShape(c)
    ensures var (m2, out) := OnSignal(m, peer, f, d);
            && OnlyTowards(m, m2, peer) && WireOk(Out(out), peer)
            && (peer in m2.channels ==> ResponderShape(m2.channels[peer]))
            && (f.step == 3 ==> peer in m2.channels && m2.channels[peer] == OnStep3(c, f.data))
            && (peer in m2.channels && m2.channels[peer].phase == Ready ==> f.step == 3 || m2 == m)
  {
    LessTotal(m.selfId, peer);
    c := if peer !in m.channels || f.step == 1 then NewChannel(m, peer, d) else m.channels[peer];
    if f.step == 1 {
      OnStep1Shape(c, peer, f.data[0].id, d);
      assert f.data == [PubKey(f.data[0].id)];
    } else if f.step == 3 {
      OnStep3Shape(c, f.data);
    }
  }

  // ----- one event and one pair ----------------------------------------------------------

  function ChanIn(m: Manager, b: PeerId): Option<Channel> {
    if b in m.channels then Some(m.channels[b]) else None
  }

  /** What `a` does towards `b` shows only in its channel to `b` and on its wire to `b`. */
  lemma ActLocal(n: Net, a: PeerId, m: Manager, b: PeerId, out: Option<NoiseFrame>, x: PeerId, y: PeerId)
    requires a in n.peers && OnlyTowards(n.peers[a], m, b)
    ensures var n2 := n.Act(a, m, b, out);
            if (x, y) == (a, b)
            then n2.Chan(x, y) == ChanIn(m, b) && n2.Wire(x, y) == n.Wire(x, y) + Out(out)
            else n2.Chan(x, y) == n.Chan(x, y) && n2.Wire(x, y) == n.Wire(x, y)
  {
    if x == a && y != b {
      assert y in m.channels <==> y in m.channels - {b};
      assert y in n.peers[a].channels <==> y in n.peers[a].channels - {b};
      assert y in m.channels ==> m.channels[y] == (m.channels - {b})[y];
      assert y in n.peers[a].channels ==> n.peers[a].channels[y] == (n.peers[a].channels - {b})[y];
    }
    assert n.Wire(x, y) + [] == n.Wire(x, y);
  }

  lemma WireAppend(w: seq<NoiseFrame>, v: seq<NoiseFrame>, to: PeerId)
    requires WireOk(w, to) && WireOk(v, to)
    ensures WireOk(w + v, to)
  {
  }

  /** The pair after its initiator acted without becoming ready. */
  lemma InitiatorActs(p: Pair, i: PeerId, r: PeerId, c: Option<Channel>, out: Option<NoiseFrame>)
    requires PairOk(p, i, r) && (c.Some? ==> InitiatorShape(c.value)) && WireOk(Out(out), r)
    requires IsPhase(c, Ready) ==>
               || (c == p.ci && out == None)
               || out == Some(NoiseFrame(r, 3, MessageIn(c.value.hs.sym.h)))
    ensures PairOk(p.(ci := c, toR := p.toR + Out(out)), i, r)
  {
    WireAppend(p.toR, Out(out), r);
    assert p.toR + [] == p.toR;
  }

  lemma ResponderActs(p: Pair, i: PeerId, r: PeerId, c: Option<Channel>, out: Option<NoiseFrame>)
    requires PairOk(p, i, r) && (c.Some? ==> ResponderShape(c.value)) && WireOk(Out(out), i)
    requires IsPhase(c, Ready) ==> c == p.cr
    ensures PairOk(p.(cr := c, toI := p.toI + Out(out)), i, r)
  {
    WireAppend(p.toI, Out(out), i);
  }

  /** The oldest frame towards the initiator is taken off the wire. */
  lemma PopToI(p: Pair, i: PeerId, r: PeerId)
    requires PairOk(p, i, r) && p.toI != []
    ensures PairOk(p.(toI := p.toI[1..]), i, r)
  {
  }

  /** The responder handles the oldest frame on its wire. */
  lemma ResponderReads(p: Pair, i: PeerId, r: PeerId, c: Option<Channel>, was: Channel, out: Option<NoiseFrame>)
    requires PairOk(p, i, r) && p.toR != []
    requires (c.Some? ==> ResponderShape(c.value)) && WireOk(Out(out), i) && ResponderShape(was)
    requires p.toR[0].step == 3 ==> c == Some(OnStep3(was, p.toR[0].data))
    requires IsPhase(c, Ready) ==> p.toR[0].step == 3 || c == p.cr
    ensures PairOk(Pair(p.ci, c, p.toR[1..], p.toI + Out(out)), i, r)
  {
    WireAppend(p.toI, Out(out), i);
    var p2 := Pair(p.ci, c, p.toR[1..], p.toI + Out(out));
    if IsPhase(p.ci, Ready) && p2.toR == [] && IsPhase(c, Ready) {
      OnStep3Mirrors(p.ci.value, was);
    }
  }

  // ----- every event keeps the invariant -------------------------------------------------

  lemma EnsureKeeps(n: Net, a: PeerId, b: PeerId, d: Draw, i: PeerId, r: PeerId)
    requires Inv(n) && Less(i, r) && a in n.peers
    ensures PairOk(PairOf(Step(n, Ensure(a, b, d)), i, r), i, r)
  {
    var (m, out) := EnsureChannel(n.peers[a], b, d);
    var p := PairOf(n, i, r);
    assert PairOk(p, i, r);
    EnsureEffect(n.peers[a], b, d);
    LessTotal(i, r);
    ActLocal(n, a, m, b, out, i, r);
    ActLocal(n, a, m, b, out, r, i);
    var p2 := PairOf(Step(n, Ensure(a, b, d)), i, r);
    if (a, b) == (i, r) {
      InitiatorActs(p, i, r, ChanIn(m, b), out);
      assert p2 == p.(ci := ChanIn(m, b), toR := p.toR + Out(out));
    } else if (a, b) == (r, i) {
      ResponderActs(p, i, r, ChanIn(m, b), out);
      assert p2 == p.(cr := ChanIn(m, b), toI := p.toI + Out(out));
    } else {
      assert p2 == p;
    }
  }

  lemma RemoveKeeps(n: Net, a: PeerId, b: PeerId, i: PeerId, r: PeerId)
    requires Inv(n) && Less(i, r) && a in n.peers
    ensures PairOk(PairOf(Step(n, Remove(a, b)), i, r), i, r)
  {
    var m := RemovePeer(n.peers[a], b);
    assert PairOk(PairOf(n, i, r), i, r);
    assert m.channels - {b} == n.peers[a].channels - {b};
    ActLocal(n, a, m, b, None, i, r);
    ActLocal(n, a, m, b, None, r, i);
  }

  lemma ReloadKeeps(n: Net, a: PeerId, staticKey: KeyId, i: PeerId, r: PeerId)
    requires Inv(n) && Less(i, r) && a in n.peers
    ensures PairOk(PairOf(Step(n, Reload(a, staticKey)), i, r), i, r)
  {
    assert PairOk(PairOf(n, i, r), i, r);
  }

  /** The net with the oldest frame from `a` to `b` taken off the wire. */
  function Popped(n: Net, a: PeerId, b: PeerId): Net
    requires n.Wire(a, b) != []
  {
    n.(wires := n.wires[(a, b) := n.Wire(a, b)[1..]])
  }

  /** A delivery shows in the receiver's channel to the sender and on the two wires between them. */
  lemma DeliverEffect(n: Net, a: PeerId, b: PeerId, d: Draw, x: PeerId, y: PeerId)
    requires a != b && b in n.peers && n.Wire(a, b) != []
    ensures var (m, out) := OnSignal(n.peers[b], a, n.Wire(a, b)[0], d);
            var n2 := Step(n, Deliver(a, b, d));
            && n2.Chan(x, y) == (if (x, y) == (b, a) then ChanIn(m, a) else n.Chan(x, y))
            && n2.Wire(x, y) == (if (x, y) == (b, a) then n.Wire(b, a) + Out(out)
                                 else if (x, y) == (a, b) then n.Wire(a, b)[1..] else n.Wire(x, y))
  {
    var (m, out) := OnSignal(n.peers[b], a, n.Wire(a, b)[0], d);
    OnSignalLocal(n.peers[b], a, n.Wire(a, b)[0], d);
    ActLocal(Popped(n, a, b), b, m, a, out, x, y);
  }

  lemma DeliverToInitiator(n: Net, a: PeerId, b: PeerId, d: Draw)
    requires Inv(n) && Less(b, a) && b in n.peers && n.Wire(a, b) != []
    ensures PairOk(PairOf(Step(n, Deliver(a, b, d)), b, a), b, a)
  {
    var (m, out) := OnSignal(n.peers[b], a, n.Wire(a, b)[0], d);
    var p := PairOf(n, b, a);
    assert PairOk(p, b, a);
    InitiatorSignal(n.peers[b], a, n.Wire(a, b)[0], d);
    LessTotal(b, a);
    DeliverEffect(n, a, b, d, b, a);
    DeliverEffect(n, a, b, d, a, b);
    PopToI(p, b, a);
    InitiatorActs(p.(toI := p.toI[1..]), b, a, ChanIn(m, a), out);
  }

  lemma DeliverToResponder(n: Net, a: PeerId, b: PeerId, d: Draw)
    requires Inv(n) && Less(a, b) && b in n.peers && n.Wire(a, b) != []
    ensures PairOk(PairOf(Step(n, Deliver(a, b, d)), a, b), a, b)
  {
    var (m, out) := OnSignal(n.peers[b], a, n.Wire(a, b)[0], d);
    var p := PairOf(n, a, b);
    assert PairOk(p, a, b);
    var was := ResponderSignal(n.peers[b], a, n.Wire(a, b)[0], d);
    LessTotal(a, b);
    DeliverEffect(n, a, b, d, b, a);
    DeliverEffect(n, a, b, d, a, b);
    ResponderReads(p, a, b, ChanIn(m, a), was, out);
  }

  lemma DeliverKeeps(n: Net, a: PeerId, b: PeerId, d: Draw, i: PeerId, r: PeerId)
    requires Inv(n) && Less(i, r) && b in n.peers && n.Wire(a, b) != []
    ensures PairOk(PairOf(Step(n, Deliver(a, b, d)), i, r), i, r)
  {
    LessTotal(a, b);
    if Less(b, a) { DeliverToInitiator(n, a, b, d); } else { DeliverToResponder(n, a, b, d); }
    DeliverEffect(n, a, b, d, i, r);
    DeliverEffect(n, a, b, d, r, i);
    assert PairOk(PairOf(n, i, r), i, r);
    if (i, r) != (a, b) && (i, r) != (b, a) {
      assert PairOf(Step(n, Deliver(a, b, d)), i, r) == PairOf(n, i, r);
    }
  }

  /** A frame for someone else is nobody's business: it changes no channel and draws no answer. */
  lemma OverhearsNothing(n: Net, e: Event)
    requires e.Overhear? && (forall a :: a in n.peers ==> n.peers[a].selfId == a)
    ensures Step(n, e) == n
  {
    if e.b in n.peers { assert n.peers[e.b := n.peers[e.b]] == n.peers; }
  }

  /** Identities never change, and nobody writes to itself. */
  lemma StepBasics(n: Net, e: Event)
    requires Inv(n)
    ensures forall a :: a in Step(n, e).peers ==> Step(n, e).peers[a].selfId == a
    ensures forall a :: Step(n, e).Wire(a, a) == []
  {
    match e {
      case Ensure(a, b, d) =>
        if a in n.peers {
          EnsureEffect(n.peers[a], b, d);
          var (m, out) := EnsureChannel(n.peers[a], b, d);
          forall x ensures Step(n, e).Wire(x, x) == [] { ActLocal(n, a, m, b, out, x, x); }
        }
      case Remove(a, b) =>
        forall x ensures Step(n, e).Wire(x, x) == [] { assert n.Wire(x, x) == []; }
      case Reload(a, k) =>
        forall x ensures Step(n, e).Wire(x, x) == [] { assert n.Wire(x, x) == []; }
      case Deliver(a, b, d) =>
        if b in n.peers && n.Wire(a, b) != [] {
          LessTotal(a, b);
          forall x ensures Step(n, e).Wire(x, x) == [] { DeliverEffect(n, a, b, d, x, x); }
        }
      case Overhear(_, _, _, _, _, _) => OverhearsNothing(n, e);
    }
  }

  lemma StepInv(n: Net, e: Event)
    requires Inv(n)
    ensures Inv(Step(n, e))
  {
    StepBasics(n, e);
    forall i, r | Less(i, r) ensures PairOk(PairOf(Step(n, e), i, r), i, r) {
      assert PairOk(PairOf(n, i, r), i, r);
      match e {
        case Ensure(a, b, d) => if a in n.peers { EnsureKeeps(n, a, b, d, i, r); }
        case Remove(a, b) => if a in n.peers { RemoveKeeps(n, a, b, i, r); }
        case Reload(a, k) => if a in n.peers { ReloadKeeps(n, a, k, i, r); }
        case Deliver(a, b, d) => if b in n.peers && n.Wire(a, b) != [] { DeliverKeeps(n, a, b, d, i, r); }
        case Overhear(_, _, _, _, _, _) => OverhearsNothing(n, e);
      }
    }
  }

  lemma {:induction false} RunInv(n: Net, es: seq<Event>)
    requires Start(n)
    ensures Inv(Run(n, es))
  {
    if es != [] {
      RunInv(n, es[..|es| - 1]);
      StepInv(Run(n, es[..|es| - 1]), es[|es| - 1]);
    }
  }

  /** The run without the frames clients heard that were meant for others. */
  function Unheard(es: seq<Event>): seq<Event> {
    if es == [] then []
    else Unheard(es[..|es| - 1]) + (if es[|es| - 1].Overhear? then [] else [es[|es| - 1]])
  }

  /** Whatever the relay hands to whom besides the addressees, the run ends where it would have ended without it. */
  lemma {:induction false} OverhearingChangesNothing(n: Net, es: seq<Event>)
    requires Start(n)
    ensures Run(n, es) == Run(n, Unheard(es))
  {
    if es != [] {
      var front, e := es[..|es| - 1], es[|es| - 1];
      OverhearingChangesNothing(n, front);
      if e.Overhear? {
        RunInv(n, front);
        OverhearsNothing(Run(n, front), e);
        assert Unheard(front) + [] == Unheard(front);
      } else {
        assert (Unheard(front) + [e])[..|Unheard(front)|] == Unheard(front);
      }
    }
  }

  /**
   Handshake agreement. After any events at all, if both sides of a pair are
   ready and no frame is in flight from the initiator, they mirror each other:
   one hybrid root, opposite roles, swapped ratchet keys, equal safety numbers,
   and each holding the other's static key.
   */
  lemma Agreement(n: Net, es: seq<Event>, i: PeerId, r: PeerId)
    requires Start(n) && Less(i, r)
    requires var p := PairOf(Run(n, es), i, r);
             IsPhase(p.ci, Ready) && IsPhase(p.cr, Ready) && p.toR == []
    ensures var p := PairOf(Run(n, es), i, r); Mirrors(p.ci.value, p.cr.value)
  {
    RunInv(n, es);
    assert PairOk(PairOf(Run(n, es), i, r), i, r);
  }
}
