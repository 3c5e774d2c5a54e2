/**
 Whole conversations. Two parties share a session root; they send whenever they
 like; the network belongs to the adversary, who may deliver any genuine frame
 to either side, any number of times, in any order or never, and may deliver
 frames of its own making. What it cannot do is seal under a key that comes
 out of the session root, because it does not hold that root.
 */
module RatchetRun {
  import opened Common
  import opened OrderedMap
  import opened Symbolic
  import opened DoubleRatchet
  import opened RatchetLadder
  import opened RatchetReceive

  datatype Party = Alice | Bob

  function Peer(p: Party): Party { if p == Alice then Bob else Alice }

  datatype Sent = Sent(from: Party, slot: Slot, plain: Bytes)
  datatype Receipt = Receipt(to: Party, slot: Slot, plain: Bytes)

  /** `used` holds every key pair generated so far; `log` and `receipts` record what happened. */
  datatype World = World(root: Secret, alice: State, bob: State, used: set<KeyId>, log: seq<Sent>, receipts: seq<Receipt>) {

    function Of(p: Party): State { if p == Alice then alice else bob }

    function With(p: Party, st: State): World {
      if p == Alice then this.(alice := st) else this.(bob := st)
    }
  }

  datatype Event =
    | Send(who: Party, plain: Bytes, kp: KeyId)
    | Deliver(to: Party, slot: Slot, kp: KeyId)

  function Start(root: Secret, alice: KeyId, bob: KeyId): World {
    World(root, InitAlice(root, alice, bob), InitBob(root, bob, alice), {alice, bob}, [], [])
  }

  function Step(w: World, e: Event): World {
    match e
    case Send(p, plain, kp) =>
      var (st, slot) := Encrypt(w.Of(p), plain, kp);
      w.With(p, st).(used := w.used + {kp}, log := w.log + [Sent(p, slot, plain)])
    case Deliver(p, slot, kp) =>
      var (st, res) := Decrypt(w.Of(p), slot, kp);
      w.With(p, st).(used := w.used + {kp},
                     receipts := if res.Ok? then w.receipts + [Receipt(p, slot, res.value)] else w.receipts)
  }

  /** A frame the adversary can put on the wire. */
  ghost predicate Deliverable(w: World, slot: Slot) {
    (slot.Slot? && slot.ct.Sealed? && Derived(slot.ct.key, w.root)) ==>
      exists i :: 0 <= i < |w.log| && w.log[i].slot.Slot? && w.log[i].slot.ct == slot.ct
  }

  ghost predicate Allowed(w: World, e: Event) {
    && e.kp !in w.used
    && (e.Deliver? ==> Deliverable(w, e.slot))
  }

  function Run(w: World, es: seq<Event>): World
    decreases |es|
  {
    if es == [] then w else Run(Step(w, es[0]), es[1..])
  }

  ghost predicate AllowedRun(w: World, es: seq<Event>)
    decreases |es|
  {
    es == [] || (Allowed(w, es[0]) && AllowedRun(Step(w, es[0]), es[1..]))
  }

  // ----- the invariant -------------------------------------------------------------------

  /** The ladder of a conversation, and the rung on which each logged or opened frame was sealed. */
  datatype History = History(l: Ladder, sentOn: seq<nat>, readOn: seq<nat>)

  /** The owner of the top rung leads; the other party sends one rung below. */
  predicate Leads(l: Ladder, p: Party) { (|l.keys| % 2 == 0) == (p == Alice) }

  function SendRung(l: Ladder, p: Party): nat
    requires |l.keys| >= 2
  {
    if Leads(l, p) then |l.keys| - 1 else |l.keys| - 2
  }

  function RecvRung(l: Ladder, p: Party): nat
    requires |l.keys| >= 2
  {
    if Leads(l, p) then |l.keys| - 2 else if |l.keys| == 2 then 1 else |l.keys| - 3
  }

  ghost predicate Place(l: Ladder, w: World, p: Party) {
    l.Valid() && InStep(l, w.Of(p), SendRung(l, p), RecvRung(l, p))
  }

  /** `slot` is message `slot.h.n` of rung `c`, and has been sent. */
  ghost predicate OnRung(l: Ladder, c: nat, slot: Slot, plain: Bytes) {
    && l.Valid() && slot.Slot? && 0 < c < |l.keys|
    && 0 <= slot.h.n < l.counts[c]
    && slot == Frame(l, c, slot.h.n, plain)
  }

  ghost predicate LogOk(h: History, log: seq<Sent>) {
    && |h.sentOn| == |log|
    && (forall i :: 0 <= i < |log| ==>
          && OnRung(h.l, h.sentOn[i], log[i].slot, log[i].plain)
          && (h.sentOn[i] % 2 == 1 <==> log[i].from == Alice))
    && (forall i, j :: 0 <= i < j < |log| ==>
          h.sentOn[i] != h.sentOn[j] || log[i].slot.h.n != log[j].slot.h.n)
  }

  /** Every message below a rung's count is in the log. */
  ghost predicate LogFull(h: History, log: seq<Sent>)
    requires LogOk(h, log) && h.l.Valid()
  {
    forall c, n :: 0 < c < |h.l.keys| && 0 <= n < h.l.counts[c] ==> Logged(h, log, c, n)
  }

  ghost predicate Logged(h: History, log: seq<Sent>, c: nat, n: nat)
    requires LogOk(h, log)
  {
    exists i :: 0 <= i < |log| && h.sentOn[i] == c && log[i].slot.h.n == n
  }

  ghost predicate ReceiptsOk(h: History, w: World) {
    && |h.readOn| == |w.receipts| && |h.l.keys| >= 2
    && (forall i :: 0 <= i < |w.receipts| ==>
          && OnRung(h.l, h.readOn[i], w.receipts[i].slot, w.receipts[i].plain)
          && (h.readOn[i] % 2 == 1 <==> w.receipts[i].to == Bob)
          && Consumed(h.l, w.Of(w.receipts[i].to), RecvRung(h.l, w.receipts[i].to), h.readOn[i], w.receipts[i].slot.h.n)
          && Sent(Peer(w.receipts[i].to), w.receipts[i].slot, w.receipts[i].plain) in w.log)
    && (forall i, j :: 0 <= i < j < |w.receipts| ==>
          h.readOn[i] != h.readOn[j] || w.receipts[i].slot.h.n != w.receipts[j].slot.h.n)
  }

  ghost predicate Inv(h: History, w: World) {
    && h.l.Valid() && h.l.root == w.root
    && (forall k :: k in h.l.keys ==> k in w.used)
    && (forall p: Party :: Place(h.l, w, p))
    && LogOk(h, w.log) && LogFull(h, w.log) && ReceiptsOk(h, w)
  }

  // ----- sending -------------------------------------------------------------------------

  /** The ladder after one more message was sealed on rung `s`. */
  function Count(l: Ladder, s: nat): Ladder
    requires s < |l.counts|
  {
    l.(counts := l.counts[s := l.counts[s] + 1])
  }

  lemma CountGrows(l: Ladder, s: nat)
    requires l.Valid() && 0 < s < |l.keys|
    ensures Grows(l, Count(l, s), s + 1)
  {
  }

  lemma EncryptOnRung(l: Ladder, st: State, s: nat, r: nat, plain: Bytes, kp: KeyId)
    requires InStep(l, st, s, r) && s > 0
    ensures var (st2, slot) := Encrypt(st, plain, kp);
            && InStep(Count(l, s), st2, s, r)
            && slot == Frame(l, s, l.counts[s], plain)
            && (forall c, n :: Consumed(l, st, r, c, n) ==> Consumed(Count(l, s), st2, r, c, n))
  {
    var l2, st2 := Count(l, s), Encrypt(st, plain, kp).0;
    CountGrows(l, s);
    RootStable(l, l2, s);
    RootStable(l, l2, r);
    StoreStable(l, l2, r, st.nr, st.skipped, s + 1);
  }

  /** The responder sends first: it opens rung 2 on its own. */
  lemma EncryptBootstrap(l: Ladder, st: State, plain: Bytes, kp: KeyId)
    requires InStep(l, st, 0, 1) && |l.keys| == 2 && kp !in l.keys
    ensures InStep(Climb(l, kp), Bootstrap(st, kp), 2, 1)
    ensures Encrypt(st, plain, kp) == Encrypt(Bootstrap(st, kp), plain, kp)
    ensures forall c, n :: Consumed(l, st, 1, c, n) ==> Consumed(Climb(l, kp), Bootstrap(st, kp), 1, c, n)
  {
    var l2 := Climb(l, kp);
    ClimbGrows(l, kp, 0);
    RootStable(l, l2, 1);
    assert l2.RK(2) == Kdf1(l2.RK(1), SharedKey(l2.keys[1], l2.keys[2]));
    StoreStable(l, l2, 1, st.nr, st.skipped, 0);
  }

  // ----- one party moves -----------------------------------------------------------------

  /** A later ladder on which every frame already sent keeps its header and key. */
  ghost predicate Preserves(l: Ladder, l2: Ladder) {
    && l.Valid() && l2.Valid() && l.root == l2.root && |l.keys| <= |l2.keys|
    && (forall i :: 0 <= i < |l.keys| ==> l.keys[i] == l2.keys[i])
    && (forall i :: 0 <= i < |l.keys| ==> l.counts[i] <= l2.counts[i])
    && (forall i :: 0 <= i < |l.keys| - 2 ==> l.counts[i] == l2.counts[i])
  }

  lemma OnRungStable(l: Ladder, l2: Ladder, c: nat, slot: Slot, plain: Bytes)
    requires Preserves(l, l2) && OnRung(l, c, slot, plain)
    ensures OnRung(l2, c, slot, plain)
  {
    RootStable(l, l2, c);
  }

  lemma LogStable(h: History, log: seq<Sent>, l2: Ladder)
    requires h.l.Valid() && LogOk(h, log) && Preserves(h.l, l2)
    ensures LogOk(h.(l := l2), log)
  {
    forall i | 0 <= i < |log|
      ensures OnRung(l2, h.sentOn[i], log[i].slot, log[i].plain)
    {
      OnRungStable(h.l, l2, h.sentOn[i], log[i].slot, log[i].plain);
    }
  }

  /** What every move of party `p` has in common. */
  ghost predicate Move(h: History, w: World, p: Party, l2: Ladder, st2: State) {
    && Inv(h, w) && Preserves(h.l, l2)
    && Grows(h.l, l2, SendRung(h.l, Peer(p)))
    && InStep(l2, st2, SendRung(l2, p), RecvRung(l2, p))
    && SendRung(l2, Peer(p)) == SendRung(h.l, Peer(p)) && RecvRung(l2, Peer(p)) == RecvRung(h.l, Peer(p))
    && StaysConsumed(h.l, w.Of(p), RecvRung(h.l, p), l2, st2, RecvRung(l2, p))
  }

  lemma MoveKeepsReceipts(h: History, w: World, p: Party, l2: Ladder, st2: State)
    requires Move(h, w, p, l2, st2)
    ensures ReceiptsOk(h.(l := l2), w.With(p, st2))
  {
    forall i | 0 <= i < |w.receipts|
      ensures OnRung(l2, h.readOn[i], w.receipts[i].slot, w.receipts[i].plain)
      ensures Consumed(l2, w.With(p, st2).Of(w.receipts[i].to), RecvRung(l2, w.receipts[i].to),
                       h.readOn[i], w.receipts[i].slot.h.n)
    {
      OnRungStable(h.l, l2, h.readOn[i], w.receipts[i].slot, w.receipts[i].plain);
      if w.receipts[i].to == p {
        assert Consumed(h.l, w.Of(p), RecvRung(h.l, p), h.readOn[i], w.receipts[i].slot.h.n);
      }
    }
  }

  lemma PlaceSame(l: Ladder, w: World, w2: World)
    requires forall p: Party :: Place(l, w, p)
    requires w2.alice == w.alice && w2.bob == w.bob
    ensures forall p: Party :: Place(l, w2, p)
  {
    forall p: Party ensures Place(l, w2, p) {
      assert Place(l, w, p);
      assert w2.Of(p) == w.Of(p);
    }
  }

  lemma MoveKeepsPlaces(h: History, w: World, p: Party, l2: Ladder, st2: State)
    requires Move(h, w, p, l2, st2)
    ensures forall q: Party :: Place(l2, w.With(p, st2), q)
    ensures LogOk(h.(l := l2), w.log)
  {
    var q := Peer(p);
    assert Place(h.l, w, q);
    InStepStable(h.l, l2, w.Of(q), SendRung(h.l, q), RecvRung(h.l, q));
    LogStable(h, w.log, l2);
  }

  lemma CountPreserves(l: Ladder, p: Party)
    requires l.Valid() && SendRung(l, p) > 0
    ensures var l2 := Count(l, SendRung(l, p));
            && Preserves(l, l2) && Grows(l, l2, SendRung(l, Peer(p)))
            && SendRung(l2, Alice) == SendRung(l, Alice) && RecvRung(l2, Alice) == RecvRung(l, Alice)
            && SendRung(l2, Bob) == SendRung(l, Bob) && RecvRung(l2, Bob) == RecvRung(l, Bob)
  {
  }

  lemma SendIsMove(h: History, w: World, p: Party, plain: Bytes, kp: KeyId)
    requires Inv(h, w) && SendRung(h.l, p) > 0
    ensures var s, (st2, slot) := SendRung(h.l, p), Encrypt(w.Of(p), plain, kp);
            && Move(h, w, p, Count(h.l, s), st2)
            && slot == Frame(h.l, s, h.l.counts[s], plain)
  {
    assert Place(h.l, w, p);
    SendMoves(h.l, w.Of(p), p, plain, kp);
  }

  lemma SendMoves(l: Ladder, st: State, p: Party, plain: Bytes, kp: KeyId)
    requires |l.keys| >= 2 && InStep(l, st, SendRung(l, p), RecvRung(l, p)) && SendRung(l, p) > 0
    ensures var s, (st2, slot) := SendRung(l, p), Encrypt(st, plain, kp);
            var l2 := Count(l, s);
            && Preserves(l, l2) && Grows(l, l2, SendRung(l, Peer(p)))
            && SendRung(l2, Alice) == SendRung(l, Alice) && RecvRung(l2, Alice) == RecvRung(l, Alice)
            && SendRung(l2, Bob) == SendRung(l, Bob) && RecvRung(l2, Bob) == RecvRung(l, Bob)
            && InStep(l2, st2, s, RecvRung(l, p))
            && StaysConsumed(l, st, RecvRung(l, p), l2, st2, RecvRung(l, p))
            && slot == Frame(l, s, l.counts[s], plain)
  {
    EncryptOnRung(l, st, SendRung(l, p), RecvRung(l, p), plain, kp);
    CountPreserves(l, p);
  }

  lemma ReceiptsGrow(h: History, w: World, e: Sent, used: set<KeyId>, on: seq<nat>)
    requires ReceiptsOk(h, w)
    ensures ReceiptsOk(h.(sentOn := on), w.(used := used, log := w.log + [e]))
  {
    var h2, w2 := h.(sentOn := on), w.(used := used, log := w.log + [e]);
    forall i | 0 <= i < |w.receipts|
      ensures Sent(Peer(w.receipts[i].to), w.receipts[i].slot, w.receipts[i].plain) in w2.log
    {
      assert Sent(Peer(w.receipts[i].to), w.receipts[i].slot, w.receipts[i].plain) in w.log;
    }
  }

  /** A move of `p` followed by a new log entry of its own. */
  lemma MoveThenLog(h: History, w: World, p: Party, s: nat, st2: State, e: Sent, used: set<KeyId>)
    requires s < |h.l.counts| && Move(h, w, p, Count(h.l, s), st2)
    requires h.l.Valid() && s == SendRung(h.l, p) && s > 0
    requires OnRung(Count(h.l, s), s, e.slot, e.plain) && e.slot.h.n == h.l.counts[s] && e.from == p
    requires w.used <= used
    ensures Inv(History(Count(h.l, s), h.sentOn + [s], h.readOn), w.With(p, st2).(used := used, log := w.log + [e]))
  {
    MoveKeepsPlaces(h, w, p, Count(h.l, s), st2);
    MoveKeepsReceipts(h, w, p, Count(h.l, s), st2);
    PlaceSame(Count(h.l, s), w.With(p, st2), w.With(p, st2).(used := used, log := w.log + [e]));
    AppendLog(h, w.log, s, e);
    ReceiptsGrow(h.(l := Count(h.l, s)), w.With(p, st2), e, used, h.sentOn + [s]);
  }

  /** The ladder only ever gets new rungs on top. */
  predicate Extends(l: Ladder, l2: Ladder) { l.root == l2.root && l.keys <= l2.keys }

  lemma SendOnRung(h: History, w: World, p: Party, plain: Bytes, kp: KeyId) returns (h2: History)
    requires Inv(h, w) && SendRung(h.l, p) > 0
    ensures Inv(h2, Step(w, Send(p, plain, kp))) && Extends(h.l, h2.l)
  {
    SendIsMove(h, w, p, plain, kp);
    FrameStable(h.l, SendRung(h.l, p), plain);
    var s := SendRung(h.l, p);
    var (st2, slot) := Encrypt(w.Of(p), plain, kp);
    MoveThenLog(h, w, p, s, st2, Sent(p, slot, plain), w.used + {kp});
    h2 := History(Count(h.l, s), h.sentOn + [s], h.readOn);
  }

  lemma FrameStable(l: Ladder, s: nat, plain: Bytes)
    requires l.Valid() && 0 < s < |l.keys|
    ensures OnRung(Count(l, s), s, Frame(l, s, l.counts[s], plain), plain)
  {
    CountGrows(l, s);
    RootStable(l, Count(l, s), s);
  }

  /** The log after one more message was sealed on rung `s`. */
  lemma AppendLog(h: History, log: seq<Sent>, s: nat, e: Sent)
    requires h.l.Valid() && 0 < s < |h.l.keys| && LogOk(h, log) && LogFull(h, log)
    requires LogOk(h.(l := Count(h.l, s)), log)
    requires OnRung(Count(h.l, s), s, e.slot, e.plain) && e.slot.h.n == h.l.counts[s]
    requires s % 2 == 1 <==> e.from == Alice
    ensures var h2, log2 := History(Count(h.l, s), h.sentOn + [s], h.readOn), log + [e];
            LogOk(h2, log2) && LogFull(h2, log2)
  {
    var h2, log2 := History(Count(h.l, s), h.sentOn + [s], h.readOn), log + [e];
    assert LogOk(h2, log2);
    forall c, n | 0 < c < |h2.l.keys| && 0 <= n < h2.l.counts[c]
      ensures Logged(h2, log2, c, n)
    {
      if n < h.l.counts[c] {
        assert Logged(h, log, c, n);
        var i :| 0 <= i < |log| && h.sentOn[i] == c && log[i].slot.h.n == n;
        assert h2.sentOn[i] == c && log2[i].slot.h.n == n;
      } else {
        assert h2.sentOn[|log|] == c && log2[|log|].slot.h.n == n;
      }
    }
  }

  /** A move of `p` after which no message is newly sent. */
  lemma MoveQuietly(h: History, w: World, p: Party, l2: Ladder, st2: State, used: set<KeyId>)
    requires Move(h, w, p, l2, st2)
    requires forall i :: 0 <= i < |h.l.keys| ==> l2.counts[i] == h.l.counts[i]
    requires forall i :: |h.l.keys| <= i < |l2.keys| ==> l2.counts[i] == 0
    requires forall k :: k in l2.keys ==> k in used
    ensures Inv(h.(l := l2), w.With(p, st2).(used := used))
  {
    MoveKeepsPlaces(h, w, p, l2, st2);
    MoveKeepsReceipts(h, w, p, l2, st2);
    PlaceSame(l2, w.With(p, st2), w.With(p, st2).(used := used));
    forall c, n | 0 < c < |l2.keys| && 0 <= n < l2.counts[c]
      ensures Logged(h.(l := l2), w.log, c, n)
    {
      assert Logged(h, w.log, c, n);
    }
  }

  lemma ClimbPreserves(l: Ladder, p: Party, kp: KeyId)
    requires l.Valid() && kp !in l.keys && !Leads(l, p)
    ensures var l2 := Climb(l, kp);
            && Preserves(l, l2) && Grows(l, l2, SendRung(l, Peer(p)))
            && SendRung(l2, Peer(p)) == SendRung(l, Peer(p)) && RecvRung(l2, Peer(p)) == RecvRung(l, Peer(p))
            && SendRung(l2, p) == |l.keys| && RecvRung(l2, p) == |l.keys| - 1
  {
  }

  lemma BootstrapStep(h: History, w: World, p: Party, kp: KeyId)
    requires Inv(h, w) && SendRung(h.l, p) == 0 && kp !in w.used
    ensures Inv(h.(l := Climb(h.l, kp)), w.With(p, Bootstrap(w.Of(p), kp)).(used := w.used + {kp}))
    ensures SendRung(Climb(h.l, kp), p) > 0
  {
    assert Place(h.l, w, p);
    EncryptBootstrap(h.l, w.Of(p), [], kp);
    ClimbPreserves(h.l, p, kp);
    MoveQuietly(h, w, p, Climb(h.l, kp), Bootstrap(w.Of(p), kp), w.used + {kp});
  }

  lemma SendStep(h: History, w: World, p: Party, plain: Bytes, kp: KeyId) returns (h2: History)
    requires Inv(h, w) && kp !in w.used
    ensures Inv(h2, Step(w, Send(p, plain, kp))) && Extends(h.l, h2.l)
  {
    if SendRung(h.l, p) > 0 {
      h2 := SendOnRung(h, w, p, plain, kp);
    } else {
      BootstrapStep(h, w, p, kp);
      var w1 := w.With(p, Bootstrap(w.Of(p), kp)).(used := w.used + {kp});
      h2 := SendOnRung(h.(l := Climb(h.l, kp)), w1, p, plain, kp);
      assert Bootstrap(Bootstrap(w.Of(p), kp), kp) == Bootstrap(w.Of(p), kp);
      assert w1.used + {kp} == w.used + {kp};
      assert Step(w1, Send(p, plain, kp)) == Step(w, Send(p, plain, kp));
    }
  }
}
