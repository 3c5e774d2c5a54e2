/** What the Double Ratchet guarantees over every conversation and every adversary. */
module RatchetTheorems {
  import opened Common
  import opened OrderedMap
  import opened Symbolic
  import opened DoubleRatchet
  import opened RatchetLadder
  import opened RatchetReceive
  import opened RatchetAuthentic
  import opened RatchetRun

  // ----- one delivery --------------------------------------------------------------------

  /** A frame that opens with a genuine box in it is that genuine frame, and was within reach. */
  lemma GenuineBox(l: Ladder, st: State, s: nat, r: nat, c: nat, slot: Slot, sent: Slot, plain: Bytes, kp: KeyId)
    requires InStep(l, st, s, r) && NearTop(l, s)
    requires Decrypt(st, slot, kp).1.Ok? && OnRung(l, c, sent, plain)
    requires slot.Slot? && slot.ct == sent.ct
    ensures slot == sent && Decrypt(st, slot, kp).1 == Ok(plain)
    ensures Reachable(l, st, r, c, sent.h.n)
  {
    OpenedKey(st, slot, kp);
    OpensOnlyIfReachable(l, st, s, r, c, sent.h.n, plain, kp);
  }

  lemma GenuineBoxAt(h: History, w: World, p: Party, i: nat, slot: Slot, kp: KeyId)
    requires Inv(h, w) && Decrypt(w.Of(p), slot, kp).1.Ok?
    requires i < |w.log| && slot.Slot? && slot.ct == w.log[i].slot.ct
    ensures slot == w.log[i].slot && Decrypt(w.Of(p), slot, kp).1 == Ok(w.log[i].plain)
    ensures OnRung(h.l, h.sentOn[i], slot, w.log[i].plain)
    ensures Reachable(h.l, w.Of(p), RecvRung(h.l, p), h.sentOn[i], slot.h.n)
  {
    assert Place(h.l, w, p);
    GenuineBox(h.l, w.Of(p), SendRung(h.l, p), RecvRung(h.l, p), h.sentOn[i], slot, w.log[i].slot, w.log[i].plain, kp);
  }

  /** A deliverable frame that opens is, header and all, one its peer sent. */
  lemma GenuineEntry(h: History, w: World, p: Party, slot: Slot, kp: KeyId) returns (i: nat)
    requires Inv(h, w) && Deliverable(w, slot) && Decrypt(w.Of(p), slot, kp).1.Ok?
    ensures i < |w.log| && w.log[i].slot == slot && w.log[i].from == Peer(p)
    ensures Decrypt(w.Of(p), slot, kp).1 == Ok(w.log[i].plain)
    ensures OnRung(h.l, h.sentOn[i], slot, w.log[i].plain)
    ensures Reachable(h.l, w.Of(p), RecvRung(h.l, p), h.sentOn[i], slot.h.n)
  {
    assert Place(h.l, w, p);
    OpenedDerived(h.l, w.Of(p), SendRung(h.l, p), RecvRung(h.l, p), slot, kp);
    i :| 0 <= i < |w.log| && w.log[i].slot.Slot? && w.log[i].slot.ct == slot.ct;
    GenuineBoxAt(h, w, p, i, slot, kp);
    RungParity(h.l, p);
  }

  /** Alice owns the odd rungs, so she receives on even ones. */
  lemma RungParity(l: Ladder, p: Party)
    requires |l.keys| >= 2
    ensures RecvRung(l, p) % 2 == 1 <==> Peer(p) == Alice
    ensures SendRung(l, p) % 2 == 1 <==> p == Alice
  {
  }

  /** A rung two above the one a party receives on is the top one, and its peer's. */
  lemma NextRungIsTop(l: Ladder, p: Party, c: nat)
    requires l.Valid() && c == RecvRung(l, p) + 2 && c < |l.keys|
    ensures !Leads(l, p) && |l.keys| == RecvRung(l, p) + 3 && SendRung(l, p) == RecvRung(l, p) + 1
  {
  }

  /** What opening a reachable frame does to the ladder and to the receiver's place on it. */
  ghost predicate OpensTo(l: Ladder, st: State, p: Party, c: nat, n: nat, l2: Ladder, st2: State) {
    && Preserves(l, l2) && Grows(l, l2, SendRung(l, Peer(p)))
    && InStep(l2, st2, SendRung(l2, p), RecvRung(l2, p))
    && SendRung(l2, Peer(p)) == SendRung(l, Peer(p)) && RecvRung(l2, Peer(p)) == RecvRung(l, Peer(p))
    && StaysConsumed(l, st, RecvRung(l, p), l2, st2, RecvRung(l2, p))
    && Consumed(l2, st2, RecvRung(l2, p), c, n)
  }

  lemma OpenSameRung(l: Ladder, st: State, p: Party, c: nat, n: nat, plain: Bytes, kp: KeyId)
    requires l.Valid() && InStep(l, st, SendRung(l, p), RecvRung(l, p))
    requires 0 < c < |l.keys| && n < l.counts[c] && c != RecvRung(l, p) + 2
    requires Reachable(l, st, RecvRung(l, p), c, n)
    ensures var (st2, res) := Decrypt(st, Frame(l, c, n, plain), kp);
            res == Ok(plain) && OpensTo(l, st, p, c, n, l, st2)
  {
    if (l.keys[c], n) in st.skipped.vals {
      OpenStored(l, st, SendRung(l, p), RecvRung(l, p), c, n, plain, kp);
    } else {
      OpenCurrent(l, st, SendRung(l, p), c, n, plain, kp);
    }
  }

  lemma OpenNextRung(l: Ladder, st: State, p: Party, c: nat, n: nat, plain: Bytes, kp: KeyId)
    requires l.Valid() && InStep(l, st, SendRung(l, p), RecvRung(l, p)) && kp !in l.keys
    requires c == RecvRung(l, p) + 2 && c < |l.keys| && n < l.counts[c]
    requires Reachable(l, st, RecvRung(l, p), c, n)
    ensures var (st2, res) := Decrypt(st, Frame(l, c, n, plain), kp);
            res == Ok(plain) && OpensTo(l, st, p, c, n, Climb(l, kp), st2)
  {
    NextRungIsTop(l, p, c);
    NotStoredBeyond(l, RecvRung(l, p), st.nr, st.skipped, c, n);
    OpenNext(l, st, RecvRung(l, p), n, plain, kp);
    ClimbPreserves(l, p, kp);
  }

  /** Opening a reachable frame is a move of the receiver, and uses the message up. */
  lemma OpenIsMove(h: History, w: World, p: Party, c: nat, n: nat, plain: Bytes, kp: KeyId) returns (l2: Ladder)
    requires Inv(h, w) && kp !in w.used
    requires 0 < c < |h.l.keys| && n < h.l.counts[c]
    requires Reachable(h.l, w.Of(p), RecvRung(h.l, p), c, n)
    ensures l2 == h.l || l2 == Climb(h.l, kp)
    ensures var st2 := Decrypt(w.Of(p), Frame(h.l, c, n, plain), kp).0;
            Move(h, w, p, l2, st2) && Consumed(l2, st2, RecvRung(l2, p), c, n)
    ensures Decrypt(w.Of(p), Frame(h.l, c, n, plain), kp).1 == Ok(plain)
  {
    assert Place(h.l, w, p);
    if c == RecvRung(h.l, p) + 2 {
      l2 := Climb(h.l, kp);
      OpenNextRung(h.l, w.Of(p), p, c, n, plain, kp);
    } else {
      l2 := h.l;
      OpenSameRung(h.l, w.Of(p), p, c, n, plain, kp);
    }
  }

  lemma AddReceipt(h: History, w: World, c: nat, e: Receipt)
    requires Inv(h, w) && OnRung(h.l, c, e.slot, e.plain)
    requires c % 2 == 1 <==> e.to == Bob
    requires Consumed(h.l, w.Of(e.to), RecvRung(h.l, e.to), c, e.slot.h.n)
    requires Sent(Peer(e.to), e.slot, e.plain) in w.log
    requires forall i :: 0 <= i < |w.receipts| ==> h.readOn[i] != c || w.receipts[i].slot.h.n != e.slot.h.n
    ensures Inv(h.(readOn := h.readOn + [c]), w.(receipts := w.receipts + [e]))
  {
    PlaceSame(h.l, w, w.(receipts := w.receipts + [e]));
    var h2 := h.(readOn := h.readOn + [c]);
    forall d, n | 0 < d < |h.l.keys| && 0 <= n < h.l.counts[d] ensures Logged(h2, w.log, d, n) {
      assert Logged(h, w.log, d, n);
    }
  }

  /** No earlier receipt is for a message that can still be reached. */
  lemma ReachableUnread(h: History, w: World, p: Party, c: nat, n: nat)
    requires Inv(h, w) && 0 < c < |h.l.keys|
    requires Reachable(h.l, w.Of(p), RecvRung(h.l, p), c, n)
    ensures forall i :: 0 <= i < |w.receipts| ==> h.readOn[i] != c || w.receipts[i].slot.h.n != n
  {
    assert Place(h.l, w, p);
    forall i | 0 <= i < |w.receipts| && h.readOn[i] == c
      ensures w.receipts[i].slot.h.n != n
    {
      if w.receipts[i].slot.h.n == n {
        ConsumedUnreachable(h.l, w.Of(p), SendRung(h.l, p), RecvRung(h.l, p), c, n);
        assert false;
      }
    }
  }

  lemma DeliverStep(h: History, w: World, p: Party, slot: Slot, kp: KeyId) returns (h2: History)
    requires Inv(h, w) && kp !in w.used && Deliverable(w, slot)
    ensures Inv(h2, Step(w, Deliver(p, slot, kp))) && Extends(h.l, h2.l)
  {
    if Decrypt(w.Of(p), slot, kp).1.Err? {
      var w2 := Step(w, Deliver(p, slot, kp));
      assert w2 == w.(used := w.used + {kp});
      PlaceSame(h.l, w, w2);
      h2 := h;
    } else {
      var i := GenuineEntry(h, w, p, slot, kp);
      h2 := OpenedStep(h, w, p, i, kp);
    }
  }

  /** The delivery of a frame that opens, the one logged at `i`. */
  lemma OpenedStep(h: History, w: World, p: Party, i: nat, kp: KeyId) returns (h2: History)
    requires Inv(h, w) && kp !in w.used && i < |w.log| && w.log[i].from == Peer(p)
    requires Decrypt(w.Of(p), w.log[i].slot, kp).1.Ok?
    requires Reachable(h.l, w.Of(p), RecvRung(h.l, p), h.sentOn[i], w.log[i].slot.h.n)
    ensures Inv(h2, Step(w, Deliver(p, w.log[i].slot, kp))) && Extends(h.l, h2.l)
  {
    var slot, plain, c := w.log[i].slot, w.log[i].plain, h.sentOn[i];
    var st2 := Decrypt(w.Of(p), slot, kp).0;
    ReachableUnread(h, w, p, c, slot.h.n);
    var l2 := OpenIsMove(h, w, p, c, slot.h.n, plain, kp);
    MoveQuietly(h, w, p, l2, st2, w.used + {kp});
    OnRungStable(h.l, l2, c, slot, plain);
    var h1, w1 := h.(l := l2), w.With(p, st2).(used := w.used + {kp});
    assert Sent(Peer(p), slot, plain) in w1.log;
    AddReceipt(h1, w1, c, Receipt(p, slot, plain));
    h2 := h1.(readOn := h1.readOn + [c]);
    assert Step(w, Deliver(p, slot, kp)) == w1.(receipts := w1.receipts + [Receipt(p, slot, plain)]);
  }

  lemma StartInv(root: Secret, alice: KeyId, bob: KeyId) returns (h: History)
    requires alice != bob
    ensures Inv(h, Start(root, alice, bob))
  {
    h := History(InitialLadder(root, alice, bob), [], []);
    InitInStep(root, alice, bob);
    var w := Start(root, alice, bob);
    forall p: Party ensures Place(h.l, w, p) { }
  }

  lemma {:induction false} RunInv(w: World, es: seq<Event>, h: History) returns (h2: History)
    requires Inv(h, w) && AllowedRun(w, es)
    ensures Inv(h2, Run(w, es)) && Extends(h.l, h2.l)
    decreases |es|
  {
    if es == [] {
      h2 := h;
    } else {
      var h1;
      match es[0] {
        case Send(p, plain, kp) => h1 := SendStep(h, w, p, plain, kp);
        case Deliver(p, slot, kp) => h1 := DeliverStep(h, w, p, slot, kp);
      }
      h2 := RunInv(Step(w, es[0]), es[1..], h1);
    }
  }

  /** `w` is where some conversation of a fresh pair has got to. */
  ghost predicate Conversation(w: World) {
    exists root, alice, bob, es ::
      alice != bob && AllowedRun(Start(root, alice, bob), es) && w == Run(Start(root, alice, bob), es)
  }

  lemma ConversationInv(w: World) returns (h: History)
    requires Conversation(w)
    ensures Inv(h, w)
  {
    var root, alice, bob, es :|
      alice != bob && AllowedRun(Start(root, alice, bob), es) && w == Run(Start(root, alice, bob), es);
    var h0 := StartInv(root, alice, bob);
    h := RunInv(Start(root, alice, bob), es, h0);
  }

  /** Over a whole run of both parties no message key seals two messages. */
  lemma NoKeySealsTwice(w: World, i: nat, j: nat)
    requires Conversation(w) && i < j < |w.log|
    ensures w.log[i].slot.Slot? && w.log[j].slot.Slot? && w.log[i].slot.ct.Sealed? && w.log[j].slot.ct.Sealed?
    ensures w.log[i].slot.ct.key != w.log[j].slot.ct.key
  {
    var h := ConversationInv(w);
    assert OnRung(h.l, h.sentOn[i], w.log[i].slot, w.log[i].plain);
    assert OnRung(h.l, h.sentOn[j], w.log[j].slot, w.log[j].plain);
    MessageKeysDistinct(h.l, h.sentOn[i], w.log[i].slot.h.n, h.sentOn[j], w.log[j].slot.h.n);
  }

  /** Whatever was opened was sent, by the peer, with that plaintext; and nothing is opened twice. */
  lemma ReceiptsAuthentic(w: World, i: nat)
    requires Conversation(w) && i < |w.receipts|
    ensures Sent(Peer(w.receipts[i].to), w.receipts[i].slot, w.receipts[i].plain) in w.log
    ensures forall j :: 0 <= j < |w.receipts| && j != i ==> w.receipts[j].slot != w.receipts[i].slot
  {
    var h := ConversationInv(w);
    forall j | 0 <= j < |w.receipts| && j != i
      ensures w.receipts[j].slot != w.receipts[i].slot
    {
      assert OnRung(h.l, h.readOn[i], w.receipts[i].slot, w.receipts[i].plain);
      assert OnRung(h.l, h.readOn[j], w.receipts[j].slot, w.receipts[j].plain);
    }
  }

  /**
   The frame's message key is stored; or the frame is on the current receive
   chain, at most MAX_SKIP ahead; or on the chain the peer sends on now, when
   neither its gap nor the gap left behind exceeds MAX_SKIP.
   */
  ghost predicate WithinReach(st: State, peer: State, h: Header) {
    || (h.dh, h.n) in st.skipped.vals
    || (h.dh == st.dhr && st.ckr.Some? && 0 <= h.n - st.nr <= MAX_SKIP)
    || (h.dh == peer.dhs && h.dh != st.dhr && (st.ckr.Some? ==> h.pn - st.nr <= MAX_SKIP) && h.n <= MAX_SKIP)
  }

  lemma ReachIsObservable(h: History, w: World, p: Party, c: nat, slot: Slot, plain: Bytes)
    requires Inv(h, w) && OnRung(h.l, c, slot, plain)
    ensures Reachable(h.l, w.Of(p), RecvRung(h.l, p), c, slot.h.n)
       <==> c % 2 == RecvRung(h.l, p) % 2 && WithinReach(w.Of(p), w.Of(Peer(p)), slot.h)
  {
    assert Place(h.l, w, p);
    assert Place(h.l, w, Peer(p));
  }

  lemma LoggedFrameOpens(h: History, w: World, p: Party, i: nat, kp: KeyId)
    requires Inv(h, w) && kp !in w.used && i < |w.log| && w.log[i].from == Peer(p)
    requires w.log[i].slot.Slot? && WithinReach(w.Of(p), w.Of(Peer(p)), w.log[i].slot.h)
    ensures Decrypt(w.Of(p), w.log[i].slot, kp).1 == Ok(w.log[i].plain)
  {
    var c, slot, plain := h.sentOn[i], w.log[i].slot, w.log[i].plain;
    assert OnRung(h.l, c, slot, plain);
    RungParity(h.l, p);
    ReachIsObservable(h, w, p, c, slot, plain);
    var l2 := OpenIsMove(h, w, p, c, slot.h.n, plain, kp);
  }

  /**
   In every conversation, whatever the adversary delivers: the frame opens if
   and only if the peer sent exactly it and it is within reach, and then to
   exactly the plaintext the peer put in.
   */
  lemma OpensIffSentAndWithinReach(w: World, p: Party, slot: Slot, kp: KeyId)
    requires Conversation(w) && Deliverable(w, slot) && kp !in w.used
    ensures Decrypt(w.Of(p), slot, kp).1.Ok?
       <==> && slot.Slot? && WithinReach(w.Of(p), w.Of(Peer(p)), slot.h)
            && (exists i :: 0 <= i < |w.log| && w.log[i].slot == slot && w.log[i].from == Peer(p))
    ensures forall i :: 0 <= i < |w.log| && w.log[i].slot == slot && Decrypt(w.Of(p), slot, kp).1.Ok? ==>
              Decrypt(w.Of(p), slot, kp).1 == Ok(w.log[i].plain)
  {
    var h := ConversationInv(w);
    if Decrypt(w.Of(p), slot, kp).1.Ok? {
      var i := GenuineEntry(h, w, p, slot, kp);
      ReachIsObservable(h, w, p, h.sentOn[i], slot, w.log[i].plain);
      forall j | 0 <= j < |w.log| && w.log[j].slot == slot ensures w.log[j].plain == w.log[i].plain {
        assert OnRung(h.l, h.sentOn[j], slot, w.log[j].plain);
      }
    } else if slot.Slot? && WithinReach(w.Of(p), w.Of(Peer(p)), slot.h) {
      if i :| 0 <= i < |w.log| && w.log[i].slot == slot && w.log[i].from == Peer(p) {
        LoggedFrameOpens(h, w, p, i, kp);
        assert false;
      }
    }
  }

  /** A replay always throws. */
  lemma ReplayThrows(w: World, i: nat, kp: KeyId)
    requires Conversation(w) && i < |w.receipts| && kp !in w.used
    ensures Decrypt(w.Of(w.receipts[i].to), w.receipts[i].slot, kp).1.Err?
  {
    var h := ConversationInv(w);
    var p, slot := w.receipts[i].to, w.receipts[i].slot;
    assert Place(h.l, w, p);
    assert OnRung(h.l, h.readOn[i], slot, w.receipts[i].plain);
    ConsumedUnreachable(h.l, w.Of(p), SendRung(h.l, p), RecvRung(h.l, p), h.readOn[i], slot.h.n);
    OpensIffReachable(h.l, w.Of(p), SendRung(h.l, p), RecvRung(h.l, p), h.readOn[i], slot.h.n, w.receipts[i].plain, kp);
  }

  /** `recv` follows `send`'s chain, or will once it makes the one DH step it is behind. */
  ghost predicate Follows(recv: State, send: State) {
    if send.dhs == recv.dhr then
      send.cks.Some? ==>
        && recv.ckr.Some? && recv.nr <= send.ns
        && send.cks.value == Walk(recv.ckr.value, send.ns - recv.nr)
    else
      && send.dhr == recv.dhs && send.cks.Some?
      && (recv.ckr.Some? ==> recv.nr <= send.pn)
      && send.cks.value == Walk(Kdf2(recv.rk, SharedKey(recv.dhs, send.dhs)), send.ns)
      && send.rk == Kdf1(recv.rk, SharedKey(recv.dhs, send.dhs))
  }

  /**
   Lockstep: each party follows the other's send chain, never more than one
   chain behind, and the two roots are at most one DH step apart.
   */
  lemma Lockstep(w: World)
    requires Conversation(w)
    ensures Follows(w.alice, w.bob) && Follows(w.bob, w.alice)
    ensures w.alice.dhs == w.bob.dhr || w.bob.dhs == w.alice.dhr
    ensures || w.alice.rk == w.bob.rk
            || w.alice.rk == Kdf1(w.bob.rk, SharedKey(w.alice.dhs, w.bob.dhs))
            || w.bob.rk == Kdf1(w.alice.rk, SharedKey(w.alice.dhs, w.bob.dhs))
  {
    var h := ConversationInv(w);
    FollowsInStep(h, w, Alice);
    FollowsInStep(h, w, Bob);
    assert Place(h.l, w, Alice) && Place(h.l, w, Bob);
  }

  lemma FollowsInStep(h: History, w: World, p: Party)
    requires Inv(h, w)
    ensures Follows(w.Of(p), w.Of(Peer(p)))
  {
    var l, recv, send := h.l, w.Of(p), w.Of(Peer(p));
    var s, r := SendRung(l, Peer(p)), RecvRung(l, p);
    assert Place(l, w, p);
    assert Place(l, w, Peer(p));
    if s == r {
      if s > 0 { WalkSum(l.Base(r), recv.nr, send.ns - recv.nr); }
    } else {
      assert l.RK(s) == Kdf1(l.RK(s - 1), SharedKey(l.keys[s - 1], l.keys[s]));
    }
  }

  /**
   At most MAX_SKIPPED_KEYS keys are held, and each one is the key of a frame
   the peer did send under that header and that has not been opened.
   */
  lemma StoreTruth(w: World, p: Party)
    requires Conversation(w)
    ensures w.Of(p).skipped.Valid() && |w.Of(p).skipped.keys| <= MAX_SKIPPED_KEYS
    ensures forall k :: k in w.Of(p).skipped.vals ==>
              exists i :: 0 <= i < |w.log| && KeyOf(w.log[i], Peer(p), k, w.Of(p).skipped.vals[k])
    ensures forall k, j :: k in w.Of(p).skipped.vals && 0 <= j < |w.receipts| && w.receipts[j].to == p ==>
              w.receipts[j].slot.Slot? && k != (w.receipts[j].slot.h.dh, w.receipts[j].slot.h.n)
  {
    var h := ConversationInv(w);
    assert Place(h.l, w, p);
    var st := w.Of(p);
    forall k | k in st.skipped.vals
      ensures exists i :: 0 <= i < |w.log| && KeyOf(w.log[i], Peer(p), k, st.skipped.vals[k])
    {
      var i := StoredEntry(h, w, p, k);
    }
    forall k, j | k in st.skipped.vals && 0 <= j < |w.receipts| && w.receipts[j].to == p
      ensures w.receipts[j].slot.Slot? && k != (w.receipts[j].slot.h.dh, w.receipts[j].slot.h.n)
    {
      assert OnRung(h.l, h.readOn[j], w.receipts[j].slot, w.receipts[j].plain);
    }
  }

  predicate KeyOf(e: Sent, from: Party, k: (KeyId, int), mk: Secret) {
    e.from == from && e.slot.Slot? && e.slot.ct.Sealed? && (e.slot.h.dh, e.slot.h.n) == k && e.slot.ct.key == mk
  }

  lemma StoredEntry(h: History, w: World, p: Party, k: (KeyId, int)) returns (i: nat)
    requires Inv(h, w) && k in w.Of(p).skipped.vals
    ensures i < |w.log| && KeyOf(w.log[i], Peer(p), k, w.Of(p).skipped.vals[k])
  {
    assert Place(h.l, w, p);
    var r := RecvRung(h.l, p);
    var c :| StoredAt(h.l, r, w.Of(p).nr, k, w.Of(p).skipped.vals[k], c);
    assert Logged(h, w.log, c, k.1);
    i :| 0 <= i < |w.log| && h.sentOn[i] == c && w.log[i].slot.h.n == k.1;
    assert OnRung(h.l, c, w.log[i].slot, w.log[i].plain);
    RungParity(h.l, p);
  }
}
