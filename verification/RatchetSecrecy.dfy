/**
 What one secret of a conversation gives away about the others: exactly which
 message keys can be derived from a root, a chain key or a message key, and so
 what somebody learns who gets hold of one of them or of a party's whole state.
 `Derived` is generous to whom it describes: every other HKDF input is theirs.
 */
module RatchetSecrecy {
  import opened Common
  import opened Symbolic
  import opened DoubleRatchet
  import opened RatchetLadder
  import opened RatchetReceive
  import opened RatchetRun
  import opened RatchetTheorems

  // ----- the ladder ----------------------------------------------------------------------------

  lemma {:induction false} DerivedFalls(k: Secret, x: Secret)
    requires Derived(k, x)
    ensures Height(x) <= Height(k)
  {
    if k != x { DerivedFalls(k.salt, x); }
  }

  lemma {:induction false} DerivedThrough(a: Secret, b: Secret, c: Secret)
    requires Derived(a, b) && Derived(b, c)
    ensures Derived(a, c)
  {
    if a != b { DerivedThrough(a.salt, b, c); }
  }

  /** What is above the session root and yields a root key is a root key. */
  lemma {:induction false} BelowRoot(l: Ladder, i: nat, x: Secret) returns (k: nat)
    requires i < |l.keys| && Height(x) > Height(l.root) && Derived(l.RK(i), x)
    ensures 0 < k <= i && x == l.RK(k)
  {
    if i == 0 {
      DerivedFalls(l.root, x);
      assert false;
    } else if x == l.RK(i) {
      k := i;
    } else {
      k := BelowRoot(l, i - 1, x);
    }
  }

  /** What yields a chain key is an earlier one of the chain, or a root key below the chain. */
  lemma {:induction false} BelowChain(l: Ladder, j: nat, m: nat, x: Secret) returns (k: nat)
    requires 0 < j < |l.keys| && Height(x) > Height(l.root) && Derived(Walk(l.Base(j), m), x)
    ensures (k <= m && x == Walk(l.Base(j), k)) || (0 < k < j && x == l.RK(k))
  {
    if x == Walk(l.Base(j), m) {
      k := m;
    } else if m > 0 {
      k := BelowChain(l, j, m - 1, x);
    } else {
      k := BelowRoot(l, j - 1, x);
    }
  }

  lemma ChainHeight(l: Ladder, i: nat, n: nat)
    requires 0 < i < |l.keys|
    ensures Height(Walk(l.Base(i), n)) == n + i + Height(l.root)
  {
    RootHeight(l, i - 1);
    WalkHeight(l.Base(i), n);
  }

  lemma {:induction false} WalkHeight(ck: Secret, n: nat)
    ensures Height(Walk(ck, n)) == n + Height(ck)
  {
    if n > 0 { WalkHeight(ck, n - 1); }
  }

  lemma BasesDiffer(l: Ladder, i: nat, j: nat)
    requires 0 < i < |l.keys| && 0 < j < |l.keys|
    ensures l.Base(i) == l.Base(j) <==> i == j
  {
    RootHeight(l, i - 1);
    RootHeight(l, j - 1);
  }

  /** From a message key nothing follows but itself: no other message key, no chain key, no root. */
  lemma MessageKeyDerives(l: Ladder, i: nat, n: nat, j: nat, m: nat)
    requires 0 < i < |l.keys| && 0 < j < |l.keys|
    ensures Derived(l.MK(j, m), l.MK(i, n)) <==> i == j && m == n
    ensures !Derived(Walk(l.Base(j), m), l.MK(i, n)) && !Derived(l.RK(j), l.MK(i, n))
  {
    ChainHeight(l, i, n);
    MessageKeysDistinct(l, i, n, j, m);
    if Derived(Walk(l.Base(j), m), l.MK(i, n)) {
      var k := BelowChain(l, j, m, l.MK(i, n));
      assert false;
    }
    if Derived(l.RK(j), l.MK(i, n)) {
      var k := BelowRoot(l, j, l.MK(i, n));
      assert false;
    }
  }

  /** From a chain key follow the message keys of its chain from its place on, and no others. */
  lemma ChainKeyDerives(l: Ladder, i: nat, n: nat, j: nat, m: nat)
    requires 0 < i < |l.keys| && 0 < j < |l.keys|
    ensures Derived(l.MK(j, m), Walk(l.Base(i), n)) <==> i == j && n <= m
  {
    ChainHeight(l, i, n);
    BasesDiffer(l, i, j);
    if Derived(l.MK(j, m), Walk(l.Base(i), n)) {
      var k := BelowChain(l, j, m, Walk(l.Base(i), n));
      WalkInjective(l.Base(i), l.Base(j), n, k);
    } else if i == j && n <= m {
      WalkSum(l.Base(i), n, m - n);
      WalkDerived(Walk(l.Base(i), n), m - n, Walk(l.Base(i), n));
    }
  }

  lemma {:induction false} RootsDescend(l: Ladder, i: nat, j: nat)
    requires i <= j < |l.keys|
    ensures Derived(l.RK(j), l.RK(i))
  {
    if i < j { RootsDescend(l, i, j - 1); }
  }

  /** From a root key follow the message keys of the rungs above it, and no others. */
  lemma RootKeyDerives(l: Ladder, i: nat, j: nat, m: nat)
    requires i < |l.keys| && 0 < j < |l.keys|
    ensures Derived(l.MK(j, m), l.RK(i)) <==> i < j
  {
    RootHeight(l, i);
    if i < j {
      RootsDescend(l, i, j - 1);
      WalkDerived(l.Base(j), m, l.RK(i));
    } else if Derived(l.MK(j, m), l.RK(i)) {
      var k := BelowChain(l, j, m, l.RK(i));
      RootHeight(l, k);
    }
  }

  // ----- one key ---------------------------------------------------------------------------------

  function KeyAt(w: World, i: nat): Secret
    requires i < |w.log| && w.log[i].slot.Slot? && w.log[i].slot.ct.Sealed?
  {
    w.log[i].slot.ct.key
  }

  ghost predicate AllSealed(w: World) {
    forall i :: 0 <= i < |w.log| ==> w.log[i].slot.Slot? && w.log[i].slot.ct.Sealed?
  }

  lemma LogIsSealed(h: History, w: World)
    requires Inv(h, w)
    ensures AllSealed(w)
  {
    forall i | 0 <= i < |w.log| ensures w.log[i].slot.Slot? && w.log[i].slot.ct.Sealed? {
      assert OnRung(h.l, h.sentOn[i], w.log[i].slot, w.log[i].plain);
    }
  }

  /** Nothing a state holds in order to go on can be derived from `key`. */
  ghost predicate Beyond(st: State, key: Secret) {
    && !Derived(st.rk, key)
    && (st.cks.Some? ==> !Derived(st.cks.value, key))
    && (st.ckr.Some? ==> !Derived(st.ckr.value, key))
  }

  /**
   In every conversation: from the key of one frame follow neither the key of any
   other frame, sent before or after it by either party, nor a root or a chain key
   that either party holds.
   */
  lemma KeyGivesNothingAway(w: World, i: nat, p: Party)
    requires Conversation(w) && i < |w.log|
    ensures AllSealed(w)
    ensures forall j :: 0 <= j < |w.log| && j != i ==> !Derived(KeyAt(w, j), KeyAt(w, i))
    ensures Beyond(w.Of(p), KeyAt(w, i))
  {
    var h := ConversationInv(w);
    LogIsSealed(h, w);
    var l, c, n := h.l, h.sentOn[i], w.log[i].slot.h.n;
    assert OnRung(l, c, w.log[i].slot, w.log[i].plain);
    forall j | 0 <= j < |w.log| && j != i ensures !Derived(KeyAt(w, j), KeyAt(w, i)) {
      assert OnRung(l, h.sentOn[j], w.log[j].slot, w.log[j].plain);
      MessageKeyDerives(l, c, n, h.sentOn[j], w.log[j].slot.h.n);
    }
    assert Place(l, w, p);
    BeyondInStep(l, w.Of(p), SendRung(l, p), RecvRung(l, p), c, n);
  }

  lemma BeyondInStep(l: Ladder, st: State, s: nat, r: nat, c: nat, n: nat)
    requires InStep(l, st, s, r) && 0 < c < |l.keys|
    ensures Beyond(st, l.MK(c, n))
  {
    if s > 0 { MessageKeyDerives(l, c, n, s, st.ns); }
    if r > 0 { MessageKeyDerives(l, c, n, r, st.nr); }
  }

  // ----- a whole state ---------------------------------------------------------------------------

  /** Whoever reads the state `st` can derive `key`. */
  ghost predicate Exposes(st: State, key: Secret) {
    || Derived(key, st.rk)
    || (st.cks.Some? && Derived(key, st.cks.value))
    || (st.ckr.Some? && Derived(key, st.ckr.value))
    || exists k :: k in st.skipped.vals && Derived(key, st.skipped.vals[k])
  }

  /**
   A frame the party may still have to open: its key is stranded; or it is on the
   receive chain, not yet passed; or on the peer's next chain.
   */
  predicate StillToOpen(st: State, peer: State, h: Header) {
    || (h.dh, h.n) in st.skipped.vals
    || (h.dh == st.dhr && st.ckr.Some? && st.nr <= h.n)
    || (h.dh == peer.dhs && h.dh != st.dhr)
  }

  lemma StoreExposes(l: Ladder, st: State, s: nat, r: nat, c: nat, n: nat)
    requires InStep(l, st, s, r) && 0 < c < |l.keys|
    ensures (exists k :: k in st.skipped.vals && Derived(l.MK(c, n), st.skipped.vals[k]))
       <==> (l.keys[c], n) in st.skipped.vals
  {
    forall k | k in st.skipped.vals
      ensures Derived(l.MK(c, n), st.skipped.vals[k]) <==> k == (l.keys[c], n)
    {
      var d :| StoredAt(l, r, st.nr, k, st.skipped.vals[k], d);
      MessageKeyDerives(l, d, k.1, c, n);
    }
  }

  /** What a party's place on the ladder exposes. */
  lemma InStepExposes(l: Ladder, st: State, s: nat, r: nat, c: nat, n: nat)
    requires InStep(l, st, s, r) && 0 < c < |l.keys|
    ensures Exposes(st, l.MK(c, n))
       <==> || (if s > r then s else r) < c
            || (c == s && st.ns <= n)
            || (c == r && st.nr <= n)
            || (l.keys[c], n) in st.skipped.vals
  {
    RootKeyDerives(l, if s > r then s else r, c, n);
    if s > 0 { ChainKeyDerives(l, s, st.ns, c, n); }
    if r > 0 { ChainKeyDerives(l, r, st.nr, c, n); }
    StoreExposes(l, st, s, r, c, n);
  }

  /**
   Forward secrecy, exactly. Whoever reads a party's whole state, and knows every
   DH result there ever was, can derive the keys of the frames it may still have
   to open and of no other frame of the past: none that it sent, none it opened,
   none that was thrown away.
   */
  lemma ExposedExactly(w: World, p: Party, i: nat)
    requires Conversation(w) && i < |w.log|
    ensures AllSealed(w)
    ensures Exposes(w.Of(p), KeyAt(w, i))
       <==> w.log[i].from == Peer(p) && StillToOpen(w.Of(p), w.Of(Peer(p)), w.log[i].slot.h)
  {
    var h := ConversationInv(w);
    LogIsSealed(h, w);
    assert OnRung(h.l, h.sentOn[i], w.log[i].slot, w.log[i].plain);
    if w.log[i].from == p { OwnUnexposed(h, w, p, i); } else { PeersExposed(h, w, p, i); }
  }

  lemma OwnUnexposed(h: History, w: World, p: Party, i: nat)
    requires Inv(h, w) && i < |w.log| && w.log[i].from == p
    ensures w.log[i].slot.Slot? && w.log[i].slot.ct.Sealed? && !Exposes(w.Of(p), w.log[i].slot.ct.key)
  {
    var l, c, slot := h.l, h.sentOn[i], w.log[i].slot;
    assert OnRung(l, c, slot, w.log[i].plain);
    assert Place(l, w, p);
    RungParity(l, p);
    InStepExposes(l, w.Of(p), SendRung(l, p), RecvRung(l, p), c, slot.h.n);
    NotStoredOwn(l, w.Of(p), SendRung(l, p), RecvRung(l, p), c, slot.h.n);
  }

  lemma PeersExposed(h: History, w: World, p: Party, i: nat)
    requires Inv(h, w) && i < |w.log| && w.log[i].from == Peer(p)
    ensures w.log[i].slot.Slot? && w.log[i].slot.ct.Sealed?
    ensures Exposes(w.Of(p), w.log[i].slot.ct.key) <==> StillToOpen(w.Of(p), w.Of(Peer(p)), w.log[i].slot.h)
  {
    var l, c, slot := h.l, h.sentOn[i], w.log[i].slot;
    assert OnRung(l, c, slot, w.log[i].plain);
    assert Place(l, w, p);
    assert Place(l, w, Peer(p));
    RungParity(l, p);
    InStepExposes(l, w.Of(p), SendRung(l, p), RecvRung(l, p), c, slot.h.n);
  }

  /** A party never strands keys of its own messages. */
  lemma NotStoredOwn(l: Ladder, st: State, s: nat, r: nat, c: nat, n: nat)
    requires InStep(l, st, s, r) && 0 < c < |l.keys| && c % 2 != r % 2
    ensures (l.keys[c], n) !in st.skipped.vals
  {
  }

  /** What was opened is out of reach of the state that opened it, from then on. */
  lemma OpenedIsForgotten(w: World, i: nat)
    requires Conversation(w) && i < |w.receipts|
    ensures w.receipts[i].slot.Slot? && w.receipts[i].slot.ct.Sealed?
    ensures !Exposes(w.Of(w.receipts[i].to), w.receipts[i].slot.ct.key)
  {
    var h := ConversationInv(w);
    var p, slot := w.receipts[i].to, w.receipts[i].slot;
    assert OnRung(h.l, h.readOn[i], slot, w.receipts[i].plain);
    assert Place(h.l, w, p);
    RungParity(h.l, p);
    InStepExposes(h.l, w.Of(p), SendRung(h.l, p), RecvRung(h.l, p), h.readOn[i], slot.h.n);
  }

  // ----- healing --------------------------------------------------------------------------------

  /** A secret of the ladder up to rung `i`: a root, a chain key or a message key. */
  ghost predicate UpTo(l: Ladder, i: nat, x: Secret)
    requires i < |l.keys|
  {
    || (exists j :: 0 <= j <= i && x == l.RK(j))
    || (exists j, n :: 0 < j <= i && 0 <= n && x == Walk(l.Base(j), n))
    || (exists j, n :: 0 < j <= i && 0 <= n && x == l.MK(j, n))
  }

  /** Everything known of the ladder is below rung `c`, whose DH step has two unknown key pairs. */
  ghost predicate Healed(l: Ladder, i: nat, c: nat, known: set<KeyId>, leaked: set<Secret>) {
    && i < c < |l.keys| && l.root.Hybrid?
    && l.keys[c - 1] !in known && l.keys[c] !in known
    && forall x :: x in leaked ==> UpTo(l, i, x)
  }

  lemma DhNotLeaked(l: Ladder, i: nat, lo: KeyId, hi: KeyId)
    requires i < |l.keys| && l.root.Hybrid?
    ensures !UpTo(l, i, Dh(lo, hi))
  {
    if j: nat :| j <= i && Dh(lo, hi) == l.RK(j) { RootHeight(l, j); }
    if j: nat, n: nat :| 0 < j <= i && Dh(lo, hi) == Walk(l.Base(j), n) { ChainHeight(l, j, n); }
  }

  lemma RootNotLeaked(l: Ladder, i: nat, j: nat)
    requires i < j < |l.keys|
    ensures !UpTo(l, i, l.RK(j))
  {
    RootHeight(l, j);
    if k: nat :| k <= i && l.RK(j) == l.RK(k) { RootHeight(l, k); }
  }

  lemma ChainNotLeaked(l: Ladder, i: nat, j: nat, n: nat)
    requires i < j < |l.keys| && l.root.Hybrid?
    ensures !UpTo(l, i, Walk(l.Base(j), n))
  {
    ChainHeight(l, j, n);
    if k: nat :| k <= i && Walk(l.Base(j), n) == l.RK(k) {
      RootHeight(l, k);
      assert false;
    }
    if k: nat, m: nat :| 0 < k <= i && Walk(l.Base(j), n) == Walk(l.Base(k), m) {
      WalkInjective(l.Base(j), l.Base(k), n, m);
      BasesDiffer(l, j, k);
      assert false;
    }
  }

  lemma KeyNotLeaked(l: Ladder, i: nat, j: nat, n: nat)
    requires i < j < |l.keys| && l.root.Hybrid?
    ensures !UpTo(l, i, l.MK(j, n))
  {
    if k: nat, m: nat :| 0 < k <= i && l.MK(j, n) == l.MK(k, m) {
      MessageKeysDistinct(l, j, n, k, m);
      assert false;
    }
  }

  lemma {:induction false} RootHidden(l: Ladder, i: nat, c: nat, j: nat, known: set<KeyId>, leaked: set<Secret>)
    requires Healed(l, i, c, known, leaked) && c <= j < |l.keys|
    ensures !Obtains(l.RK(j), known, leaked)
  {
    RootNotLeaked(l, i, j);
    if j == c {
      DhNotLeaked(l, i, SharedKey(l.keys[c - 1], l.keys[c]).lo, SharedKey(l.keys[c - 1], l.keys[c]).hi);
    } else {
      RootHidden(l, i, c, j - 1, known, leaked);
    }
  }

  lemma {:induction false} ChainHidden(l: Ladder, i: nat, c: nat, j: nat, n: nat, known: set<KeyId>, leaked: set<Secret>)
    requires Healed(l, i, c, known, leaked) && c <= j < |l.keys|
    ensures !Obtains(Walk(l.Base(j), n), known, leaked)
  {
    ChainNotLeaked(l, i, j, n);
    if n > 0 {
      ChainHidden(l, i, c, j, n - 1, known, leaked);
    } else if j == c {
      DhNotLeaked(l, i, SharedKey(l.keys[c - 1], l.keys[c]).lo, SharedKey(l.keys[c - 1], l.keys[c]).hi);
    } else {
      RootHidden(l, i, c, j - 1, known, leaked);
    }
  }

  /** The secrets in a state. */
  ghost predicate InState(st: State, x: Secret) {
    || x == st.rk || st.cks == Some(x) || st.ckr == Some(x)
    || exists k :: k in st.skipped.vals && x == st.skipped.vals[k]
  }

  /** A state holds secrets of the rungs up to its own only. */
  lemma StateUpTo(l: Ladder, st: State, s: nat, r: nat, x: Secret)
    requires InStep(l, st, s, r) && InState(st, x)
    ensures UpTo(l, if s > r then s else r, x)
  {
    if st.cks == Some(x) {
      assert x == Walk(l.Base(s), st.ns);
    } else if st.ckr == Some(x) {
      assert x == Walk(l.Base(r), st.nr);
    } else if x != st.rk {
      var k :| k in st.skipped.vals && x == st.skipped.vals[k];
      var c :| StoredAt(l, r, st.nr, k, x, c);
    }
  }

  lemma UpToStable(l: Ladder, l2: Ladder, i: nat, x: Secret)
    requires Extends(l, l2) && i < |l.keys| && UpTo(l, i, x)
    ensures UpTo(l2, i, x)
  {
    forall j: nat | j <= i ensures l.RK(j) == l2.RK(j) && (j > 0 ==> l.Base(j) == l2.Base(j)) { RootStable(l, l2, j); }
    if j: nat :| j <= i && x == l.RK(j) {
      assert x == l2.RK(j);
    } else if j: nat, n: nat :| 0 < j <= i && x == Walk(l.Base(j), n) {
      assert x == Walk(l2.Base(j), n);
    } else {
      var j: nat, n: nat :| 0 < j <= i && x == l.MK(j, n);
      assert x == l2.MK(j, n);
    }
  }

  /**
   Whoever read a state on the ladder `l`, and knows any private keys besides,
   obtains no message key of a rung `c` on top of it that was opened between two
   key pairs unknown to them, nor of any later rung.
   */
  lemma HealedRungs(l: Ladder, st: State, s: nat, r: nat, l2: Ladder, c: nat, j: nat, n: nat, known: set<KeyId>, leaked: set<Secret>)
    requires InStep(l, st, s, r) && Extends(l, l2) && l.root.Hybrid?
    requires forall x :: x in leaked ==> InState(st, x)
    requires |l.keys| <= c <= j < |l2.keys| && l2.keys[c - 1] !in known && l2.keys[c] !in known
    ensures !Obtains(l2.MK(j, n), known, leaked)
  {
    var i := if s > r then s else r;
    forall x | x in leaked ensures UpTo(l2, i, x) {
      StateUpTo(l, st, s, r, x);
      UpToStable(l, l2, i, x);
    }
    KeyNotLeaked(l2, i, j, n);
    ChainHidden(l2, i, c, j, n, known, leaked);
  }

  /** Where the next frame of a party is sealed, if its ratchet key is one that was drawn after `used`. */
  lemma SealsOnRung(h: History, w: World, q: Party, plain: Bytes, kp: KeyId, used: set<KeyId>) returns (c: nat)
    requires Inv(h, w) && (forall k :: k in h.l.keys[..2] ==> k in used) && w.Of(q).dhs !in used
    ensures 2 <= c < |h.l.keys| && h.l.keys[c] == w.Of(q).dhs && h.l.keys[c - 1] == w.Of(q).dhr
    ensures var slot := Encrypt(w.Of(q), plain, kp).1;
            slot.Slot? && slot.ct.Sealed? && slot.ct.key == h.l.MK(c, w.Of(q).ns)
  {
    assert Place(h.l, w, q);
    c := SendRung(h.l, q);
    EncryptOnRung(h.l, w.Of(q), c, RecvRung(h.l, q), plain, kp);
  }

  /**
   Healing. In a conversation somebody reads the whole state of either party,
   and knows whatever private keys they like. From then on, as soon as a party
   sends under a ratchet key drawn since, and neither that nor the peer's key it
   answers is one they know, they cannot obtain the key of what it seals.
   */
  lemma Heals(w: World, p: Party, es: seq<Event>, q: Party, plain: Bytes, kp: KeyId, known: set<KeyId>, leaked: set<Secret>)
    requires Conversation(w) && AllowedRun(w, es) && w.root.Hybrid?
    requires forall x :: x in leaked ==> InState(w.Of(p), x)
    requires var st := Run(w, es).Of(q); st.dhs !in w.used && st.dhs !in known && st.dhr !in known
    ensures var slot := Encrypt(Run(w, es).Of(q), plain, kp).1;
            slot.Slot? && slot.ct.Sealed? && !Obtains(slot.ct.key, known, leaked)
  {
    var h := ConversationInv(w);
    var h2 := RunInv(w, es, h);
    assert Place(h.l, w, p);
    assert h2.l.keys[..2] == h.l.keys[..2];
    var c := SealsOnRung(h2, Run(w, es), q, plain, kp, w.used);
    assert c >= |h.l.keys| by { assert h2.l.keys[c] !in h.l.keys; }
    HealedRungs(h.l, w.Of(p), SendRung(h.l, p), RecvRung(h.l, p), h2.l, c, c, Run(w, es).Of(q).ns, known, leaked);
  }
}
