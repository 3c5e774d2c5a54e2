/**
 Where a Double Ratchet party stands. Both parties climb one ladder: rung `i`
 is a key pair, and every rung but the first opens a send chain whose root comes
 from the rung below. Even rungs belong to Bob, odd ones to Alice.
 */
module RatchetLadder {
  import opened Common
  import opened OrderedMap
  import opened Symbolic
  import opened DoubleRatchet

  /** `counts[i]` is the number of messages sealed on the chain of rung `i`; rung 0 has none. */
  datatype Ladder = Ladder(root: Secret, keys: seq<KeyId>, counts: seq<nat>) {

    ghost predicate Valid() {
      |keys| == |counts| >= 2 && Distinct(keys) && counts[0] == 0
    }

    function RK(i: nat): Secret
      requires i < |keys|
    {
      if i == 0 then root else Kdf1(RK(i - 1), SharedKey(keys[i - 1], keys[i]))
    }

    /** The first chain key of rung `i`. */
    function Base(i: nat): Secret
      requires 0 < i < |keys|
    {
      Kdf2(RK(i - 1), SharedKey(keys[i - 1], keys[i]))
    }

    /** The key that seals message `n` of rung `i`. */
    function MK(i: nat, n: nat): Secret
      requires 0 < i < |keys|
    {
      MessageKey(Walk(Base(i), n))
    }

    /** The header of message `n` of rung `i`: `pn` is the length of the sender's previous chain. */
    function HeaderOf(i: nat, n: nat): Header
      requires 0 < i < |keys| && |keys| == |counts|
    {
      Header(keys[i], n, if i >= 2 then counts[i - 2] else 0)
    }
  }

  function Walk(ck: Secret, n: nat): Secret {
    if n == 0 then ck else NextChainKey(Walk(ck, n - 1))
  }

  /** A secret no chain step can produce: a chain starts here. */
  predicate IsBase(ck: Secret) { ck.Kdf2? && ck.ikm.Dh? }

  lemma {:induction false} WalkInjective(a: Secret, b: Secret, m: nat, n: nat)
    requires IsBase(a) && IsBase(b)
    ensures Walk(a, m) == Walk(b, n) <==> a == b && m == n
  {
    if m > 0 && n > 0 { WalkInjective(a, b, m - 1, n - 1); }
  }

  lemma {:induction false} WalkFromNext(ck: Secret, n: nat)
    ensures Walk(NextChainKey(ck), n) == Walk(ck, n + 1)
  {
    if n > 0 { WalkFromNext(ck, n - 1); }
  }

  lemma {:induction false} WalkDerived(ck: Secret, n: nat, root: Secret)
    requires Derived(ck, root)
    ensures Derived(Walk(ck, n), root)
  {
    if n > 0 { WalkDerived(ck, n - 1, root); }
  }

  lemma {:induction false} RootHeight(l: Ladder, i: nat)
    requires i < |l.keys|
    ensures Height(l.RK(i)) == i + Height(l.root)
    ensures Derived(l.RK(i), l.root)
  {
    if i > 0 { RootHeight(l, i - 1); }
  }

  /** No two messages of a conversation, in either direction, share a key. */
  lemma MessageKeysDistinct(l: Ladder, i: nat, m: nat, j: nat, n: nat)
    requires 0 < i < |l.keys| && 0 < j < |l.keys|
    ensures l.MK(i, m) == l.MK(j, n) <==> i == j && m == n
  {
    WalkInjective(l.Base(i), l.Base(j), m, n);
    RootHeight(l, i - 1);
    RootHeight(l, j - 1);
  }

  // ----- a party's place on the ladder ---------------------------------------------------

  /** Key `k` of the store is message `k.1` of rung `c`, one of the sender's, already passed by. */
  ghost predicate StoredAt(l: Ladder, r: nat, nr: nat, k: (KeyId, int), mk: Secret, c: nat)
    requires l.Valid() && r < |l.keys|
  {
    && 0 < c <= r && c % 2 == r % 2 && k.0 == l.keys[c]
    && 0 <= k.1 < (if c == r then nr else l.counts[c])
    && mk == l.MK(c, k.1)
  }

  ghost predicate StoreOk(l: Ladder, r: nat, nr: nat, m: SkippedKeys)
    requires l.Valid() && r < |l.keys|
  {
    && m.Valid()
    && |m.keys| <= MAX_SKIPPED_KEYS
    && (forall k :: k in m.vals ==> exists c :: StoredAt(l, r, nr, k, m.vals[k], c))
  }

  /** The party sends on rung `s` and receives on rung `r`; rung 0 stands for "no chain yet". */
  ghost predicate InStep(l: Ladder, st: State, s: nat, r: nat) {
    && l.Valid()
    && s < |l.keys| && r < |l.keys|
    && (s == r + 1 || (s == 0 && r == 1))
    && st.dhs == l.keys[s] && st.dhr == l.keys[r]
    && st.rk == l.RK(if s > r then s else r)
    && st.cks == (if s == 0 then None else Some(Walk(l.Base(s), st.ns)))
    && st.ckr == (if r == 0 then None else Some(Walk(l.Base(r), st.nr)))
    && st.ns == l.counts[s]
    && st.pn == (if s >= 2 then l.counts[s - 2] else 0)
    && st.nr <= l.counts[r]
    && StoreOk(l, r, st.nr, st.skipped)
  }

  // ----- the ladder only grows -----------------------------------------------------------

  /** `l2` is a later `l` on which the owner of the rungs of parity `p` has not moved. */
  ghost predicate Grows(l: Ladder, l2: Ladder, p: nat) {
    && l.Valid() && l2.Valid() && l.root == l2.root
    && |l.keys| <= |l2.keys|
    && (forall i :: 0 <= i < |l.keys| ==> l.keys[i] == l2.keys[i])
    && (forall i :: 0 <= i < |l.keys| ==> l.counts[i] <= l2.counts[i])
    && (forall i :: 0 <= i < |l.keys| && i % 2 == p % 2 ==> l.counts[i] == l2.counts[i])
  }

  lemma {:induction false} RootStable(l: Ladder, l2: Ladder, i: nat)
    requires l.root == l2.root && i < |l.keys| <= |l2.keys|
    requires forall i :: 0 <= i < |l.keys| ==> l.keys[i] == l2.keys[i]
    ensures l.RK(i) == l2.RK(i)
    ensures i > 0 ==> l.Base(i) == l2.Base(i)
  {
    if i > 0 { RootStable(l, l2, i - 1); }
  }

  lemma StoreStable(l: Ladder, l2: Ladder, r: nat, nr: nat, m: SkippedKeys, p: nat)
    requires Grows(l, l2, p) && r < |l.keys|
    requires StoreOk(l, r, nr, m)
    ensures StoreOk(l2, r, nr, m)
  {
    forall k | k in m.vals
      ensures exists c :: StoredAt(l2, r, nr, k, m.vals[k], c)
    {
      var c :| StoredAt(l, r, nr, k, m.vals[k], c);
      RootStable(l, l2, c);
      assert StoredAt(l2, r, nr, k, m.vals[k], c);
    }
  }

  /** A party stays in step while its peer moves. */
  lemma InStepStable(l: Ladder, l2: Ladder, st: State, s: nat, r: nat)
    requires Grows(l, l2, s)
    requires InStep(l, st, s, r)
    ensures InStep(l2, st, s, r)
  {
    RootStable(l, l2, s);
    RootStable(l, l2, r);
    StoreStable(l, l2, r, st.nr, st.skipped, s);
  }

  // ----- the two initial states ----------------------------------------------------------

  /** Rung 0 is Bob's initial key pair, rung 1 is Alice's. */
  function InitialLadder(root: Secret, alice: KeyId, bob: KeyId): Ladder {
    Ladder(root, [bob, alice], [0, 0])
  }

  lemma InitInStep(root: Secret, alice: KeyId, bob: KeyId)
    requires alice != bob
    ensures InStep(InitialLadder(root, alice, bob), InitAlice(root, alice, bob), 1, 0)
    ensures InStep(InitialLadder(root, alice, bob), InitBob(root, bob, alice), 0, 1)
  {
    var l := InitialLadder(root, alice, bob);
    assert l.RK(0) == root;
    assert l.RK(1) == Kdf1(root, SharedKey(alice, bob));
    assert l.Base(1) == Kdf2(root, SharedKey(alice, bob));
    assert Walk(l.Base(1), 0) == l.Base(1);
  }
}
