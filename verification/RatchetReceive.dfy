/** Receiving: exactly which frames a party opens, and what each does to its place on the ladder. */
module RatchetReceive {
  import opened Common
  import opened OrderedMap
  import opened Symbolic
  import opened DoubleRatchet
  import opened RatchetLadder
  import opened RatchetSkip

  /** Message `n` of rung `c` can never be opened again by this party. */
  ghost predicate Consumed(l: Ladder, st: State, r: nat, c: nat, n: nat)
    requires l.Valid()
  {
    && 0 < c <= r && c < |l.keys|
    && (c == r ==> n < st.nr)
    && (l.keys[c], n) !in st.skipped.vals
  }

  /** The frame in which message `n` of rung `c` travels. */
  function Frame(l: Ladder, c: nat, n: nat, plain: Bytes): Slot
    requires 0 < c < |l.keys| && |l.keys| == |l.counts|
  {
    Slot(l.HeaderOf(c, n), Sealed(l.MK(c, n), l.HeaderOf(c, n), plain))
  }

  // ----- skipping ------------------------------------------------------------------------

  lemma {:induction false} WalkSum(ck: Secret, a: nat, b: nat)
    ensures Walk(Walk(ck, a), b) == Walk(ck, a + b)
  {
    if b > 0 { WalkSum(ck, a, b - 1); }
  }

  lemma NothingStoredAhead(l: Ladder, r: nat, nr: nat, m: SkippedKeys, j: nat)
    requires l.Valid() && r < |l.keys| && StoreOk(l, r, nr, m) && nr <= j
    ensures (l.keys[r], j) !in m.vals
  {
  }

  /** A skip that has something to skip, within the limit. */
  lemma SkipResult(st: State, ck: Secret, until: nat) returns (m: SkippedKeys)
    requires st.ckr == Some(ck) && st.nr < until && until - st.nr <= MAX_SKIP
    requires st.skipped.Valid() && |st.skipped.keys| <= MAX_SKIPPED_KEYS
    requires forall j :: st.nr <= j < until ==> (st.dhr, j) !in st.skipped.vals
    ensures SkipMessageKeys(st, until, st.dhr) == Ok(st.(nr := until, ckr := Some(Walk(ck, until - st.nr)), skipped := m))
    ensures m.Valid() && |m.keys| <= MAX_SKIPPED_KEYS
    ensures FromSkip(st, until, m)
  {
    m := SkipChain(ck, st.nr, until, st.dhr, st.skipped).1;
    SkipChainKey(ck, st.nr, until, st.dhr, st.skipped);
    SkipChainFifo(ck, st.nr, until, st.dhr, st.skipped);
    SkipChainEntries(ck, st.nr, until, st.dhr, st.skipped);
  }

  lemma SkippedIsStored(l: Ladder, st: State, s: nat, r: nat, until: nat, k: (KeyId, int), mk: Secret)
    requires InStep(l, st, s, r) && r > 0 && st.nr < until <= l.counts[r]
    requires (k in st.skipped.vals && mk == st.skipped.vals[k]) || Passed(st.ckr.value, st.nr, until, st.dhr, k, mk)
    ensures exists c :: StoredAt(l, r, until, k, mk, c)
  {
    if k in st.skipped.vals && mk == st.skipped.vals[k] {
      var c :| StoredAt(l, r, st.nr, k, mk, c);
      assert StoredAt(l, r, until, k, mk, c);
    } else {
      WalkSum(l.Base(r), st.nr, k.1 - st.nr);
      assert StoredAt(l, r, until, k, mk, r);
    }
  }

  ghost predicate StaysConsumed(l: Ladder, st: State, r: nat, l2: Ladder, st2: State, r2: nat)
    requires l.Valid() && l2.Valid()
  {
    forall c, n :: Consumed(l, st, r, c, n) ==> Consumed(l2, st2, r2, c, n)
  }

  /** Skipping within what the sender has sent keeps the receiver in step. */
  lemma SkipInStep(l: Ladder, st: State, s: nat, r: nat, until: nat)
    requires InStep(l, st, s, r)
    requires r > 0 ==> st.nr <= until <= l.counts[r] && until - st.nr <= MAX_SKIP
    ensures SkipMessageKeys(st, until, st.dhr).Ok?
    ensures var st2 := SkipMessageKeys(st, until, st.dhr).value;
            && InStep(l, st2, s, r)
            && st2.nr == (if r > 0 then until else st.nr)
            && StaysConsumed(l, st, r, l, st2, r)
  {
    if r > 0 && st.nr < until {
      var m := SkipsTo(l, st, s, r, until);
      SkippedInStep(l, st, s, r, until, m);
      SkippedStaysConsumed(l, st, s, r, until, m);
    } else {
      SkipsNothing(l, st, s, r, until);
    }
  }

  /** Whatever a skip leaves in the store was there before or is the key of a message it passed. */
  ghost predicate FromSkip(st: State, until: nat, m: SkippedKeys)
    requires st.ckr.Some?
  {
    forall k :: k in m.vals ==>
      (k in st.skipped.vals && m.vals[k] == st.skipped.vals[k]) || Passed(st.ckr.value, st.nr, until, st.dhr, k, m.vals[k])
  }

  lemma SkipsTo(l: Ladder, st: State, s: nat, r: nat, until: nat) returns (m: SkippedKeys)
    requires InStep(l, st, s, r) && r > 0 && st.nr < until <= l.counts[r] && until - st.nr <= MAX_SKIP
    ensures SkipMessageKeys(st, until, st.dhr) == Ok(Skipped(st, until, m))
    ensures FromSkip(st, until, m) && StoreOk(l, r, until, m)
  {
    forall j | st.nr <= j < until ensures (st.dhr, j) !in st.skipped.vals {
      NothingStoredAhead(l, r, st.nr, st.skipped, j);
    }
    m := SkipResult(st, st.ckr.value, until);
    SkippedStoreOk(l, st, s, r, until, m);
  }

  /** The state after a skip that left the store `m`. */
  function Skipped(st: State, until: nat, m: SkippedKeys): State
    requires st.ckr.Some? && st.nr <= until
  {
    st.(nr := until, ckr := Some(Walk(st.ckr.value, until - st.nr)), skipped := m)
  }

  lemma SkippedInStep(l: Ladder, st: State, s: nat, r: nat, until: nat, m: SkippedKeys)
    requires InStep(l, st, s, r) && r > 0 && st.nr < until <= l.counts[r] && StoreOk(l, r, until, m)
    ensures InStep(l, Skipped(st, until, m), s, r)
  {
    WalkSum(l.Base(r), st.nr, until - st.nr);
  }

  lemma SkippedStaysConsumed(l: Ladder, st: State, s: nat, r: nat, until: nat, m: SkippedKeys)
    requires InStep(l, st, s, r) && r > 0 && st.nr < until <= l.counts[r] && StoreOk(l, r, until, m)
    requires FromSkip(st, until, m)
    ensures StaysConsumed(l, st, r, l, Skipped(st, until, m), r)
  {
  }

  lemma SkipsNothing(l: Ladder, st: State, s: nat, r: nat, until: nat)
    requires InStep(l, st, s, r) && (r == 0 || until <= st.nr)
    ensures SkipMessageKeys(st, until, st.dhr) == Ok(st)
  {
  }

  lemma SkippedStoreOk(l: Ladder, st: State, s: nat, r: nat, until: nat, m: SkippedKeys)
    requires InStep(l, st, s, r) && r > 0 && st.nr < until <= l.counts[r]
    requires m.Valid() && |m.keys| <= MAX_SKIPPED_KEYS
    requires FromSkip(st, until, m)
    ensures StoreOk(l, r, until, m)
  {
    forall k | k in m.vals
      ensures exists c :: StoredAt(l, r, until, k, m.vals[k], c)
    {
      SkippedIsStored(l, st, s, r, until, k, m.vals[k]);
    }
  }

  // ----- opening -------------------------------------------------------------------------

  /** A message whose key was stranded: the key is used up and the chains do not move. */
  lemma OpenStored(l: Ladder, st: State, s: nat, r: nat, c: nat, n: nat, plain: Bytes, kp: KeyId)
    requires InStep(l, st, s, r) && 0 < c < |l.keys|
    requires (l.keys[c], n) in st.skipped.vals
    ensures var (st2, res) := Decrypt(st, Frame(l, c, n, plain), kp);
            && res == Ok(plain)
            && InStep(l, st2, s, r) && st2.dhs == st.dhs
            && StaysConsumed(l, st, r, l, st2, r)
            && Consumed(l, st2, r, c, n)
  {
    var k := (l.keys[c], n);
    var m := st.skipped.Delete(k);
    DeleteValid(st.skipped, k);
    var c2 :| StoredAt(l, r, st.nr, k, st.skipped.vals[k], c2);
    assert c2 == c;
    DeleteShrinks(st.skipped, k);
    forall x | x in m.vals
      ensures exists d :: StoredAt(l, r, st.nr, x, m.vals[x], d)
    {
      var d :| StoredAt(l, r, st.nr, x, st.skipped.vals[x], d);
      assert StoredAt(l, r, st.nr, x, m.vals[x], d);
    }
  }

  lemma DeleteShrinks(m: SkippedKeys, k: (KeyId, int))
    requires m.Valid() && k in m.vals
    ensures |m.Delete(k).keys| <= |m.keys|
    ensures m.Delete(k).vals == m.vals - {k}
  {
    assert k in m.keys;
    var i :| 0 <= i < |m.keys| && m.keys[i] == k;
    DeleteAt(m, i);
  }

  /** The last step of a decrypt: the key at the front of the receive chain is used up. */
  function Commit(st: State): State
    requires st.ckr.Some?
  {
    st.(ckr := Some(NextChainKey(st.ckr.value)), nr := st.nr + 1)
  }

  lemma StoreWidens(l: Ladder, r: nat, nr: nat, nr2: nat, m: SkippedKeys)
    requires l.Valid() && r < |l.keys| && StoreOk(l, r, nr, m) && nr <= nr2
    ensures StoreOk(l, r, nr2, m)
  {
    forall k | k in m.vals ensures exists c :: StoredAt(l, r, nr2, k, m.vals[k], c) {
      var c :| StoredAt(l, r, nr, k, m.vals[k], c);
      assert StoredAt(l, r, nr2, k, m.vals[k], c);
    }
  }

  lemma CommitInStep(l: Ladder, st: State, s: nat, r: nat)
    requires InStep(l, st, s, r) && r > 0 && st.nr < l.counts[r]
    ensures InStep(l, Commit(st), s, r)
    ensures StaysConsumed(l, st, r, l, Commit(st), r)
    ensures Consumed(l, Commit(st), r, r, st.nr)
  {
    StoreWidens(l, r, st.nr, st.nr + 1, st.skipped);
    NothingStoredAhead(l, r, st.nr, st.skipped, st.nr);
  }

  /** The next or a later message of the current receive chain. */
  lemma OpenCurrent(l: Ladder, st: State, s: nat, r: nat, n: nat, plain: Bytes, kp: KeyId)
    requires InStep(l, st, s, r) && r > 0
    requires st.nr <= n < l.counts[r] && n - st.nr <= MAX_SKIP
    ensures var (st2, res) := Decrypt(st, Frame(l, r, n, plain), kp);
            && res == Ok(plain)
            && InStep(l, st2, s, r) && st2.dhs == st.dhs
            && StaysConsumed(l, st, r, l, st2, r)
            && Consumed(l, st2, r, r, n)
  {
    NothingStoredAhead(l, r, st.nr, st.skipped, n);
    SkipInStep(l, st, s, r, n);
    var st1 := SkipMessageKeys(st, n, st.dhr).value;
    CommitInStep(l, st1, s, r);
    assert Decrypt(st, Frame(l, r, n, plain), kp).0 == Commit(st1);
  }

  // ----- ratcheting ----------------------------------------------------------------------

  /** The ladder after its owner steps up to the new key pair `kp`. */
  function Climb(l: Ladder, kp: KeyId): Ladder {
    l.(keys := l.keys + [kp], counts := l.counts + [0])
  }

  lemma ClimbGrows(l: Ladder, kp: KeyId, p: nat)
    requires l.Valid() && kp !in l.keys
    ensures Grows(l, Climb(l, kp), p)
  {
  }

  /** Leaving a rung: everything passed on it stays stored under its final count. */
  lemma StoreLeaves(l: Ladder, r: nat, m: SkippedKeys)
    requires l.Valid() && r + 2 < |l.keys| && StoreOk(l, r, l.counts[r], m)
    ensures StoreOk(l, r + 2, 0, m)
  {
    var next := r + 2;
    forall k | k in m.vals ensures exists c :: StoredAt(l, next, 0, k, m.vals[k], c) {
      var c :| StoredAt(l, r, l.counts[r], k, m.vals[k], c);
      assert StoredAt(l, next, 0, k, m.vals[k], c);
    }
  }

  /** The DH ratchet moves a party two rungs up: it now receives on `r + 2` and sends on the new top. */
  lemma DhRatchetInStep(l: Ladder, st: State, r: nat, kp: KeyId)
    requires InStep(l, st, r + 1, r) && |l.keys| == r + 3 && kp !in l.keys
    requires r > 0 ==> st.nr == l.counts[r]
    ensures var st2 := DhRatchet(st, l.keys[r + 2], kp);
            InStep(Climb(l, kp), st2, r + 3, r + 2) && StaysConsumed(l, st, r, Climb(l, kp), st2, r + 2)
  {
    var l2 := Climb(l, kp);
    var st2 := DhRatchet(st, l.keys[r + 2], kp);
    ClimbGrows(l, kp, 0);
    RootStable(l, l2, r + 1);
    assert l2.RK(r + 2) == Kdf1(l2.RK(r + 1), SharedKey(l2.keys[r + 1], l2.keys[r + 2]));
    assert l2.RK(r + 3) == Kdf1(l2.RK(r + 2), SharedKey(l2.keys[r + 2], l2.keys[r + 3]));
    assert st.nr == l.counts[r];
    StoreStable(l, l2, r, st.nr, st.skipped, 0);
    StoreLeaves(l2, r, st.skipped);
    assert StaysConsumed(l, st, r, l2, st2, r + 2) by {
      forall c, n | Consumed(l, st, r, c, n) ensures Consumed(l2, st2, r + 2, c, n) { }
    }
  }

  /** Ratcheting onto the sender's next chain, up to its message `n`. */
  lemma AdvanceNext(l: Ladder, st: State, r: nat, n: nat, kp: KeyId) returns (st3: State)
    requires InStep(l, st, r + 1, r) && |l.keys| == r + 3 && kp !in l.keys
    requires n <= l.counts[r + 2] && n <= MAX_SKIP && l.counts[r] - st.nr <= MAX_SKIP
    ensures Advance(st, l.HeaderOf(r + 2, n), kp) == Ok(st3)
    ensures InStep(Climb(l, kp), st3, r + 3, r + 2) && st3.dhs == kp && st3.nr == n
    ensures StaysConsumed(l, st, r, Climb(l, kp), st3, r + 2)
  {
    SkipToCount(l, st, r);
    SkipInStep(l, st, r + 1, r, l.counts[r]);
    var st1 := SkipMessageKeys(st, l.counts[r], st.dhr).value;
    DhRatchetInStep(l, st1, r, kp);
    var st2 := DhRatchet(st1, l.keys[r + 2], kp);
    SkipInStep(Climb(l, kp), st2, r + 3, r + 2, n);
    st3 := SkipMessageKeys(st2, n, st2.dhr).value;
  }

  /** The first message seen of the sender's next chain. */
  lemma OpenNext(l: Ladder, st: State, r: nat, n: nat, plain: Bytes, kp: KeyId)
    requires InStep(l, st, r + 1, r) && |l.keys| == r + 3 && kp !in l.keys
    requires n < l.counts[r + 2] && n <= MAX_SKIP && l.counts[r] - st.nr <= MAX_SKIP
    ensures var (st2, res) := Decrypt(st, Frame(l, r + 2, n, plain), kp);
            && res == Ok(plain)
            && InStep(Climb(l, kp), st2, r + 3, r + 2) && st2.dhs == kp
            && StaysConsumed(l, st, r, Climb(l, kp), st2, r + 2)
            && Consumed(Climb(l, kp), st2, r + 2, r + 2, n)
  {
    var st3 := AdvanceNext(l, st, r, n, kp);
    CommitInStep(Climb(l, kp), st3, r + 3, r + 2);
    OpensNext(l, st, r, n, plain, kp, st3);
  }

  /** The key at the advanced position is the one the frame was sealed with. */
  lemma OpensNext(l: Ladder, st: State, r: nat, n: nat, plain: Bytes, kp: KeyId, st3: State)
    requires InStep(l, st, r + 1, r) && |l.keys| == r + 3 && kp !in l.keys
    requires n < l.counts[r + 2] && Advance(st, l.HeaderOf(r + 2, n), kp) == Ok(st3)
    requires InStep(Climb(l, kp), st3, r + 3, r + 2) && st3.nr == n
    ensures Decrypt(st, Frame(l, r + 2, n, plain), kp) == (Commit(st3), Ok(plain))
  {
    NotStoredBeyond(l, r, st.nr, st.skipped, r + 2, n);
    ClimbKeepsKey(l, kp, r + 2, n);
    OpensAtFront(st, l.HeaderOf(r + 2, n), plain, kp, st3);
  }

  lemma ClimbKeepsKey(l: Ladder, kp: KeyId, c: nat, n: nat)
    requires l.Valid() && kp !in l.keys && 0 < c < |l.keys|
    ensures Climb(l, kp).MK(c, n) == l.MK(c, n)
  {
    ClimbGrows(l, kp, 0);
    RootStable(l, Climb(l, kp), c);
  }

  /** What the key at the front of the advanced chain sealed, it opens. */
  lemma OpensAtFront(st: State, h: Header, plain: Bytes, kp: KeyId, st3: State)
    requires (h.dh, h.n) !in st.skipped.vals && Advance(st, h, kp) == Ok(st3) && st3.ckr.Some?
    ensures Decrypt(st, Slot(h, Seal(MessageKey(st3.ckr.value), plain, h)), kp) == (Commit(st3), Ok(plain))
  {
  }

  lemma NotStoredBeyond(l: Ladder, r: nat, nr: nat, m: SkippedKeys, c: nat, n: nat)
    requires l.Valid() && r < c < |l.keys| && StoreOk(l, r, nr, m)
    ensures (l.keys[c], n) !in m.vals
  {
  }

  /** With no chain yet, the wire's `pn` of zero skips nothing either. */
  lemma SkipToCount(l: Ladder, st: State, r: nat)
    requires InStep(l, st, r + 1, r) && r + 2 < |l.keys|
    ensures SkipMessageKeys(st, l.HeaderOf(r + 2, 0).pn, st.dhr) == SkipMessageKeys(st, l.counts[r], st.dhr)
  {
  }
}
