/** The converse: a frame that opens is a message of the ladder, in one of three places. */
module RatchetAuthentic {
  import opened Common
  import opened OrderedMap
  import opened Symbolic
  import opened DoubleRatchet
  import opened RatchetLadder
  import opened RatchetSkip
  import opened RatchetReceive

  /** The chain a header names, and how far along it the header points. */
  lemma AdvanceKey(l: Ladder, st: State, s: nat, r: nat, h: Header, kp: KeyId)
    requires InStep(l, st, s, r)
    requires Advance(st, h, kp).Ok? && Advance(st, h, kp).value.ckr.Some?
    ensures h.dh == st.dhr ==>
              && r > 0 && h.n - st.nr <= MAX_SKIP
              && Advance(st, h, kp).value.ckr.value == Walk(l.Base(r), Max(st.nr, h.n))
    ensures h.dh != st.dhr ==>
              && (r > 0 ==> h.pn - st.nr <= MAX_SKIP) && h.n <= MAX_SKIP
              && Advance(st, h, kp).value.ckr.value == Walk(Kdf2(st.rk, SharedKey(st.dhs, h.dh)), Max(0, h.n))
  {
    if h.dh == st.dhr {
      SkipKey(st, h.n, h.dh);
      WalkSum(l.Base(r), st.nr, Max(st.nr, h.n) - st.nr);
    } else {
      SkipKey(st, h.pn, st.dhr);
      var st1 := SkipMessageKeys(st, h.pn, st.dhr).value;
      var st2 := DhRatchet(st1, h.dh, kp);
      SkipKey(st2, h.n, h.dh);
    }
  }

  lemma SkipKey(st: State, until: int, dh: KeyId)
    requires SkipMessageKeys(st, until, dh).Ok?
    ensures var st2 := SkipMessageKeys(st, until, dh).value;
            && st2 == st.(nr := st2.nr, ckr := st2.ckr, skipped := st2.skipped)
            && (st.ckr.None? ==> st2 == st)
            && (st.ckr.Some? ==> until - st.nr <= MAX_SKIP)
            && (st.ckr.Some? ==> st2.ckr == Some(Walk(st.ckr.value, Max(st.nr, until) - st.nr)))
  {
    if st.ckr.Some? && st.nr < until {
      SkipChainKey(st.ckr.value, st.nr, until, dh, st.skipped);
    }
  }

  /** What a frame that opens must have been sealed with. */
  lemma OpenedKey(st: State, slot: Slot, kp: KeyId)
    requires Decrypt(st, slot, kp).1.Ok?
    ensures slot.Slot? && slot.ct.Sealed? && slot.ct.ad == slot.h
    ensures Decrypt(st, slot, kp).1 == Ok(slot.ct.plain)
    ensures if (slot.h.dh, slot.h.n) in st.skipped.vals
            then st.skipped.vals[(slot.h.dh, slot.h.n)] == slot.ct.key
            else && Advance(st, slot.h, kp).Ok? && Advance(st, slot.h, kp).value.ckr.Some?
                 && slot.ct.key == MessageKey(Advance(st, slot.h, kp).value.ckr.value)
  {
  }

  /** More than a hundred keys would have to be skipped, on the chain at hand or on the one the frame announces. */
  predicate SkipsTooMuch(st: State, h: Header) {
    if h.dh == st.dhr then st.ckr.Some? && h.n - st.nr > 100
    else (st.ckr.Some? && h.pn - st.nr > 100) || h.n > 100
  }

  /** Which error a frame is refused with, in any state whatever; and a refused frame changes nothing. */
  lemma RefusedExactly(st: State, slot: Slot, kp: KeyId)
    ensures var (st2, res) := Decrypt(st, slot, kp);
            && (res.Err? ==> st2 == st)
            && (res == Err(BadEncoding) <==> slot.Malformed?)
            && (slot.Slot? ==>
                  var stored := (slot.h.dh, slot.h.n) in st.skipped.vals;
                  && (res == Err(SkipLimitExceeded) <==> !stored && SkipsTooMuch(st, slot.h))
                  && (res == Err(NoRecvChain) <==> !stored && slot.h.dh == st.dhr && st.ckr.None?))
  {
  }

  lemma StoredDerived(l: Ladder, c: nat, n: nat)
    requires 0 < c < |l.keys|
    ensures Derived(l.MK(c, n), l.root)
  {
    RootHeight(l, c - 1);
    WalkDerived(l.Base(c), n, l.root);
  }

  /** Only a key derived from the session root ever opens a frame. */
  lemma OpenedDerived(l: Ladder, st: State, s: nat, r: nat, slot: Slot, kp: KeyId)
    requires InStep(l, st, s, r) && Decrypt(st, slot, kp).1.Ok?
    ensures slot.Slot? && slot.ct.Sealed? && slot.ct.ad == slot.h && Derived(slot.ct.key, l.root)
  {
    OpenedKey(st, slot, kp);
    var k := (slot.h.dh, slot.h.n);
    if k in st.skipped.vals {
      var c :| StoredAt(l, r, st.nr, k, st.skipped.vals[k], c);
      StoredDerived(l, c, slot.h.n);
    } else {
      AdvanceKey(l, st, s, r, slot.h, kp);
      RootHeight(l, if s > r then s else r);
      if slot.h.dh == st.dhr {
        StoredDerived(l, r, Max(st.nr, slot.h.n));
      } else {
        WalkDerived(Kdf2(st.rk, SharedKey(st.dhs, slot.h.dh)), Max(0, slot.h.n), l.root);
      }
    }
  }

  /** Message `n` of rung `c` is within reach of this party. */
  ghost predicate Reachable(l: Ladder, st: State, r: nat, c: nat, n: nat)
    requires l.Valid() && r < |l.keys| && 0 < c < |l.keys|
  {
    && c % 2 == r % 2
    && (|| (l.keys[c], n) in st.skipped.vals
        || (c == r && st.nr <= n && n - st.nr <= MAX_SKIP)
        || (c == r + 2 && l.counts[r] - st.nr <= MAX_SKIP && n <= MAX_SKIP))
  }

  /** The party can see at most one rung above its own. */
  ghost predicate NearTop(l: Ladder, s: nat) {
    |l.keys| <= s + 2
  }

  lemma OpensOnlyIfReachable(l: Ladder, st: State, s: nat, r: nat, c: nat, n: nat, plain: Bytes, kp: KeyId)
    requires InStep(l, st, s, r) && NearTop(l, s)
    requires 0 < c < |l.keys| && n < l.counts[c]
    requires Decrypt(st, Frame(l, c, n, plain), kp).1.Ok?
    ensures Reachable(l, st, r, c, n)
  {
    var f, k := Frame(l, c, n, plain), (l.keys[c], n);
    OpenedKey(st, f, kp);
    if k in st.skipped.vals {
      StoredReachable(l, st, s, r, c, n);
    } else {
      AdvanceKey(l, st, s, r, f.h, kp);
      if f.h.dh == st.dhr {
        CurrentReachable(l, st, s, r, c, n);
      } else {
        NextReachable(l, st, s, r, c, n);
      }
    }
  }

  lemma StoredReachable(l: Ladder, st: State, s: nat, r: nat, c: nat, n: nat)
    requires InStep(l, st, s, r) && 0 < c < |l.keys| && (l.keys[c], n) in st.skipped.vals
    ensures Reachable(l, st, r, c, n)
  {
    var k := (l.keys[c], n);
    var c2 :| StoredAt(l, r, st.nr, k, st.skipped.vals[k], c2);
  }

  lemma CurrentReachable(l: Ladder, st: State, s: nat, r: nat, c: nat, n: nat)
    requires InStep(l, st, s, r) && 0 < c < |l.keys| && 0 < r && n - st.nr <= MAX_SKIP
    requires l.MK(c, n) == MessageKey(Walk(l.Base(r), Max(st.nr, n)))
    ensures Reachable(l, st, r, c, n)
  {
    MessageKeysDistinct(l, r, Max(st.nr, n), c, n);
  }

  /** The two DH inputs name the chain: it is the one right above the party's own. */
  lemma NextReachable(l: Ladder, st: State, s: nat, r: nat, c: nat, n: nat)
    requires InStep(l, st, s, r) && NearTop(l, s) && 0 < c < |l.keys| && l.keys[c] != st.dhr
    requires (r > 0 ==> l.HeaderOf(c, n).pn - st.nr <= MAX_SKIP) && n <= MAX_SKIP
    requires l.MK(c, n) == MessageKey(Walk(Kdf2(st.rk, SharedKey(st.dhs, l.keys[c])), n))
    ensures Reachable(l, st, r, c, n)
  {
    var own := if s > r then s else r;
    WalkInjective(Kdf2(st.rk, SharedKey(st.dhs, l.keys[c])), l.Base(c), n, n);
    RootHeight(l, own);
    RootHeight(l, c - 1);
    assert l.RK(own) == l.RK(c - 1);
    assert c == own + 1;
  }

  /**
   The exact condition: a genuine frame opens, to exactly what was sealed in it,
   if and only if it is within reach; and either way the party is left in step.
   */
  lemma OpensIffReachable(l: Ladder, st: State, s: nat, r: nat, c: nat, n: nat, plain: Bytes, kp: KeyId)
    requires InStep(l, st, s, r) && NearTop(l, s)
    requires 0 < c < |l.keys| && n < l.counts[c] && kp !in l.keys
    ensures var res := Decrypt(st, Frame(l, c, n, plain), kp).1;
            && (res.Ok? <==> Reachable(l, st, r, c, n))
            && (res.Ok? ==> res.value == plain)
  {
    var f := Frame(l, c, n, plain);
    if Reachable(l, st, r, c, n) {
      if (l.keys[c], n) in st.skipped.vals {
        OpenStored(l, st, s, r, c, n, plain, kp);
      } else if c == r {
        OpenCurrent(l, st, s, r, n, plain, kp);
      } else {
        OpenNext(l, st, r, n, plain, kp);
      }
    } else if Decrypt(st, f, kp).1.Ok? {
      OpensOnlyIfReachable(l, st, s, r, c, n, plain, kp);
      assert false;
    }
  }

  /** What a party consumed stays shut. */
  lemma ConsumedUnreachable(l: Ladder, st: State, s: nat, r: nat, c: nat, n: nat)
    requires InStep(l, st, s, r) && Consumed(l, st, r, c, n)
    ensures !Reachable(l, st, r, c, n)
  {
  }
}
