/**
 The ratchet as the program runs it: a mutable state record, updated in place by
 loops, and a session object that works on a clone of the record and swaps it in
 only once the frame has authenticated. Every method is proved to do exactly
 what the function of the same name in `DoubleRatchet` says.
 */
module DoubleRatchetClass {
  import opened Common
  import opened OrderedMap
  import opened Symbolic
  import Spec = DoubleRatchet

  class DRState {
    var RK: Secret
    var CKs: Option<Secret>
    var CKr: Option<Secret>
    var DHs: KeyId
    var DHr: KeyId
    var Ns: nat
    var Nr: nat
    var PN: nat
    var MKSKIPPED: Spec.SkippedKeys

    ghost function View(): Spec.State
      reads this
    {
      Spec.State(RK, CKs, CKr, DHs, DHr, Ns, Nr, PN, MKSKIPPED)
    }

    constructor (rk: Secret, cks: Option<Secret>, ckr: Option<Secret>, dhs: KeyId, dhr: KeyId)
      ensures View() == Spec.State(rk, cks, ckr, dhs, dhr, 0, 0, 0, Empty())
    {
      RK, CKs, CKr, DHs, DHr := rk, cks, ckr, dhs, dhr;
      Ns, Nr, PN, MKSKIPPED := 0, 0, 0, Empty();
    }

    constructor Clone(s: DRState)
      ensures View() == s.View()
    {
      RK, CKs, CKr, DHs, DHr := s.RK, s.CKs, s.CKr, s.DHs, s.DHr;
      Ns, Nr, PN, MKSKIPPED := s.Ns, s.Nr, s.PN, s.MKSKIPPED;
    }

    method DhRatchet(newDHr: KeyId, kp: KeyId)
      modifies this
      ensures View() == Spec.DhRatchet(old(View()), newDHr, kp)
    {
      PN := Ns;
      Ns := 0;
      Nr := 0;
      DHr := newDHr;
      var (rk1, ckr) := Spec.KdfRK(RK, SharedKey(DHs, newDHr));
      var (rk2, cks) := Spec.KdfRK(rk1, SharedKey(kp, newDHr));
      RK := rk2;
      CKr := Some(ckr);
      CKs := Some(cks);
      DHs := kp;
    }

    /** Evicts the oldest stored keys until the cap holds again. */
    method EvictOldest()
      modifies `MKSKIPPED
      ensures MKSKIPPED == Spec.Evict(old(MKSKIPPED))
    {
      while |MKSKIPPED.keys| > Spec.MAX_SKIPPED_KEYS
        invariant Spec.Evict(MKSKIPPED) == Spec.Evict(old(MKSKIPPED))
        decreases |MKSKIPPED.keys|
      {
        var oldest := MKSKIPPED.keys[0];
        if oldest !in MKSKIPPED.vals { break; }
        MKSKIPPED := MKSKIPPED.Delete(oldest);
      }
    }

    method SkipMessageKeys(until: int, dhPub: KeyId) returns (r: Result<(), Spec.DrError>)
      modifies this
      ensures r.Ok? <==> Spec.SkipMessageKeys(old(View()), until, dhPub).Ok?
      ensures r.Ok? ==> Spec.SkipMessageKeys(old(View()), until, dhPub) == Ok(View())
      ensures r.Err? ==> Spec.SkipMessageKeys(old(View()), until, dhPub) == Err(r.error) && View() == old(View())
    {
      if CKr.None? || Nr >= until { return Ok(()); }
      if until - Nr > Spec.MAX_SKIP { return Err(Spec.SkipLimitExceeded); }
      var ck := CKr.value;
      ghost var ck0, nr0, m0 := ck, Nr, MKSKIPPED;
      while Nr < until
        invariant Nr <= until
        invariant Spec.SkipChain(ck, Nr, until, dhPub, MKSKIPPED) == Spec.SkipChain(ck0, nr0, until, dhPub, m0)
        invariant View() == old(View()).(nr := Nr, skipped := MKSKIPPED)
      {
        var mk, newCK := Spec.MessageKey(ck), Spec.NextChainKey(ck);
        MKSKIPPED := MKSKIPPED.Set((dhPub, Nr), mk);
        EvictOldest();
        ck := newCK;
        Nr := Nr + 1;
      }
      CKr := Some(ck);
      return Ok(());
    }
  }

  class DoubleRatchet {
    var s: DRState

    ghost function View(): Spec.State
      reads this, s
    {
      s.View()
    }

    constructor InitAlice(chainKey: Secret, own: KeyId, remote: KeyId)
      ensures fresh(s) && View() == Spec.InitAlice(chainKey, own, remote)
    {
      var (rk, cks) := Spec.KdfRK(chainKey, SharedKey(own, remote));
      s := new DRState(rk, Some(cks), None, own, remote);
    }

    constructor InitBob(chainKey: Secret, own: KeyId, remote: KeyId)
      ensures fresh(s) && View() == Spec.InitBob(chainKey, own, remote)
    {
      var (rk, ckr) := Spec.KdfRK(chainKey, SharedKey(own, remote));
      s := new DRState(rk, None, Some(ckr), own, remote);
    }

    /** `kp` is the key pair the call would generate if it needs one. */
    method Encrypt(plain: Bytes, kp: KeyId) returns (slot: Spec.Slot)
      modifies this, s
      ensures s == old(s)
      ensures (View(), slot) == Spec.Encrypt(old(View()), plain, kp)
    {
      if s.CKs.None? {
        var (newRK, newCKs) := Spec.KdfRK(s.RK, SharedKey(kp, s.DHr));
        s.PN := s.Ns;
        s.Ns := 0;
        s.DHs := kp;
        s.RK := newRK;
        s.CKs := Some(newCKs);
      }
      var mk := Spec.MessageKey(s.CKs.value);
      s.CKs := Some(Spec.NextChainKey(s.CKs.value));
      var h := Spec.Header(s.DHs, s.Ns, s.PN);
      s.Ns := s.Ns + 1;
      slot := Spec.Slot(h, Spec.Seal(mk, plain, h));
    }

    /** A throwing call leaves both the session and the record it points to untouched. */
    method Decrypt(slot: Spec.Slot, kp: KeyId) returns (r: Result<Bytes, Spec.DrError>)
      modifies this
      ensures (View(), r) == Spec.Decrypt(old(View()), slot, kp)
      ensures unchanged(old(s))
      ensures r.Err? ==> s == old(s)
      ensures r.Ok? ==> fresh(s)
    {
      if slot.Malformed? { return Err(Spec.BadEncoding); }
      var h, ct := slot.h, slot.ct;
      var next := new DRState.Clone(s);
      if (h.dh, h.n) in next.MKSKIPPED.vals {
        var plain := Spec.Open(next.MKSKIPPED.vals[(h.dh, h.n)], ct, h);
        if plain.None? { return Err(Spec.DecryptFailed); }
        next.MKSKIPPED := next.MKSKIPPED.Delete((h.dh, h.n));
        s := next;
        return Ok(plain.value);
      }
      if h.dh != next.DHr {
        var skipped := next.SkipMessageKeys(h.pn, next.DHr);
        if skipped.Err? { return Err(skipped.error); }
        next.DhRatchet(h.dh, kp);
      }
      var ahead := next.SkipMessageKeys(h.n, h.dh);
      if ahead.Err? { return Err(ahead.error); }
      if next.CKr.None? { return Err(Spec.NoRecvChain); }
      var mk := Spec.MessageKey(next.CKr.value);
      next.CKr := Some(Spec.NextChainKey(next.CKr.value));
      next.Nr := next.Nr + 1;
      var plain := Spec.Open(mk, ct, h);
      if plain.None? { return Err(Spec.DecryptFailed); }
      s := next;
      return Ok(plain.value);
    }
  }
}
