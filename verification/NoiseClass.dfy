/**
 The Noise objects as the program runs them, mutated token by token. Every method
 does what the function of the same name in `Noise` says, including the state
 that a throwing call leaves behind.
 */
module NoiseClass {
  import opened Common
  import opened Symbolic
  import N = Noise

  class CipherState {
    var k: Option<Secret>
    var n: nat

    ghost function View(): N.Cipher
      reads this
    {
      N.Cipher(k, n)
    }

    constructor ()
      ensures View() == N.Cipher(None, 0)
    {
      k, n := None, 0;
    }

    method InitializeKey(key: Option<Secret>)
      modifies this
      ensures View() == N.Cipher(key, 0)
    {
      k := key;
      n := 0;
    }

    method EncryptWithAd(ad: N.Digest, plain: N.Data) returns (ct: N.Data)
      modifies this
      ensures (View(), ct) == N.EncryptWithAd(old(View()), ad, plain)
    {
      if k.None? { return plain; }
      ct := [N.AeadBox(k.value, n, ad, plain)];
      n := n + 1;
    }

    /** A box that does not open leaves the nonce where it was. */
    method DecryptWithAd(ad: N.Digest, ct: N.Data) returns (plain: Option<N.Data>)
      modifies this
      ensures (View(), plain) == N.DecryptWithAd(old(View()), ad, ct)
    {
      if k.None? { return Some(ct); }
      if !(|ct| == 1 && ct[0].AeadBox? && ct[0].key == k.value && ct[0].n == n && ct[0].ad == ad) { return None; }
      n := n + 1;
      plain := Some(ct[0].plain);
    }
  }

  class SymmetricState {
    var ck: Secret
    var h: N.Digest
    const cipher: CipherState

    ghost function View(): N.Sym
      reads this, cipher
    {
      N.Sym(ck, h, cipher.View())
    }

    constructor ()
      ensures fresh(cipher) && View() == N.InitSym
    {
      ck, h := Label(0), N.ProtocolName;
      cipher := new CipherState();
    }

    method MixKey(ikm: Secret)
      modifies this, cipher
      ensures View() == N.MixKey(old(View()), ikm)
    {
      var tempK := Kdf2(ck, ikm);
      ck := Kdf1(ck, ikm);
      cipher.InitializeKey(Some(tempK));
    }

    method MixHash(data: N.Data)
      modifies this
      ensures View() == N.MixHash(old(View()), data)
    {
      h := N.Mix(h, data);
    }

    method EncryptAndHash(plain: N.Data) returns (ct: N.Data)
      modifies this, cipher
      ensures (View(), ct) == N.EncryptAndHash(old(View()), plain)
    {
      ct := cipher.EncryptWithAd(h, plain);
      MixHash(ct);
    }

    method DecryptAndHash(ct: N.Data) returns (plain: Option<N.Data>)
      modifies this, cipher
      ensures (View(), plain) == N.DecryptAndHash(old(View()), ct)
    {
      plain := cipher.DecryptWithAd(h, ct);
      if plain.Some? { MixHash(ct); }
    }

    method Split() returns (c1: CipherState, c2: CipherState)
      ensures fresh(c1) && fresh(c2) && c1 != c2 && (c1.View(), c2.View()) == N.Split(View())
    {
      c1 := new CipherState();
      c2 := new CipherState();
      c1.InitializeKey(Some(Kdf1(ck, Label(2))));
      c2.InitializeKey(Some(Kdf2(ck, Label(2))));
    }
  }

  class HandshakeState {
    const initiator: bool
    const s: KeyId
    const sym: SymmetricState
    var e: Option<KeyId>
    var rs: Option<N.Data>
    var re: Option<N.Data>
    var messageIndex: nat
    var cipherPair: Option<(CipherState, CipherState)>

    ghost predicate Valid()
      reads this, sym
    {
      cipherPair.Some? ==> cipherPair.value.0 != sym.cipher && cipherPair.value.1 != sym.cipher
    }

    ghost function PairObjects(): set<object>
      reads this
    {
      if cipherPair.Some? then {cipherPair.value.0, cipherPair.value.1} else {}
    }

    ghost function View(): N.Hs
      reads this, sym, sym.cipher, PairObjects()
    {
      N.Hs(initiator, s, e, rs, re, sym.View(), messageIndex,
           if cipherPair.Some? then Some((cipherPair.value.0.View(), cipherPair.value.1.View())) else None)
    }

    constructor (initiator: bool, staticKey: KeyId, prologue: N.Data)
      ensures Valid() && fresh(sym) && fresh(sym.cipher) && cipherPair == None
      ensures View() == N.NewHs(initiator, staticKey, prologue)
    {
      this.initiator, this.s := initiator, staticKey;
      e, rs, re, messageIndex, cipherPair := None, None, None, 0, None;
      var y := new SymmetricState();
      y.MixHash(prologue);
      sym := y;
    }

    /** False when the key material is not there, which throws. */
    method MixDH(t: N.Token) returns (ok: bool)
      requires Valid()
      modifies sym, sym.cipher
      ensures Valid() && (View(), ok) == N.MixDh(old(View()), t)
    {
      var dh := None;
      if t == N.EE {
        dh := N.Shared(e, re);
      } else if t == N.ES {
        dh := if initiator then N.Shared(e, rs) else N.Shared(Some(s), re);
      } else if t == N.SE {
        dh := if initiator then N.Shared(Some(s), re) else N.Shared(e, rs);
      }
      if dh.None? { return false; }
      sym.MixKey(dh.value);
      return true;
    }

    method Advance()
      requires Valid()
      modifies this
      ensures Valid() && View() == N.Proceed(old(View()))
      ensures fresh(PairObjects() - old(PairObjects()))
    {
      messageIndex := messageIndex + 1;
      if messageIndex >= |N.PATTERNS| {
        var c1, c2 := sym.Split();
        cipherPair := Some((c1, c2));
      }
    }

    method WriteMessage(payload: N.Data, kp: KeyId) returns (m: Option<N.Data>)
      requires Valid()
      modifies this, sym, sym.cipher
      ensures Valid() && (View(), m) == N.WriteMessage(old(View()), payload, kp)
      ensures fresh(PairObjects() - old(PairObjects()))
    {
      if messageIndex >= |N.PATTERNS| { return None; }
      var ts := N.PATTERNS[messageIndex];
      var parts: N.Data := [];
      var i := 0;
      RestStart(N.WriteTokens(View(), ts, kp));
      assert ts[0..] == ts;
      while i < |ts|
        invariant 0 <= i <= |ts|
        invariant Valid() && cipherPair == old(cipherPair) && messageIndex == old(messageIndex)
        invariant ts == N.PATTERNS[messageIndex]
        invariant Rest(N.WriteTokens(old(View()), ts, kp), parts, N.WriteTokens(View(), ts[i..], kp))
      {
        var t := ts[i];
        RestStep(N.WriteTokens(old(View()), ts, kp), parts, View(), ts[i..], kp);
        assert ts[i..][1..] == ts[i + 1..];
        if t == N.E {
          e := Some(kp);
          parts := parts + [N.PubKey(kp)];
          sym.MixHash([N.PubKey(kp)]);
        } else if t == N.S {
          var ct := sym.EncryptAndHash([N.PubKey(s)]);
          parts := parts + ct;
        } else {
          var ok := MixDH(t);
          if !ok { return None; }
          assert parts + [] == parts;
        }
        i := i + 1;
      }
      assert parts + [] == parts;
      var ct := sym.EncryptAndHash(payload);
      Advance();
      m := Some(parts + ct);
    }

    /** The whole token loop comes to what is already out followed by what the rest of it does. */
    static ghost predicate Rest(all: (N.Hs, Option<N.Data>), parts: N.Data, rest: (N.Hs, Option<N.Data>)) {
      all == (rest.0, if rest.1.None? then None else Some(parts + rest.1.value))
    }

    static lemma RestStart(all: (N.Hs, Option<N.Data>))
      ensures Rest(all, [], all)
    {
      if all.1.Some? { assert [] + all.1.value == all.1.value; }
    }

    /** Taking one more token out of the rest. */
    static lemma RestStep(all: (N.Hs, Option<N.Data>), parts: N.Data, hs: N.Hs, ts: seq<N.Token>, kp: KeyId)
      requires ts != [] && Rest(all, parts, N.WriteTokens(hs, ts, kp))
      ensures var (hs1, part) := N.WriteToken(hs, ts[0], kp);
              if part.None? then all == (hs1, None)
              else Rest(all, parts + part.value, N.WriteTokens(hs1, ts[1..], kp))
    {
      var (hs1, part) := N.WriteToken(hs, ts[0], kp);
      if part.Some? {
        var tail := N.WriteTokens(hs1, ts[1..], kp).1;
        if tail.Some? { assert parts + (part.value + tail.value) == parts + part.value + tail.value; }
      }
    }

    /** One token of the message: what is left of it behind the token, or `None` if it threw. */
    method ReadToken(t: N.Token, left: N.Data) returns (behind: Option<N.Data>)
      requires Valid()
      modifies this, sym, sym.cipher
      ensures Valid() && cipherPair == old(cipherPair) && messageIndex == old(messageIndex)
      ensures (View(), behind) == N.ReadToken(old(View()), t, left)
    {
      if t == N.E {
        var (key, rest) := N.Slice(left, N.DHLEN);
        re := Some(key);
        sym.MixHash(key);
        return Some(rest);
      } else if t == N.S {
        var len := N.DHLEN + (if sym.cipher.k.Some? then N.TAG_LENGTH else 0);
        var (ct, rest) := N.Slice(left, len);
        var key := sym.DecryptAndHash(ct);
        if key.None? { return None; }
        rs := key;
        return Some(rest);
      } else {
        var ok := MixDH(t);
        if !ok { return None; }
        return Some(left);
      }
    }

    method ReadMessage(message: N.Data) returns (payload: Option<N.Data>)
      requires Valid()
      modifies this, sym, sym.cipher
      ensures Valid() && (View(), payload) == N.ReadMessage(old(View()), message)
      ensures fresh(PairObjects() - old(PairObjects()))
    {
      if messageIndex >= |N.PATTERNS| { return None; }
      var ts := N.PATTERNS[messageIndex];
      var left := message;
      var i := 0;
      while i < |ts|
        invariant 0 <= i <= |ts|
        invariant Valid() && cipherPair == old(cipherPair) && messageIndex == old(messageIndex)
        invariant ts == N.PATTERNS[messageIndex]
        invariant N.ReadTokens(old(View()), ts, message) == N.ReadTokens(View(), ts[i..], left)
      {
        assert ts[i..][1..] == ts[i + 1..];
        var rest := ReadToken(ts[i], left);
        if rest.None? { return None; }
        left := rest.value;
        i := i + 1;
      }
      payload := sym.DecryptAndHash(left);
      if payload.None? { return; }
      Advance();
    }
  }
}
