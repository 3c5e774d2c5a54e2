/** What a successful read or write of messages 2 and 3 says about the running hash. */
module HandshakeShapes {
  import opened Common
  import opened Symbolic
  import opened Noise
  import opened NoiseProof

  /** The plaintext of the box hashed in last. */
  function LastBox(h: Digest): Option<Data> {
    if h.Mix? && |h.data| == 1 && h.data[0].AeadBox? then Some(h.data[0].plain) else None
  }

  /** The plaintext of the box hashed in last but one. */
  function BoxBefore(h: Digest): Option<Data> {
    if h.Mix? then LastBox(h.h) else None
  }

  /** A run of tokens that was read to its end read its first token. */
  lemma ReadOne(hs: Hs, t: Token, ts: seq<Token>, m: Data)
    requires ReadTokens(hs, [t] + ts, m).1.Some?
    ensures ReadToken(hs, t, m).1.Some?
    ensures ReadTokens(hs, [t] + ts, m) == ReadTokens(ReadToken(hs, t, m).0, ts, ReadToken(hs, t, m).1.value)
  {
    assert ([t] + ts)[1..] == ts;
  }

  /** Opening with a key means there was a box, under the current hash, and hashes the box in. */
  lemma OpenedBox(s: Sym, ct: Data)
    requires s.cipher.k.Some? && DecryptAndHash(s, ct).1.Some?
    ensures |ct| == 1 && ct[0].AeadBox? && ct[0].ad == s.h && ct[0].key == s.cipher.k.value
    ensures DecryptAndHash(s, ct).1 == Some(ct[0].plain)
    ensures DecryptAndHash(s, ct).0.h == Mix(s.h, ct) && DecryptAndHash(s, ct).0.ck == s.ck
    ensures DecryptAndHash(s, ct).0.cipher.k.Some?
  {
  }

  /** After reading message 2 the last two boxes hold the static key and the payload. */
  lemma ReadTwoShape(hs: Hs, m: Data)
    requires hs.index == 1 && ReadMessage(hs, m).1.Some?
    ensures var (hs2, payload) := ReadMessage(hs, m);
            && hs2.index == 2 && hs2.s == hs.s && hs2.initiator == hs.initiator && hs2.pair == hs.pair
            && LastBox(hs2.sym.h) == payload && BoxBefore(hs2.sym.h).Some? && hs2.rs == BoxBefore(hs2.sym.h)
            && hs2.sym.cipher.k.Some?
  {
    assert PATTERNS[1] == [E] + ([EE] + ([S] + [ES]));
    var (a, m1) := ReadToken(hs, E, m);
    ReadOne(hs, E, [EE] + ([S] + [ES]), m);
    ReadOne(a, EE, [S] + [ES], m1.value);
    var b := ReadToken(a, EE, m1.value).0;
    ReadTwoTail(b, m1.value);
    ReadTokensKeys(hs, PATTERNS[1], m);
  }

  /** The rest of message 2, from the static key on. */
  lemma ReadTwoTail(b: Hs, m1: Data)
    requires b.sym.cipher.k.Some? && ReadTokens(b, [S] + [ES], m1).1.Some?
    requires var (d, rest) := ReadTokens(b, [S] + [ES], m1); DecryptAndHash(d.sym, rest.value).1.Some?
    ensures var (d, rest) := ReadTokens(b, [S] + [ES], m1);
            var (sym, payload) := DecryptAndHash(d.sym, rest.value);
            && LastBox(sym.h) == payload && BoxBefore(sym.h).Some? && d.rs == BoxBefore(sym.h)
            && sym.cipher.k.Some?
  {
    ReadOne(b, S, [ES], m1);
    var (c, m2) := ReadToken(b, S, m1);
    OpenedBox(b.sym, Slice(m1, DHLEN + TAG_LENGTH).0);
    assert [ES] == [ES] + [];
    ReadOne(c, ES, [], m2.value);
    var d := ReadToken(c, ES, m2.value).0;
    OpenedBox(d.sym, m2.value);
  }

  /** Message 2 as its writer leaves it: the same two boxes on top. */
  lemma WriteTwoShape(hs: Hs, payload: Data, kp: KeyId)
    requires hs.index == 1 && WriteMessage(hs, payload, kp).1.Some?
    ensures var hs2 := WriteMessage(hs, payload, kp).0;
            && hs2.index == 2 && hs2.s == hs.s && hs2.initiator == hs.initiator && hs2.pair == hs.pair
            && LastBox(hs2.sym.h) == Some(payload) && BoxBefore(hs2.sym.h) == Some([PubKey(hs.s)])
            && hs2.sym.cipher.k.Some?
  {
    assert PATTERNS[1] == [E] + ([EE] + ([S] + ([ES] + [])));
    WroteOne(hs, E, [EE] + ([S] + ([ES] + [])), kp);
    var a := WriteToken(hs, E, kp).0;
    WroteOne(a, EE, [S] + ([ES] + []), kp);
    var b := WriteToken(a, EE, kp).0;
    WroteOne(b, S, [ES] + [], kp);
    var c := WriteToken(b, S, kp).0;
    WroteOne(c, ES, [], kp);
    WriteTokensKeys(hs, PATTERNS[1], kp);
  }

  lemma WroteOne(hs: Hs, t: Token, ts: seq<Token>, kp: KeyId)
    requires WriteTokens(hs, [t] + ts, kp).1.Some?
    ensures WriteToken(hs, t, kp).1.Some? && WriteTokens(WriteToken(hs, t, kp).0, ts, kp).1.Some?
    ensures WriteTokens(hs, [t] + ts, kp).0 == WriteTokens(WriteToken(hs, t, kp).0, ts, kp).0
    ensures WriteTokens(hs, [t] + ts, kp).1.value
         == WriteToken(hs, t, kp).1.value + WriteTokens(WriteToken(hs, t, kp).0, ts, kp).1.value
  {
    assert ([t] + ts)[1..] == ts;
  }

  /** `m` is message 3 out of the state with hash `h` and chaining key `ck`, into `h3` and `ck3`. */
  ghost predicate ThirdMessage(m: Data, h: Digest, ck: Secret, h3: Digest, ck3: Secret) {
    && |m| == 2 && m[0].AeadBox? && m[1].AeadBox?
    && m[0].ad == h && m[1].ad == Mix(h, [m[0]])
    && h3 == Mix(Mix(h, [m[0]]), [m[1]])
    && m[1].key.Kdf2? && ck == m[1].key.salt && ck3 == Kdf1(m[1].key.salt, m[1].key.ikm)
  }

  lemma WriteThreeShape(hs: Hs, payload: Data, kp: KeyId)
    requires hs.index == 2 && hs.sym.cipher.k.Some? && WriteMessage(hs, payload, kp).1.Some?
    ensures var (hs2, m) := WriteMessage(hs, payload, kp);
            && hs2.index == 3 && hs2.s == hs.s && hs2.initiator == hs.initiator && hs2.pair.Some? && hs2.rs == hs.rs
            && ThirdMessage(m.value, hs.sym.h, hs.sym.ck, hs2.sym.h, hs2.sym.ck)
            && m.value[0].plain == [PubKey(hs.s)] && m.value[1].plain == payload
  {
    assert PATTERNS[2] == [S] + ([SE] + []);
    WroteOne(hs, S, [SE] + [], kp);
    var a := WriteToken(hs, S, kp).0;
    WroteOne(a, SE, [], kp);
    var b := WriteToken(a, SE, kp).0;
    assert WriteTokens(b, [], kp) == (b, Some([]));
    var m := WriteMessage(hs, payload, kp).1.value;
    assert m == [m[0]] + ([] + []) + [m[1]];
    WriteTokensKeys(hs, PATTERNS[2], kp);
  }

  /** Reading two boxes as message 3 succeeds only under the hash and key they were made with. */
  lemma ReadThreeShape(hs: Hs, m: Data)
    requires hs.index == 2 && hs.sym.cipher.k.Some?
    requires |m| == 2 && m[0].AeadBox? && AtomLen(m[0]) == DHLEN + TAG_LENGTH
    requires ReadMessage(hs, m).1.Some?
    ensures var (hs2, payload) := ReadMessage(hs, m);
            && hs2.index == 3 && hs2.s == hs.s && hs2.initiator == hs.initiator && hs2.pair.Some?
            && ThirdMessage(m, hs.sym.h, hs.sym.ck, hs2.sym.h, hs2.sym.ck)
            && hs2.rs == Some(m[0].plain) && payload == Some(m[1].plain)
  {
    assert PATTERNS[2] == [S] + ([SE] + []);
    assert m == [m[0]] + [m[1]];
    SliceWhole(m[0], [m[1]], DHLEN + TAG_LENGTH);
    ReadOne(hs, S, [SE] + [], m);
    OpenedBox(hs.sym, [m[0]]);
    var a := ReadToken(hs, S, m).0;
    ReadOne(a, SE, [], [m[1]]);
    var b := ReadToken(a, SE, [m[1]]).0;
    OpenedBox(b.sym, [m[1]]);
    ReadTokensKeys(hs, PATTERNS[2], m);
  }
}
