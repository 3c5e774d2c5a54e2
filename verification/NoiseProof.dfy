/** Two sides of a Noise XX handshake stay equal, token by token, or fail. */
module NoiseProof {
  import opened Common
  import opened Symbolic
  import opened Noise

  // ----- slices --------------------------------------------------------------------------

  lemma SliceWhole(a: Atom, rest: Data, n: nat)
    requires n == AtomLen(a) && n > 0
    ensures Slice([a] + rest, n) == ([a], rest)
  {
    assert ([a] + rest)[1..] == rest;
    assert [a] + [] == [a];
  }

  lemma SealedKeyLen(k: Secret, n: nat, ad: Digest, id: KeyId)
    ensures AtomLen(AeadBox(k, n, ad, [PubKey(id)])) == DHLEN + TAG_LENGTH
  {
    assert Len([PubKey(id)]) == DHLEN + Len([]);
  }

  // ----- agreement -----------------------------------------------------------------------

  /** Opposite roles, equal symmetric states, and what each holds of the other is the other's. */
  ghost predicate Agree(a: Hs, b: Hs) {
    && a.initiator != b.initiator && a.index == b.index && a.sym == b.sym && a.pair == b.pair
    && (a.re.Some? ==> b.e.Some? && a.re.value == [PubKey(b.e.value)])
    && (b.re.Some? ==> a.e.Some? && b.re.value == [PubKey(a.e.value)])
    && (a.rs.Some? ==> a.rs.value == [PubKey(b.s)])
    && (b.rs.Some? ==> b.rs.value == [PubKey(a.s)])
  }

  /** Both sides hold the keys the DH of token `t` needs. */
  ghost predicate DhReady(a: Hs, b: Hs, t: Token) {
    var (i, r) := if a.initiator then (a, b) else (b, a);
    match t
    case EE => a.e.Some? && b.e.Some? && a.re.Some? && b.re.Some?
    case ES => i.e.Some? && i.rs.Some? && r.re.Some?
    case SE => i.re.Some? && r.e.Some? && r.rs.Some?
    case _ => true
  }

  lemma DhAgrees(a: Hs, b: Hs, t: Token)
    requires Agree(a, b) && DhReady(a, b, t) && t !in {E, S}
    ensures TokenDh(a, t).Some? && TokenDh(a, t) == TokenDh(b, t)
  {
  }

  /** Writing a token on one side and reading it on the other keeps the two sides equal. */
  lemma TokenAgrees(w: Hs, r: Hs, t: Token, kp: KeyId, rest: Data)
    requires Agree(w, r) && DhReady(w, r, t)
    ensures WriteToken(w, t, kp).1.Some?
    ensures ReadToken(r, t, WriteToken(w, t, kp).1.value + rest).1 == Some(rest)
    ensures Agree(WriteToken(w, t, kp).0, ReadToken(r, t, WriteToken(w, t, kp).1.value + rest).0)
  {
    match t {
      case E => SliceWhole(PubKey(kp), rest, DHLEN);
      case S =>
        var ct := WriteToken(w, S, kp).1.value;
        if w.sym.cipher.k.Some? {
          SealedKeyLen(w.sym.cipher.k.value, w.sym.cipher.n, w.sym.h, w.s);
        }
        SliceWhole(ct[0], rest, DHLEN + (if w.sym.cipher.k.Some? then TAG_LENGTH else 0));
        assert ct == [ct[0]];
      case EE => DhAgrees(w, r, EE); assert [] + rest == rest;
      case ES => DhAgrees(w, r, ES); assert [] + rest == rest;
      case SE => DhAgrees(w, r, SE); assert [] + rest == rest;
    }
  }

  /** The keys each token needs are there when its turn comes. */
  ghost predicate AllReady(w: Hs, r: Hs, ts: seq<Token>, kp: KeyId)
    decreases |ts|
  {
    ts == [] ||
    (&& DhReady(w, r, ts[0])
     && (WriteToken(w, ts[0], kp).1.Some? ==>
           AllReady(WriteToken(w, ts[0], kp).0, ReadToken(r, ts[0], WriteToken(w, ts[0], kp).1.value).0, ts[1..], kp)))
  }

  /** What is read does not depend on what follows it on the wire. */
  lemma ReadTokenLocal(w: Hs, r: Hs, t: Token, kp: KeyId, rest: Data)
    requires Agree(w, r) && DhReady(w, r, t)
    ensures WriteToken(w, t, kp).1.Some?
    ensures ReadToken(r, t, WriteToken(w, t, kp).1.value + rest).0 == ReadToken(r, t, WriteToken(w, t, kp).1.value).0
  {
    TokenAgrees(w, r, t, kp, rest);
    TokenAgrees(w, r, t, kp, []);
    assert WriteToken(w, t, kp).1.value + [] == WriteToken(w, t, kp).1.value;
  }

  lemma {:induction false} TokensAgree(w: Hs, r: Hs, ts: seq<Token>, kp: KeyId, rest: Data)
    requires Agree(w, r) && AllReady(w, r, ts, kp)
    ensures WriteTokens(w, ts, kp).1.Some?
    ensures var m := WriteTokens(w, ts, kp).1.value + rest;
            && ReadTokens(r, ts, m).1 == Some(rest)
            && Agree(WriteTokens(w, ts, kp).0, ReadTokens(r, ts, m).0)
    decreases |ts|
  {
    if ts == [] {
      assert [] + rest == rest;
    } else {
      TokenAgrees(w, r, ts[0], kp, []);
      var (w1, part) := WriteToken(w, ts[0], kp);
      assert part.value + [] == part.value;
      var r1 := ReadToken(r, ts[0], part.value).0;
      TokensAgree(w1, r1, ts[1..], kp, rest);
      var tail := WriteTokens(w1, ts[1..], kp).1.value;
      ReadTokenLocal(w, r, ts[0], kp, tail + rest);
      TokenAgrees(w, r, ts[0], kp, tail + rest);
      assert part.value + tail + rest == part.value + (tail + rest);
    }
  }

  // ----- the pattern ---------------------------------------------------------------------

  /** The keys both sides hold after `index` messages. */
  ghost predicate Progress(a: Hs, b: Hs) {
    var (i, r) := if a.initiator then (a, b) else (b, a);
    && (a.index >= 1 ==> i.e.Some? && r.re.Some?)
    && (a.index >= 2 ==> r.e.Some? && i.re.Some? && i.rs.Some?)
    && (a.index >= 3 ==> r.rs.Some?)
  }

  /** The side whose turn it is to write. */
  predicate Writes(hs: Hs) { hs.index < |PATTERNS| && (hs.initiator <==> hs.index % 2 == 0) }

  lemma PatternReady(w: Hs, r: Hs, kp: KeyId)
    requires Agree(w, r) && Progress(w, r) && Writes(w)
    ensures AllReady(w, r, PATTERNS[w.index], kp)
  {
    var ts := PATTERNS[w.index];
    TokenAgrees(w, r, ts[0], kp, []);
    assert WriteToken(w, ts[0], kp).1.value + [] == WriteToken(w, ts[0], kp).1.value;
    var w1, r1 := WriteToken(w, ts[0], kp).0, ReadToken(r, ts[0], WriteToken(w, ts[0], kp).1.value).0;
    if w.index == 1 {
      MiddleReady(w1, r1, kp);
      assert ts[1..] == [EE, S, ES];
    } else if w.index == 2 {
      assert ts[1..] == [SE];
    } else {
      assert ts[1..] == [];
    }
  }

  /** The rest of message 2 once the responder's ephemeral is out. */
  lemma MiddleReady(w: Hs, r: Hs, kp: KeyId)
    requires Agree(w, r) && !w.initiator && w.e.Some? && w.re.Some? && r.e.Some? && r.re.Some?
    ensures AllReady(w, r, [EE, S, ES], kp)
  {
    TokenAgrees(w, r, EE, kp, []);
    assert WriteToken(w, EE, kp).1.value + [] == WriteToken(w, EE, kp).1.value;
    var w1, r1 := WriteToken(w, EE, kp).0, ReadToken(r, EE, WriteToken(w, EE, kp).1.value).0;
    TokenAgrees(w1, r1, S, kp, []);
    assert WriteToken(w1, S, kp).1.value + [] == WriteToken(w1, S, kp).1.value;
    assert [EE, S, ES][1..] == [S, ES] && [S, ES][1..] == [ES];
  }

  /** Which keys a run of tokens adds: tokens never take a key away. */
  lemma {:induction false} WriteTokensKeys(w: Hs, ts: seq<Token>, kp: KeyId)
    requires WriteTokens(w, ts, kp).1.Some?
    ensures var w2 := WriteTokens(w, ts, kp).0;
            && w2.e.Some? == (w.e.Some? || E in ts) && w2.re == w.re && w2.rs == w.rs
            && w2.(e := w.e, sym := w.sym) == w
    decreases |ts|
  {
    if ts != [] {
      WriteTokensKeys(WriteToken(w, ts[0], kp).0, ts[1..], kp);
      assert ts == [ts[0]] + ts[1..];
    }
  }

  lemma {:induction false} ReadTokensKeys(r: Hs, ts: seq<Token>, m: Data)
    requires ReadTokens(r, ts, m).1.Some?
    ensures var r2 := ReadTokens(r, ts, m).0;
            && r2.e == r.e && r2.re.Some? == (r.re.Some? || E in ts) && r2.rs.Some? == (r.rs.Some? || S in ts)
            && r2.(re := r.re, rs := r.rs, sym := r.sym) == r
    decreases |ts|
  {
    if ts != [] {
      var (r1, rest) := ReadToken(r, ts[0], m);
      ReadTokensKeys(r1, ts[1..], rest.value);
      assert ts == [ts[0]] + ts[1..];
    }
  }

  /**
   A message written by the side whose turn it is, read by the other side,
   gives the payload back and leaves the two sides equal again.
   */
  lemma MessageAgrees(w: Hs, r: Hs, payload: Data, kp: KeyId)
    requires Agree(w, r) && Progress(w, r) && Writes(w)
    ensures WriteMessage(w, payload, kp).1.Some?
    ensures ReadMessage(r, WriteMessage(w, payload, kp).1.value).1 == Some(payload)
    ensures var w2, r2 := WriteMessage(w, payload, kp).0, ReadMessage(r, WriteMessage(w, payload, kp).1.value).0;
            && Agree(w2, r2) && Progress(w2, r2) && w2.index == w.index + 1
            && w2.initiator == w.initiator && r2.initiator == r.initiator && w2.s == w.s && r2.s == r.s
  {
    var ts := PATTERNS[w.index];
    PatternReady(w, r, kp);
    var w1 := WriteTokens(w, ts, kp).0;
    var ct := EncryptAndHash(w1.sym, payload).1;
    TokensAgree(w, r, ts, kp, ct);
    var m := WriteMessage(w, payload, kp).1.value;
    WriteTokensKeys(w, ts, kp);
    ReadTokensKeys(r, ts, m);
    PayloadAgrees(w1.sym, payload);
  }

  lemma PayloadAgrees(s: Sym, payload: Data)
    ensures DecryptAndHash(s, EncryptAndHash(s, payload).1) == (EncryptAndHash(s, payload).0, Some(payload))
  {
  }

  // ----- the whole handshake -------------------------------------------------------------

  /** The three messages of one handshake, each read by the other side. */
  function AfterOne(i: Hs, r: Hs, pay: Data, e: KeyId): (Hs, Hs, Option<Data>) {
    var (i2, m) := WriteMessage(i, pay, e);
    if m.None? then (i2, r, None) else var (r2, got) := ReadMessage(r, m.value); (i2, r2, got)
  }

  lemma FreshPair(si: KeyId, sr: KeyId, prologue: Data)
    ensures Agree(NewHs(true, si, prologue), NewHs(false, sr, prologue))
    ensures Progress(NewHs(true, si, prologue), NewHs(false, sr, prologue))
  {
  }

  /**
   For all keys, payloads and prologues: XX delivers all three payloads, both
   sides end with the same hash and chaining key, each holds the other's static
   key, and each sends with the cipher the other receives with.
   */
  lemma HandshakeCompletes(si: KeyId, sr: KeyId, prologue: Data, p1: Data, p2: Data, p3: Data, ei: KeyId, er: KeyId, kp: KeyId)
    ensures var (i1, r1, got1) := AfterOne(NewHs(true, si, prologue), NewHs(false, sr, prologue), p1, ei);
            var (r2, i2, got2) := AfterOne(r1, i1, p2, er);
            var (i3, r3, got3) := AfterOne(i2, r2, p3, kp);
            && got1 == Some(p1) && got2 == Some(p2) && got3 == Some(p3)
            && i3.sym.h == r3.sym.h && i3.sym.ck == r3.sym.ck
            && i3.rs == Some([PubKey(sr)]) && r3.rs == Some([PubKey(si)])
            && Transport(i3).Some? && Transport(r3).Some?
            && Transport(i3).value.0 == Transport(r3).value.1 && Transport(i3).value.1 == Transport(r3).value.0
  {
    var i0, r0 := NewHs(true, si, prologue), NewHs(false, sr, prologue);
    FreshPair(si, sr, prologue);
    MessageAgrees(i0, r0, p1, ei);
    var (i1, r1, got1) := AfterOne(i0, r0, p1, ei);
    MessageAgrees(r1, i1, p2, er);
    var (r2, i2, got2) := AfterOne(r1, i1, p2, er);
    MessageAgrees(i2, r2, p3, kp);
    ProceedSplits(i2, p3, kp);
  }

  /** The last message splits the chaining key into the two transport ciphers. */
  lemma ProceedSplits(w: Hs, payload: Data, kp: KeyId)
    requires w.index == 2 && WriteMessage(w, payload, kp).1.Some?
    ensures WriteMessage(w, payload, kp).0.pair.Some?
  {
  }

  // ----- different prologues -------------------------------------------------------------

  /** The two sides agree on everything but the running hash. */
  ghost predicate HashesDiffer(i: Hs, r: Hs) {
    && i.initiator && !r.initiator && i.index == 1 && r.index == 1
    && i.e.Some? && r.re == Some([PubKey(i.e.value)]) && i.sym.h != r.sym.h
    && i.sym.ck == r.sym.ck && i.sym.cipher == r.sym.cipher
  }

  lemma FirstMessageAcrossPrologues(si: KeyId, sr: KeyId, pi: Data, pr: Data, p1: Data, ei: KeyId)
    requires pi != pr
    ensures var (i1, r1, got1) := AfterOne(NewHs(true, si, pi), NewHs(false, sr, pr), p1, ei);
            got1 == Some(p1) && HashesDiffer(i1, r1)
  {
    var i0, r0 := NewHs(true, si, pi), NewHs(false, sr, pr);
    assert WriteTokens(i0, [E], ei) == (WriteToken(i0, E, ei).0, Some([PubKey(ei)] + []));
    assert [PubKey(ei)] + [] == [PubKey(ei)];
    SliceWhole(PubKey(ei), p1, DHLEN);
    assert ReadTokens(r0, [E], [PubKey(ei)] + p1) == (ReadToken(r0, E, [PubKey(ei)] + p1).0, Some(p1));
  }

  /** The responder's message 2 opens with its ephemeral key and its boxed static key. */
  lemma SecondMessageShape(r: Hs, p2: Data, er: KeyId)
    requires !r.initiator && r.index == 1 && r.re.Some? && |r.re.value| == 1 && r.re.value[0].PubKey?
    ensures var m := WriteMessage(r, p2, er).1;
            && m.Some? && |m.value| >= 2
            && m.value[0] == PubKey(er) && m.value[1].AeadBox?
            && m.value[1].ad == Mix(r.sym.h, [PubKey(er)]) && AtomLen(m.value[1]) == DHLEN + TAG_LENGTH
  {
    var r1 := WriteToken(r, E, er).0;
    var r2 := WriteToken(r1, EE, er).0;
    var (r3, box) := WriteToken(r2, S, er);
    var (r4, none) := WriteToken(r3, ES, er);
    assert PATTERNS[1] == [E] + ([EE] + ([S] + [ES]));
    WriteOne(r3, ES, [], er);
    WriteOne(r2, S, [ES], er);
    WriteOne(r1, EE, [S, ES], er);
    WriteOne(r, E, [EE, S, ES], er);
    SealedKeyLen(box.value[0].key, box.value[0].n, box.value[0].ad, r.s);
  }

  lemma WriteOne(hs: Hs, t: Token, ts: seq<Token>, kp: KeyId)
    requires WriteToken(hs, t, kp).1.Some? && WriteTokens(WriteToken(hs, t, kp).0, ts, kp).1.Some?
    ensures WriteTokens(hs, [t] + ts, kp)
         == (WriteTokens(WriteToken(hs, t, kp).0, ts, kp).0,
             Some(WriteToken(hs, t, kp).1.value + WriteTokens(WriteToken(hs, t, kp).0, ts, kp).1.value))
  {
    assert ([t] + ts)[1..] == ts;
  }

  /** An initiator whose hash differs cannot open message 2. */
  lemma SecondMessageFails(i: Hs, er: KeyId, box: Atom, rest: Data)
    requires i.initiator && i.index == 1 && i.e.Some?
    requires box.AeadBox? && AtomLen(box) == DHLEN + TAG_LENGTH && box.ad != Mix(i.sym.h, [PubKey(er)])
    ensures ReadMessage(i, [PubKey(er)] + ([box] + rest)).1 == None
  {
    var m := [PubKey(er)] + ([box] + rest);
    SliceWhole(PubKey(er), [box] + rest, DHLEN);
    var i1 := ReadToken(i, E, m).0;
    var i2 := ReadToken(i1, EE, [box] + rest).0;
    SliceWhole(box, rest, DHLEN + TAG_LENGTH);
    assert ReadToken(i2, S, [box] + rest).1 == None;
    assert ReadTokens(i2, [S, ES], [box] + rest).1 == None;
    assert [EE, S, ES][1..] == [S, ES];
    assert ReadTokens(i1, [EE, S, ES], [box] + rest).1 == None;
    assert PATTERNS[1][1..] == [EE, S, ES];
  }

  /** With different prologues message 1, which nothing authenticates, still passes, and message 2 always fails. */
  lemma PrologueMismatchFails(si: KeyId, sr: KeyId, pi: Data, pr: Data, p1: Data, p2: Data, ei: KeyId, er: KeyId)
    requires pi != pr
    ensures var (i1, r1, got1) := AfterOne(NewHs(true, si, pi), NewHs(false, sr, pr), p1, ei);
            && got1 == Some(p1)
            && WriteMessage(r1, p2, er).1.Some?
            && AfterOne(r1, i1, p2, er).2 == None
  {
    var (i1, r1, got1) := AfterOne(NewHs(true, si, pi), NewHs(false, sr, pr), p1, ei);
    FirstMessageAcrossPrologues(si, sr, pi, pr, p1, ei);
    SecondMessageShape(r1, p2, er);
    var m := WriteMessage(r1, p2, er).1.value;
    assert m == [m[0]] + ([m[1]] + m[2..]);
    SecondMessageFails(i1, er, m[1], m[2..]);
  }
}
