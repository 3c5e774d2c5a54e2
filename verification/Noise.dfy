/**
 The Noise XX handshake (sections 5.1 to 5.3 and 7.5 of the Noise Protocol
 Framework, revision 34) over symbolic byte strings, as a function on its state.
 A call that throws still returns the state it left behind: the program's
 handshake objects are mutated token by token.
 */
module Noise {
  import opened Common
  import opened Symbolic

  /** A run of wire bytes that was produced in one piece. */
  datatype Atom =
    | PubKey(id: KeyId)
    | KemPub(kem: nat)
    | KemCt(to: nat, secret: Secret)
    | AeadBox(key: Secret, n: nat, ad: Digest, plain: Data)
    | Text(bytes: Bytes)
    | Cut(whole: Atom, from: nat, until: nat)  // a slice that does not end where the piece ends

  type Data = seq<Atom>

  /** SHA-256 of a running hash and more data. */
  datatype Digest = ProtocolName | Mix(h: Digest, data: Data)

  const DHLEN := 32
  const TAG_LENGTH := 16
  const KEM_PUBLIC_KEY_BYTES := 1184
  const KEM_CIPHERTEXT_BYTES := 1088

  function AtomLen(a: Atom): nat {
    match a
    case PubKey(_) => DHLEN
    case KemPub(_) => KEM_PUBLIC_KEY_BYTES
    case KemCt(_, _) => KEM_CIPHERTEXT_BYTES
    case AeadBox(_, _, _, plain) => Len(plain) + TAG_LENGTH
    case Text(bytes) => |bytes|
    case Cut(_, from, until) => if from <= until then until - from else 0
  }

  function Len(d: Data): nat {
    if d == [] then 0 else AtomLen(d[0]) + Len(d[1..])
  }

  /** `(d.slice(0, n), d.slice(n))`; slicing past the end yields what there is. */
  function Slice(d: Data, n: nat): (Data, Data) {
    if n == 0 || d == [] then ([], d)
    else if AtomLen(d[0]) <= n then
      var (taken, rest) := Slice(d[1..], n - AtomLen(d[0]));
      ([d[0]] + taken, rest)
    else ([Cut(d[0], 0, n)], [Cut(d[0], n, AtomLen(d[0]))] + d[1..])
  }

  // ----- CipherState and SymmetricState --------------------------------------------------

  datatype Cipher = Cipher(k: Option<Secret>, n: nat)

  /** The box, and the cipher after it; without a key data passes through in the clear. */
  function EncryptWithAd(c: Cipher, ad: Digest, plain: Data): (Cipher, Data) {
    if c.k.None? then (c, plain)
    else (c.(n := c.n + 1), [AeadBox(c.k.value, c.n, ad, plain)])
  }

  function DecryptWithAd(c: Cipher, ad: Digest, ct: Data): (Cipher, Option<Data>) {
    if c.k.None? then (c, Some(ct))
    else if |ct| == 1 && ct[0].AeadBox? && ct[0].key == c.k.value && ct[0].n == c.n && ct[0].ad == ad
    then (c.(n := c.n + 1), Some(ct[0].plain))
    else (c, None)
  }

  datatype Sym = Sym(ck: Secret, h: Digest, cipher: Cipher)

  const InitSym := Sym(Label(0), ProtocolName, Cipher(None, 0))

  function MixKey(s: Sym, ikm: Secret): Sym {
    s.(ck := Kdf1(s.ck, ikm), cipher := Cipher(Some(Kdf2(s.ck, ikm)), 0))
  }

  function MixHash(s: Sym, data: Data): Sym { s.(h := Mix(s.h, data)) }

  function EncryptAndHash(s: Sym, plain: Data): (Sym, Data) {
    var (c, ct) := EncryptWithAd(s.cipher, s.h, plain);
    (MixHash(s.(cipher := c), ct), ct)
  }

  function DecryptAndHash(s: Sym, ct: Data): (Sym, Option<Data>) {
    var (c, plain) := DecryptWithAd(s.cipher, s.h, ct);
    if plain.None? then (s, None) else (MixHash(s.(cipher := c), ct), plain)
  }

  function Split(s: Sym): (Cipher, Cipher) {
    (Cipher(Some(Kdf1(s.ck, Label(2))), 0), Cipher(Some(Kdf2(s.ck, Label(2))), 0))
  }

  // ----- HandshakeState ------------------------------------------------------------------

  datatype Token = E | S | EE | ES | SE

  const PATTERNS: seq<seq<Token>> := [[E], [E, EE, S, ES], [S, SE]]

  datatype Hs = Hs(
    initiator: bool, s: KeyId, e: Option<KeyId>, rs: Option<Data>, re: Option<Data>,
    sym: Sym, index: nat, pair: Option<(Cipher, Cipher)>)

  function NewHs(initiator: bool, s: KeyId, prologue: Data): Hs {
    Hs(initiator, s, None, None, None, MixHash(InitSym, prologue), 0, None)
  }

  /** X25519 with a received key; bytes that are no public key throw. */
  function Shared(own: Option<KeyId>, remote: Option<Data>): Option<Secret> {
    if own.Some? && remote.Some? && |remote.value| == 1 && remote.value[0].PubKey?
    then Some(SharedKey(own.value, remote.value[0].id))
    else None
  }

  /** The DH of a token, from this side. */
  function TokenDh(hs: Hs, t: Token): Option<Secret> {
    match t
    case EE => Shared(hs.e, hs.re)
    case ES => if hs.initiator then Shared(hs.e, hs.rs) else Shared(Some(hs.s), hs.re)
    case SE => if hs.initiator then Shared(Some(hs.s), hs.re) else Shared(hs.e, hs.rs)
    case _ => None
  }

  function MixDh(hs: Hs, t: Token): (Hs, bool) {
    match TokenDh(hs, t)
    case None => (hs, false)
    case Some(dh) => (hs.(sym := MixKey(hs.sym, dh)), true)
  }

  /** One token of a message being written: the state, the bytes it adds, whether it threw. */
  function WriteToken(hs: Hs, t: Token, kp: KeyId): (Hs, Option<Data>) {
    match t
    case E => (hs.(e := Some(kp), sym := MixHash(hs.sym, [PubKey(kp)])), Some([PubKey(kp)]))
    case S =>
      var (sym, ct) := EncryptAndHash(hs.sym, [PubKey(hs.s)]);
      (hs.(sym := sym), Some(ct))
    case _ =>
      var (hs2, ok) := MixDh(hs, t);
      (hs2, if ok then Some([]) else None)
  }

  function WriteTokens(hs: Hs, ts: seq<Token>, kp: KeyId): (Hs, Option<Data>)
    decreases |ts|
  {
    if ts == [] then (hs, Some([]))
    else
      var (hs1, part) := WriteToken(hs, ts[0], kp);
      if part.None? then (hs1, None)
      else
        var (hs2, parts) := WriteTokens(hs1, ts[1..], kp);
        (hs2, if parts.None? then None else Some(part.value + parts.value))
  }

  function Proceed(hs: Hs): Hs {
    hs.(index := hs.index + 1, pair := if hs.index + 1 >= |PATTERNS| then Some(Split(hs.sym)) else hs.pair)
  }

  function WriteMessage(hs: Hs, payload: Data, kp: KeyId): (Hs, Option<Data>) {
    if hs.index >= |PATTERNS| then (hs, None)
    else
      var (hs1, parts) := WriteTokens(hs, PATTERNS[hs.index], kp);
      if parts.None? then (hs1, None)
      else
        var (sym, ct) := EncryptAndHash(hs1.sym, payload);
        (Proceed(hs1.(sym := sym)), Some(parts.value + ct))
  }

  /** One token of a message being read: the state and the bytes left, unless it threw. */
  function ReadToken(hs: Hs, t: Token, m: Data): (Hs, Option<Data>) {
    match t
    case E =>
      var (re, rest) := Slice(m, DHLEN);
      (hs.(re := Some(re), sym := MixHash(hs.sym, re)), Some(rest))
    case S =>
      var (ct, rest) := Slice(m, DHLEN + (if hs.sym.cipher.k.Some? then TAG_LENGTH else 0));
      var (sym, rs) := DecryptAndHash(hs.sym, ct);
      if rs.None? then (hs, None) else (hs.(sym := sym, rs := rs), Some(rest))
    case _ =>
      var (hs2, ok) := MixDh(hs, t);
      (hs2, if ok then Some(m) else None)
  }

  function ReadTokens(hs: Hs, ts: seq<Token>, m: Data): (Hs, Option<Data>)
    decreases |ts|
  {
    if ts == [] then (hs, Some(m))
    else
      var (hs1, rest) := ReadToken(hs, ts[0], m);
      if rest.None? then (hs1, None) else ReadTokens(hs1, ts[1..], rest.value)
  }

  function ReadMessage(hs: Hs, m: Data): (Hs, Option<Data>) {
    if hs.index >= |PATTERNS| then (hs, None)
    else
      var (hs1, rest) := ReadTokens(hs, PATTERNS[hs.index], m);
      if rest.None? then (hs1, None)
      else
        var (sym, payload) := DecryptAndHash(hs1.sym, rest.value);
        if payload.None? then (hs1, None) else (Proceed(hs1.(sym := sym)), payload)
  }

  /** The cipher this side sends with, and the one it receives with. */
  function Transport(hs: Hs): Option<(Cipher, Cipher)> {
    match hs.pair
    case None => None
    case Some((c1, c2)) => Some(if hs.initiator then (c1, c2) else (c2, c1))
  }
}
