/**
 The per-pair Double Ratchet, as a function on its state. Section 3 of the
 Signal Double Ratchet specification, with the program's own changes: the
 responder starts with a receive chain, may ratchet on its own to send first,
 and keeps at most MAX_SKIPPED_KEYS stranded message keys, oldest out first.
 */
module DoubleRatchet {
  import opened Common
  import opened OrderedMap
  import opened Symbolic

  const MAX_SKIP := 100
  const MAX_SKIPPED_KEYS := 1000

  /** `n` and `pn` are unauthenticated wire numbers until the frame opens. */
  datatype Header = Header(dh: KeyId, n: int, pn: int)

  /** An AEAD box under `key`, zero nonce, associated data `ad`; or bytes that are no box at all. */
  datatype Box = Sealed(key: Secret, ad: Header, plain: Bytes) | Junk(id: nat)

  /** `Malformed` is a frame whose base64 fields do not decode to usable bytes. */
  datatype Slot = Malformed | Slot(h: Header, ct: Box)

  datatype DrError = SkipLimitExceeded | NoRecvChain | DecryptFailed | BadEncoding

  type SkippedKeys = OMap<(KeyId, int), Secret>

  datatype State = State(
    rk: Secret, cks: Option<Secret>, ckr: Option<Secret>,
    dhs: KeyId, dhr: KeyId, ns: nat, nr: nat, pn: nat, skipped: SkippedKeys)

  function KdfRK(rk: Secret, dh: Secret): (Secret, Secret) { (Kdf1(rk, dh), Kdf2(rk, dh)) }

  function MessageKey(ck: Secret): Secret { Kdf1(ck, Label(1)) }

  function NextChainKey(ck: Secret): Secret { Kdf2(ck, Label(1)) }

  function Seal(mk: Secret, plain: Bytes, ad: Header): Box { Sealed(mk, ad, plain) }

  function Open(mk: Secret, ct: Box, ad: Header): Option<Bytes> {
    if ct.Sealed? && ct.key == mk && ct.ad == ad then Some(ct.plain) else None
  }

  function InitAlice(chainKey: Secret, own: KeyId, remote: KeyId): State {
    var (rk, cks) := KdfRK(chainKey, SharedKey(own, remote));
    State(rk, Some(cks), None, own, remote, 0, 0, 0, Empty())
  }

  function InitBob(chainKey: Secret, own: KeyId, remote: KeyId): State {
    var (rk, ckr) := KdfRK(chainKey, SharedKey(own, remote));
    State(rk, None, Some(ckr), own, remote, 0, 0, 0, Empty())
  }

  function DhRatchet(s: State, newDhr: KeyId, kp: KeyId): State {
    var (rk1, ckr) := KdfRK(s.rk, SharedKey(s.dhs, newDhr));
    var (rk2, cks) := KdfRK(rk1, SharedKey(kp, newDhr));
    s.(pn := s.ns, ns := 0, nr := 0, dhr := newDhr, rk := rk2, ckr := Some(ckr), cks := Some(cks), dhs := kp)
  }

  /** Drops the oldest keys until the cap holds. */
  function Evict(m: SkippedKeys): SkippedKeys
    decreases |m.keys|
  {
    if |m.keys| > MAX_SKIPPED_KEYS && m.keys[0] in m.vals
    then Evict(m.Delete(m.keys[0]))
    else m
  }

  /** The chain key and the store after walking a chain from `from` up to `until`. */
  function SkipChain(ck: Secret, from: nat, until: int, dh: KeyId, m: SkippedKeys): (Secret, SkippedKeys)
    decreases until - from
  {
    if from >= until then (ck, m)
    else SkipChain(NextChainKey(ck), from + 1, until, dh, Evict(m.Set((dh, from), MessageKey(ck))))
  }

  function SkipMessageKeys(s: State, until: int, dh: KeyId): Result<State, DrError> {
    if s.ckr.None? || s.nr >= until then Ok(s)
    else if until - s.nr > MAX_SKIP then Err(SkipLimitExceeded)
    else
      var (ck, m) := SkipChain(s.ckr.value, s.nr, until, dh, s.skipped);
      Ok(s.(nr := until, ckr := Some(ck), skipped := m))
  }

  /** The responder's send-first step: a new send chain, receive side untouched. */
  function Bootstrap(s: State, kp: KeyId): State {
    if s.cks.Some? then s
    else
      var (rk, cks) := KdfRK(s.rk, SharedKey(kp, s.dhr));
      s.(pn := s.ns, ns := 0, dhs := kp, rk := rk, cks := Some(cks))
  }

  function Encrypt(s0: State, plain: Bytes, kp: KeyId): (State, Slot) {
    var s := Bootstrap(s0, kp);
    var h := Header(s.dhs, s.ns, s.pn);
    (s.(cks := Some(NextChainKey(s.cks.value)), ns := s.ns + 1), Slot(h, Seal(MessageKey(s.cks.value), plain, h)))
  }

  /** The working copy after the header's ratchet steps, before the frame is authenticated. */
  function Advance(s: State, h: Header, kp: KeyId): Result<State, DrError> {
    if h.dh == s.dhr then SkipMessageKeys(s, h.n, h.dh)
    else
      var r := SkipMessageKeys(s, h.pn, s.dhr);
      if r.Err? then r else SkipMessageKeys(DhRatchet(r.value, h.dh, kp), h.n, h.dh)
  }

  /** The committed state and what the call returns. */
  function Decrypt(s: State, slot: Slot, kp: KeyId): (State, Result<Bytes, DrError>) {
    match slot
    case Malformed => (s, Err(BadEncoding))
    case Slot(h, ct) =>
      if (h.dh, h.n) in s.skipped.vals then
        match Open(s.skipped.vals[(h.dh, h.n)], ct, h)
        case None => (s, Err(DecryptFailed))
        case Some(plain) => (s.(skipped := s.skipped.Delete((h.dh, h.n))), Ok(plain))
      else
        match Advance(s, h, kp)
        case Err(e) => (s, Err(e))
        case Ok(next) =>
          if next.ckr.None? then (s, Err(NoRecvChain))
          else
            match Open(MessageKey(next.ckr.value), ct, h)
            case None => (s, Err(DecryptFailed))
            case Some(plain) => (next.(ckr := Some(NextChainKey(next.ckr.value)), nr := next.nr + 1), Ok(plain))
  }
}
