/**
 Symbolic (Dolev-Yao) cryptography: every 32-byte secret is a term that records
 how it was computed, so two secrets are equal exactly when they were computed
 alike. A key pair is named by a number; its public half is that number.
 */
module Symbolic {

  type KeyId = nat

  datatype Secret =
    | Seed(id: nat)                     // a freshly drawn or otherwise opaque secret
    | Label(tag: nat)                   // a public constant
    | Dh(lo: KeyId, hi: KeyId)          // X25519 of two key pairs, smaller name first
    | Kdf1(salt: Secret, ikm: Secret)   // first 32 bytes of HKDF(salt, ikm)
    | Kdf2(salt: Secret, ikm: Secret)   // second 32 bytes of HKDF(salt, ikm)
    | Hybrid(classical: Secret, postQuantum: Secret)
    | Rejection(kem: nat)               // what ML-KEM yields for a ciphertext not made for its key

  /** X25519: both owners compute the same value. */
  function SharedKey(mine: KeyId, theirs: KeyId): Secret {
    if mine <= theirs then Dh(mine, theirs) else Dh(theirs, mine)
  }

  /** `k` came out of an HKDF chain whose first salt was `root`. */
  ghost predicate Derived(k: Secret, root: Secret) {
    k == root || ((k.Kdf1? || k.Kdf2?) && Derived(k.salt, root))
  }

  /** How many HKDF steps a key is away from the start of its salt chain. */
  ghost function Height(k: Secret): nat {
    if k.Kdf1? || k.Kdf2? then 1 + Height(k.salt) else 0
  }

  /**
   What somebody obtains who has these private keys and these secrets, and
   everything public: a DH from either private half, an HKDF output or a hybrid
   from both its inputs.
   */
  predicate Obtains(x: Secret, keys: set<KeyId>, secrets: set<Secret>) {
    x in secrets ||
    match x
    case Seed(_) => false
    case Label(_) => true
    case Dh(lo, hi) => lo in keys || hi in keys
    case Kdf1(salt, ikm) => Obtains(salt, keys, secrets) && Obtains(ikm, keys, secrets)
    case Kdf2(salt, ikm) => Obtains(salt, keys, secrets) && Obtains(ikm, keys, secrets)
    case Hybrid(classical, pq) => Obtains(classical, keys, secrets) && Obtains(pq, keys, secrets)
    case Rejection(_) => false
  }
}
