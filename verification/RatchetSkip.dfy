/** What skipping ahead on a receive chain stores, and what the cap throws away. */
module RatchetSkip {
  import opened Common
  import opened OrderedMap
  import opened Symbolic
  import opened DoubleRatchet
  import opened RatchetLadder

  function LastN<T>(s: seq<T>, n: nat): (r: seq<T>)
    ensures |r| <= n
  {
    if |s| <= n then s else s[|s| - n..]
  }

  /** The store keys of messages `from .. until` of the chain of `dh`, in order. */
  function Stranded(dh: KeyId, from: nat, until: int): seq<(KeyId, int)>
    decreases until - from
  {
    if from >= until then [] else [(dh, from)] + Stranded(dh, from + 1, until)
  }

  ghost predicate SubMap(a: SkippedKeys, b: SkippedKeys) {
    forall k :: k in a.vals ==> k in b.vals && a.vals[k] == b.vals[k]
  }

  lemma {:induction false} EvictKeepsNewest(m: SkippedKeys)
    requires m.Valid()
    ensures Evict(m).Valid()
    ensures Evict(m).keys == LastN(m.keys, MAX_SKIPPED_KEYS)
    ensures SubMap(Evict(m), m)
    decreases |m.keys|
  {
    if |m.keys| > MAX_SKIPPED_KEYS {
      OldestGone(m);
      EvictKeepsNewest(m.Delete(m.keys[0]));
    }
  }

  lemma OldestGone(m: SkippedKeys)
    requires m.Valid() && m.keys != []
    ensures var rest := m.Delete(m.keys[0]);
            rest.Valid() && rest.keys == m.keys[1..] && SubMap(rest, m)
  {
    DeleteAt(m, 0);
    assert m.keys[..0] + m.keys[1..] == m.keys[1..];
  }

  /** Cutting to the newest `n` before appending or after comes to the same. */
  lemma LastNJoins<T>(u: seq<T>, t: seq<T>, n: nat)
    ensures LastN(LastN(u, n) + t, n) == LastN(u + t, n)
  {
    if |u| > n {
      var cut := |u| - n;
      assert u[cut..] + t == (u + t)[cut..];
      SliceTwice(u + t, cut, |t|);
    }
  }

  lemma SliceTwice<T>(s: seq<T>, a: nat, b: nat)
    requires a + b <= |s|
    ensures s[a..][b..] == s[a + b..]
  {
  }

  lemma LastNStep<T>(s: seq<T>, x: T, t: seq<T>, n: nat)
    ensures LastN(LastN(s + [x], n) + t, n) == LastN(s + ([x] + t), n)
  {
    LastNJoins(s + [x], t, n);
    assert (s + [x]) + t == s + ([x] + t);
  }

  /** Whatever is in the store, skipping walks the chain key on. */
  lemma {:induction false} SkipChainKey(ck: Secret, from: nat, until: int, dh: KeyId, m: SkippedKeys)
    requires from <= until
    ensures SkipChain(ck, from, until, dh, m).0 == Walk(ck, until - from)
    decreases until - from
  {
    if from < until {
      SkipChainKey(NextChainKey(ck), from + 1, until, dh, Evict(m.Set((dh, from), MessageKey(ck))));
      WalkFromNext(ck, until - from - 1);
    }
  }

  /** The first step of a skip: the store after message `from`'s key went in. */
  lemma SkipStep(ck: Secret, from: nat, until: int, dh: KeyId, m: SkippedKeys) returns (m1: SkippedKeys)
    requires from < until
    requires m.Valid() && |m.keys| <= MAX_SKIPPED_KEYS
    requires forall j :: from <= j < until ==> (dh, j) !in m.vals
    ensures m1 == Evict(m.Set((dh, from), MessageKey(ck)))
    ensures SkipChain(ck, from, until, dh, m) == SkipChain(NextChainKey(ck), from + 1, until, dh, m1)
    ensures m1.Valid() && m1.keys == LastN(m.keys + [(dh, from)], MAX_SKIPPED_KEYS)
    ensures forall k :: k in m1.vals ==>
              (k in m.vals && m1.vals[k] == m.vals[k]) || (k == (dh, from) && m1.vals[k] == MessageKey(ck))
    ensures forall j :: from + 1 <= j < until ==> (dh, j) !in m1.vals
  {
    var w := m.Set((dh, from), MessageKey(ck));
    SetValid(m, (dh, from), MessageKey(ck));
    EvictKeepsNewest(w);
    m1 := Evict(w);
  }

  /**
   Skipping keeps the newest MAX_SKIPPED_KEYS of the old and new store keys
   together, in order: eviction is first in, first out.
   */
  lemma {:induction false} SkipChainFifo(ck: Secret, from: nat, until: int, dh: KeyId, m: SkippedKeys)
    requires from <= until
    requires m.Valid() && |m.keys| <= MAX_SKIPPED_KEYS
    requires forall j :: from <= j < until ==> (dh, j) !in m.vals
    ensures SkipChain(ck, from, until, dh, m).1.Valid()
    ensures SkipChain(ck, from, until, dh, m).1.keys == LastN(m.keys + Stranded(dh, from, until), MAX_SKIPPED_KEYS)
    decreases until - from
  {
    if from < until {
      var m1 := SkipStep(ck, from, until, dh, m);
      SkipChainFifo(NextChainKey(ck), from + 1, until, dh, m1);
      LastNStep(m.keys, (dh, from), Stranded(dh, from + 1, until), MAX_SKIPPED_KEYS);
    } else {
      assert m.keys + Stranded(dh, from, until) == m.keys;
    }
  }

  /** What a skip may add: the true key of a message it passed. */
  predicate Passed(ck: Secret, from: nat, until: int, dh: KeyId, k: (KeyId, int), mk: Secret) {
    k.0 == dh && from <= k.1 < until && mk == MessageKey(Walk(ck, k.1 - from))
  }

  lemma {:induction false} SkipChainEntries(ck: Secret, from: nat, until: int, dh: KeyId, m: SkippedKeys)
    requires from <= until
    requires m.Valid() && |m.keys| <= MAX_SKIPPED_KEYS
    requires forall j :: from <= j < until ==> (dh, j) !in m.vals
    ensures var m2 := SkipChain(ck, from, until, dh, m).1;
            forall k :: k in m2.vals ==>
              (k in m.vals && m2.vals[k] == m.vals[k]) || Passed(ck, from, until, dh, k, m2.vals[k])
    decreases until - from
  {
    if from < until {
      var m1 := SkipStep(ck, from, until, dh, m);
      SkipChainEntries(NextChainKey(ck), from + 1, until, dh, m1);
      var m2 := SkipChain(ck, from, until, dh, m).1;
      forall k | k in m2.vals && Passed(NextChainKey(ck), from + 1, until, dh, k, m2.vals[k])
        ensures Passed(ck, from, until, dh, k, m2.vals[k])
      {
        PassedFromBefore(ck, from, until, dh, k, m2.vals[k]);
      }
    }
  }

  lemma PassedFromBefore(ck: Secret, from: nat, until: int, dh: KeyId, k: (KeyId, int), mk: Secret)
    requires Passed(NextChainKey(ck), from + 1, until, dh, k, mk)
    ensures Passed(ck, from, until, dh, k, mk)
  {
    WalkFromNext(ck, k.1 - (from + 1));
  }
}
