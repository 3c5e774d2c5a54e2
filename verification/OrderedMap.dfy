/**
 JavaScript's `Map`: a dictionary that remembers the order in which its keys
 were first inserted. Overwriting a key keeps its place; deleting and inserting
 it again moves it to the end. Every eviction in the program relies on this.
 */
module OrderedMap {
  import opened Common

  datatype OMap<K(==), V> = OMap(keys: seq<K>, vals: map<K, V>) {

    ghost predicate Valid() {
      && Distinct(keys)
      && (forall k :: k in keys ==> k in vals)
      && (forall k :: k in vals ==> k in keys)
    }

    function Set(k: K, v: V): OMap<K, V> {
      OMap(if k in vals then keys else keys + [k], vals[k := v])
    }

    function Delete(k: K): OMap<K, V> {
      if k in vals then OMap(Without(keys, k), vals - {k}) else this
    }
  }

  function Empty<K, V>(): OMap<K, V> { OMap([], map[]) }

  /** `s` without the first occurrence of `x`. */
  function Without<K(==)>(s: seq<K>, x: K): (r: seq<K>) {
    if s == [] then []
    else if s[0] == x then s[1..]
    else [s[0]] + Without(s[1..], x)
  }

  lemma {:induction false} WithoutIndex<K>(s: seq<K>, i: nat)
    requires Distinct(s) && i < |s|
    ensures Without(s, s[i]) == s[..i] + s[i + 1..]
  {
    if i > 0 {
      WithoutIndex(s[1..], i - 1);
      assert s[..i] == [s[0]] + s[1..][..i - 1];
      assert s[1..][i..] == s[i + 1..];
    }
  }

  lemma SetValid<K, V>(m: OMap<K, V>, k: K, v: V)
    requires m.Valid()
    ensures m.Set(k, v).Valid()
  {
  }

  /** Cutting one position out of a list without repeats loses exactly that element. */
  lemma CutMembers<K>(s: seq<K>, i: nat)
    requires Distinct(s) && i < |s|
    ensures Distinct(s[..i] + s[i + 1..])
    ensures s[i] !in s[..i] + s[i + 1..]
    ensures forall x :: x in s && x != s[i] ==> x in s[..i] + s[i + 1..]
  {
    var d := s[..i] + s[i + 1..];
    forall x | x in s && x != s[i] ensures x in d {
      var j :| 0 <= j < |s| && s[j] == x;
      assert d[if j < i then j else j - 1] == x;
    }
  }

  /** Deleting the entry at position `i` closes the gap and disturbs nothing else. */
  lemma DeleteAt<K, V>(m: OMap<K, V>, i: nat)
    requires m.Valid() && i < |m.keys|
    ensures m.Delete(m.keys[i]) == OMap(m.keys[..i] + m.keys[i + 1..], m.vals - {m.keys[i]})
    ensures m.Delete(m.keys[i]).Valid()
  {
    WithoutIndex(m.keys, i);
    CutMembers(m.keys, i);
  }

  lemma DeleteValid<K, V>(m: OMap<K, V>, k: K)
    requires m.Valid()
    ensures m.Delete(k).Valid()
  {
    if k in m.vals {
      assert k in m.keys;
      var i :| 0 <= i < |m.keys| && m.keys[i] == k;
      DeleteAt(m, i);
    }
  }

  // ----- a pass over a map that is changed on the way -----------------------------------

  /**
   The program's `for (const [k, v] of map)` whose body may delete or rewrite the
   entry it is at: the cursor `i` stays where it is when that entry goes away.
   */
  function Iterate<K(==), V>(m: OMap<K, V>, i: nat, f: (K, V) -> Option<V>): (r: OMap<K, V>)
    requires m.Valid()
    ensures r.Valid()
    decreases |m.keys| - i
  {
    if i >= |m.keys| then m
    else
      var k := m.keys[i];
      match f(k, m.vals[k])
      case None => DeleteAt(m, i); Iterate(m.Delete(k), i, f)
      case Some(v) => SetValid(m, k, v); Iterate(m.Set(k, v), i + 1, f)
  }

  function SiftKeys<K, V>(s: seq<K>, vals: map<K, V>, f: (K, V) -> Option<V>): (r: seq<K>)
    requires forall k :: k in s ==> k in vals
  {
    if s == [] then []
    else if f(s[0], vals[s[0]]).Some? then [s[0]] + SiftKeys(s[1..], vals, f)
    else SiftKeys(s[1..], vals, f)
  }

  function SiftVals<K, V>(vals: map<K, V>, f: (K, V) -> Option<V>): map<K, V> {
    map k | k in vals && f(k, vals[k]).Some? :: f(k, vals[k]).value
  }

  /** Every entry put through `f` once, all at the same time, the order kept. */
  function Sift<K, V>(m: OMap<K, V>, f: (K, V) -> Option<V>): OMap<K, V>
    requires forall k :: k in m.keys ==> k in m.vals
  {
    OMap(SiftKeys(m.keys, m.vals, f), SiftVals(m.vals, f))
  }

  lemma {:induction false} SiftKeysLocal<K, V>(s: seq<K>, a: map<K, V>, b: map<K, V>, f: (K, V) -> Option<V>)
    requires forall k :: k in s ==> k in a && k in b && a[k] == b[k]
    ensures SiftKeys(s, a, f) == SiftKeys(s, b, f)
  {
    if s != [] { SiftKeysLocal(s[1..], a, b, f); }
  }

  lemma {:induction false} SiftKeysMembers<K, V>(s: seq<K>, vals: map<K, V>, f: (K, V) -> Option<V>)
    requires forall k :: k in s ==> k in vals
    ensures forall k :: k in SiftKeys(s, vals, f) ==> k in s && f(k, vals[k]).Some?
    ensures forall k :: k in s && f(k, vals[k]).Some? ==> k in SiftKeys(s, vals, f)
  {
    if s != [] {
      SiftKeysMembers(s[1..], vals, f);
      assert s == [s[0]] + s[1..];
    }
  }

  lemma {:induction false} SiftKeysDistinct<K, V>(s: seq<K>, vals: map<K, V>, f: (K, V) -> Option<V>)
    requires forall k :: k in s ==> k in vals
    requires Distinct(s)
    ensures Distinct(SiftKeys(s, vals, f))
    ensures |SiftKeys(s, vals, f)| <= |s|
  {
    if s != [] {
      SiftKeysDistinct(s[1..], vals, f);
      SiftKeysMembers(s[1..], vals, f);
    }
  }

  lemma SiftValid<K, V>(m: OMap<K, V>, f: (K, V) -> Option<V>)
    requires m.Valid()
    ensures Sift(m, f).Valid()
    ensures |Sift(m, f).keys| <= |m.keys|
  {
    SiftKeysMembers(m.keys, m.vals, f);
    SiftKeysDistinct(m.keys, m.vals, f);
  }

  /** What a walk from position `i` on makes of the values. */
  function WalkedVals<K, V>(m: OMap<K, V>, i: nat, f: (K, V) -> Option<V>): map<K, V>
    requires i <= |m.keys|
  {
    map k | k in m.vals && (k in m.keys[..i] || f(k, m.vals[k]).Some?)
      :: if k in m.keys[..i] then m.vals[k] else f(k, m.vals[k]).value
  }

  lemma DeletedKeys<K, V>(m: OMap<K, V>, i: nat)
    requires m.Valid() && i < |m.keys|
    ensures var m2 := m.Delete(m.keys[i]);
            && m2.Valid() && |m2.keys| == |m.keys| - 1
            && m2.keys[..i] == m.keys[..i] && m2.keys[i..] == m.keys[i + 1..]
  {
    DeleteAt(m, i);
  }

  lemma WalkDeletesKeys<K, V>(m: OMap<K, V>, i: nat, f: (K, V) -> Option<V>)
    requires m.Valid() && i < |m.keys| && f(m.keys[i], m.vals[m.keys[i]]).None?
    requires m.Delete(m.keys[i]).Valid()
    ensures SiftKeys(m.keys[i + 1..], m.Delete(m.keys[i]).vals, f) == SiftKeys(m.keys[i..], m.vals, f)
  {
    var k, tail := m.keys[i], m.keys[i + 1..];
    var m2 := m.Delete(k);
    assert m.keys[i..] == [k] + tail;
    SiftKeysLocal(tail, m.vals, m2.vals, f);
  }

  lemma WalkDeletesVals<K, V>(m: OMap<K, V>, i: nat, f: (K, V) -> Option<V>)
    requires m.Valid() && i < |m.keys| && f(m.keys[i], m.vals[m.keys[i]]).None?
    ensures i <= |m.Delete(m.keys[i]).keys|
    ensures WalkedVals(m.Delete(m.keys[i]), i, f) == WalkedVals(m, i, f)
  {
    DeletedKeys(m, i);
  }

  lemma ConsGlue<K>(a: seq<K>, k: K, b: seq<K>)
    ensures (a + [k]) + b == a + ([k] + b)
  {
  }

  lemma WalkKeepsKeys<K, V>(m: OMap<K, V>, i: nat, f: (K, V) -> Option<V>, v: V)
    requires m.Valid() && i < |m.keys| && f(m.keys[i], m.vals[m.keys[i]]) == Some(v)
    requires m.Set(m.keys[i], v).Valid() && m.Set(m.keys[i], v).keys == m.keys
    ensures m.keys[..i + 1] + SiftKeys(m.keys[i + 1..], m.Set(m.keys[i], v).vals, f)
         == m.keys[..i] + SiftKeys(m.keys[i..], m.vals, f)
  {
    var k, tail := m.keys[i], m.keys[i + 1..];
    assert m.keys[i..] == [k] + tail;
    SiftKeysLocal(tail, m.vals, m.Set(k, v).vals, f);
    assert SiftKeys(m.keys[i..], m.vals, f) == [k] + SiftKeys(tail, m.vals, f);
    assert m.keys[..i + 1] == m.keys[..i] + [k];
    ConsGlue(m.keys[..i], k, SiftKeys(tail, m.vals, f));
  }

  lemma WalkKeepsVals<K, V>(m: OMap<K, V>, i: nat, f: (K, V) -> Option<V>, v: V)
    requires m.Valid() && i < |m.keys| && f(m.keys[i], m.vals[m.keys[i]]) == Some(v)
    requires m.Set(m.keys[i], v).keys == m.keys
    ensures WalkedVals(m.Set(m.keys[i], v), i + 1, f) == WalkedVals(m, i, f)
  {
    assert m.keys[..i + 1] == m.keys[..i] + [m.keys[i]];
  }

  function Walked<K, V>(m: OMap<K, V>, i: nat, f: (K, V) -> Option<V>): OMap<K, V>
    requires m.Valid() && i <= |m.keys|
  {
    OMap(m.keys[..i] + SiftKeys(m.keys[i..], m.vals, f), WalkedVals(m, i, f))
  }

  lemma WalkDeletes<K, V>(m: OMap<K, V>, i: nat, f: (K, V) -> Option<V>)
    requires m.Valid() && i < |m.keys| && f(m.keys[i], m.vals[m.keys[i]]).None?
    ensures m.Delete(m.keys[i]).Valid() && |m.Delete(m.keys[i]).keys| == |m.keys| - 1
    ensures Walked(m.Delete(m.keys[i]), i, f) == Walked(m, i, f)
  {
    DeletedKeys(m, i);
    WalkDeletesKeys(m, i, f);
    WalkDeletesVals(m, i, f);
  }

  lemma WalkKeeps<K, V>(m: OMap<K, V>, i: nat, f: (K, V) -> Option<V>, v: V)
    requires m.Valid() && i < |m.keys| && f(m.keys[i], m.vals[m.keys[i]]) == Some(v)
    ensures m.Set(m.keys[i], v).Valid() && m.Set(m.keys[i], v).keys == m.keys
    ensures Walked(m.Set(m.keys[i], v), i + 1, f) == Walked(m, i, f)
  {
    SetValid(m, m.keys[i], v);
    WalkKeepsKeys(m, i, f, v);
    WalkKeepsVals(m, i, f, v);
  }

  lemma {:induction false} IterateFrom<K, V>(m: OMap<K, V>, i: nat, f: (K, V) -> Option<V>)
    requires m.Valid() && i <= |m.keys|
    ensures Iterate(m, i, f) == Walked(m, i, f)
    decreases |m.keys| - i
  {
    if i == |m.keys| {
      assert m.keys[..i] == m.keys && WalkedVals(m, i, f) == m.vals;
    } else if f(m.keys[i], m.vals[m.keys[i]]).None? {
      WalkDeletes(m, i, f);
      IterateFrom(m.Delete(m.keys[i]), i, f);
    } else {
      var v := f(m.keys[i], m.vals[m.keys[i]]).value;
      WalkKeeps(m, i, f, v);
      IterateFrom(m.Set(m.keys[i], v), i + 1, f);
    }
  }

  /** Deleting and rewriting during the iteration skips no entry and visits none twice. */
  lemma IterationSifts<K, V>(m: OMap<K, V>, f: (K, V) -> Option<V>)
    requires m.Valid()
    ensures Iterate(m, 0, f) == Sift(m, f)
  {
    IterateFrom(m, 0, f);
    assert m.keys[0..] == m.keys && m.keys[..0] == [];
    assert WalkedVals(m, 0, f) == SiftVals(m.vals, f);
  }
}
