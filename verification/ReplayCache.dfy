/**
 The relay's two bounded replay guards: the nonces of relayed envelopes, and
 the nonces of membership join proofs. Both are insertion-ordered maps from a
 key to the time it was accepted; they differ in how they make room.
 */
module ReplayCache {
  import opened Common
  import opened OrderedMap

  type Key = string
  type Cache = OMap<Key, int>

  const NonceCacheMax := 50000
  /** Twice the timestamp tolerance for envelopes, twice the connection window for proofs. */
  const MaxAgeMs := 120000

  datatype Guard = Envelopes | Proofs

  function Young(now: int): (Key, int) -> Option<int> {
    (k, at: int) => if at < now - MaxAgeMs then None else Some(at)
  }

  function Prune(m: Cache, now: int): (r: Cache)
    requires m.Valid()
    ensures r.Valid() && |r.keys| <= |m.keys|
  {
    SiftValid(m, Young(now));
    Sift(m, Young(now))
  }

  function EvictOldest(m: Cache): (r: Cache)
    requires m.Valid()
    ensures r.Valid()
    decreases |m.keys|
  {
    if |m.keys| >= NonceCacheMax then DeleteAt(m, 0); EvictOldest(m.Delete(m.keys[0])) else m
  }

  /** Envelopes: age first, then the oldest until below the cap. Proofs: one oldest entry. */
  function MakeRoom(g: Guard, m: Cache, now: int): (r: Cache)
    requires m.Valid()
    ensures r.Valid()
  {
    match g
    case Envelopes => EvictOldest(Prune(m, now))
    case Proofs => if m.keys == [] then m else DeleteAt(m, 0); m.Delete(m.keys[0])
  }

  /** The new cache, and whether the key is accepted as new. */
  function Offer(g: Guard, m: Cache, k: Key, now: int): (r: (Cache, bool))
    requires m.Valid()
    ensures r.0.Valid()
  {
    if k in m.vals then (m, false)
    else
      var room := if |m.keys| >= NonceCacheMax then MakeRoom(g, m, now) else m;
      SetValid(room, k, now);
      (room.Set(k, now), true)
  }

  // ----- keys ------------------------------------------------------------------------------

  function EnvelopeKey(sessionId: string, from: string, nonce: string): Key {
    sessionId + [':'] + from + [':'] + nonce
  }

  function ProofKey(sessionId: string, nonce: string): Key { sessionId + [':'] + nonce }

  lemma FirstColon(a: string, x: string)
    requires ':' !in a
    ensures (a + [':'] + x)[|a|] == ':'
    ensures forall i :: 0 <= i < |a| ==> (a + [':'] + x)[i] != ':'
    ensures (a + [':'] + x)[..|a|] == a && (a + [':'] + x)[|a| + 1..] == x
  {
  }

  lemma FirstFieldUnambiguous(a: string, b: string, x: string, y: string)
    requires ':' !in a && ':' !in b && a + [':'] + x == b + [':'] + y
    ensures a == b && x == y
  {
    FirstColon(a, x);
    FirstColon(b, y);
  }

  /** Session ids and peer ids hold no colon, so no two envelopes share a key by accident. */
  lemma EnvelopeKeyInjective(s1: string, f1: string, n1: string, s2: string, f2: string, n2: string)
    requires ':' !in s1 && ':' !in s2 && ':' !in f1 && ':' !in f2
    requires EnvelopeKey(s1, f1, n1) == EnvelopeKey(s2, f2, n2)
    ensures (s1, f1, n1) == (s2, f2, n2)
  {
    assert EnvelopeKey(s1, f1, n1) == s1 + [':'] + (f1 + [':'] + n1);
    assert EnvelopeKey(s2, f2, n2) == s2 + [':'] + (f2 + [':'] + n2);
    FirstFieldUnambiguous(s1, s2, f1 + [':'] + n1, f2 + [':'] + n2);
    FirstFieldUnambiguous(f1, f2, n1, n2);
  }

  // ----- runs ------------------------------------------------------------------------------

  /** A key is offered, or the periodic sweep drops the old ones. */
  datatype Event = Offered(key: Key, at: int) | Swept(at: int)

  function After(g: Guard, es: seq<Event>): (r: Cache)
    ensures r.Valid()
  {
    if es == [] then Empty()
    else
      var m := After(g, es[..|es| - 1]);
      match es[|es| - 1]
      case Offered(k, at) => Offer(g, m, k, at).0
      case Swept(at) => Prune(m, at)
  }

  /** What became of an event. */
  datatype Record = Record(event: Event, accepted: bool)

  /** What became of every event of a run. */
  function Log(g: Guard, es: seq<Event>): (r: seq<Record>)
    ensures |r| == |es|
    ensures forall i :: 0 <= i < |r| ==> r[i].event == es[i]
    ensures forall i :: 0 <= i < |r| && r[i].accepted ==> es[i].Offered?
  {
    if es == [] then []
    else
      var before, e := es[..|es| - 1], es[|es| - 1];
      Log(g, before) + [Record(e, e.Offered? && Offer(g, After(g, before), e.key, e.at).1)]
  }

  ghost predicate ClockRuns(es: seq<Event>) {
    forall i, j :: 0 <= i < j < |es| ==> es[i].at <= es[j].at
  }

  /** How many keys the events from `i` up to, not including, `j` got accepted. */
  function Acceptances(log: seq<Record>, i: nat, j: nat): nat
    requires i <= j <= |log|
    decreases j - i
  {
    if i == j then 0 else Acceptances(log, i, j - 1) + (if log[j - 1].accepted then 1 else 0)
  }

  /** How many keys have been accepted since event `i`. */
  function Since(log: seq<Record>, i: nat): nat
    requires i < |log|
  {
    Acceptances(log, i + 1, |log|)
  }

  /** The last event that got `k` accepted, or -1. */
  function LastAccepted(log: seq<Record>, k: Key): (r: int)
    ensures -1 <= r < |log|
    ensures r >= 0 ==> log[r].accepted && log[r].event.Offered? && log[r].event.key == k
    ensures forall i :: r < i < |log| ==> !(log[i].accepted && log[i].event.Offered? && log[i].event.key == k)
  {
    if log == [] then -1
    else
      var last := log[|log| - 1];
      if last.accepted && last.event.Offered? && last.event.key == k then |log| - 1
      else LastAccepted(log[..|log| - 1], k)
  }

  lemma {:induction false} CountsSplit(log: seq<Record>, i: nat, m: nat, j: nat)
    requires i <= m <= j <= |log|
    ensures Acceptances(log, i, j) == Acceptances(log, i, m) + Acceptances(log, m, j)
    decreases j - m
  {
    if m < j { CountsSplit(log, i, m, j - 1); }
  }

  lemma {:induction false} CountsPast(log: seq<Record>, more: seq<Record>, i: nat, j: nat)
    requires i <= j <= |log|
    ensures Acceptances(log + more, i, j) == Acceptances(log, i, j)
    decreases j - i
  {
    if i < j { CountsPast(log, more, i, j - 1); }
  }

  // ----- what the cache holds ----------------------------------------------------------------

  /** Each entry is its key's last acceptance, and the entries stand in order of acceptance. */
  ghost predicate Faithful(log: seq<Record>, m: Cache) {
    && (forall k :: k in m.vals ==> LastAccepted(log, k) >= 0 && m.vals[k] == log[LastAccepted(log, k)].event.at)
    && InOrder(log, m.keys)
  }

  ghost predicate InOrder(log: seq<Record>, s: seq<Key>) {
    forall i, j :: 0 <= i < j < |s| ==> LastAccepted(log, s[i]) < LastAccepted(log, s[j])
  }

  /** The acceptance at `i` has aged, or as many others as the cache has room for have followed it. */
  ghost predicate Forgettable(log: seq<Record>, i: nat, now: int)
    requires i < |log|
  {
    now - log[i].event.at > MaxAgeMs || Since(log, i) >= NonceCacheMax
  }

  /** A key that was once accepted is in the cache, or its acceptance may be forgotten. */
  ghost predicate Remembers(log: seq<Record>, m: Cache, now: int) {
    forall k :: LastAccepted(log, k) >= 0 && k !in m.vals ==> Forgettable(log, LastAccepted(log, k), now)
  }

  /** One acceptance short of forgettable: the one being made will complete it. */
  ghost predicate Leaving(log: seq<Record>, i: nat, now: int)
    requires i < |log|
  {
    now - log[i].event.at > MaxAgeMs || Since(log, i) >= NonceCacheMax - 1
  }

  /** Every key that is not in the cache may be forgotten once one more key is accepted. */
  ghost predicate HasRoomFor(log: seq<Record>, m: Cache, now: int) {
    forall x :: LastAccepted(log, x) >= 0 && x !in m.vals ==> Leaving(log, LastAccepted(log, x), now)
  }

  lemma PruneKeeps(log: seq<Record>, m: Cache, now: int)
    requires m.Valid() && Faithful(log, m)
    ensures Faithful(log, Prune(m, now))
    ensures forall k :: k in Prune(m, now).vals ==> k in m.vals
    ensures forall k :: k in m.vals && now - m.vals[k] <= MaxAgeMs ==> k in Prune(m, now).vals
  {
    PruneOrder(log, m.keys, m.vals, now);
  }

  lemma {:induction false} PruneOrder(log: seq<Record>, s: seq<Key>, vals: map<Key, int>, now: int)
    requires forall k :: k in s ==> k in vals
    requires InOrder(log, s)
    ensures InOrder(log, SiftKeys(s, vals, Young(now)))
  {
    if s != [] {
      PruneOrder(log, s[1..], vals, now);
      var r := SiftKeys(s[1..], vals, Young(now));
      SiftKeysMembers(s[1..], vals, Young(now));
      forall j | 0 <= j < |r| ensures LastAccepted(log, s[0]) < LastAccepted(log, r[j]) {
        assert r[j] in s[1..];
      }
      InOrderCons(log, s[0], r);
    }
  }

  lemma InOrderCons(log: seq<Record>, k: Key, s: seq<Key>)
    requires InOrder(log, s) && forall j :: 0 <= j < |s| ==> LastAccepted(log, k) < LastAccepted(log, s[j])
    ensures InOrder(log, [k] + s)
  {
  }

  /** With at most the cap in the cache, making room removes the aged and at most the oldest of a full cache. */
  lemma RoomMade(g: Guard, m: Cache, now: int)
    requires m.Valid() && |m.keys| == NonceCacheMax
    ensures var live := if g.Envelopes? then Prune(m, now) else m;
            MakeRoom(g, m, now) == if |live.keys| == NonceCacheMax then live.Delete(live.keys[0]) else live
    ensures |MakeRoom(g, m, now).keys| < NonceCacheMax
  {
    DeleteAt(m, 0);
    if g.Envelopes? {
      var live := Prune(m, now);
      if |live.keys| == NonceCacheMax {
        DeleteAt(live, 0);
        assert EvictOldest(live) == EvictOldest(live.Delete(live.keys[0]));
      }
    }
  }

  /** Neither guard ever remembers more keys than its cap. */
  lemma {:induction false} NeverAboveCap(g: Guard, es: seq<Event>)
    ensures |After(g, es).keys| <= NonceCacheMax
  {
    if es != [] {
      var m := After(g, es[..|es| - 1]);
      NeverAboveCap(g, es[..|es| - 1]);
      if es[|es| - 1].Offered? && |m.keys| == NonceCacheMax { RoomMade(g, m, es[|es| - 1].at); }
    }
  }

  /** Behind the oldest entry stand as many later acceptances as there are entries. */
  lemma {:induction false} EntriesAreAcceptances(log: seq<Record>, m: Cache, t: nat)
    requires m.Valid() && Faithful(log, m) && t < |m.keys|
    ensures 0 <= LastAccepted(log, m.keys[0]) <= LastAccepted(log, m.keys[t])
    ensures Acceptances(log, LastAccepted(log, m.keys[0]) + 1, LastAccepted(log, m.keys[t]) + 1) >= t
  {
    assert m.keys[0] in m.keys && m.keys[t] in m.keys;
    if t > 0 {
      EntriesAreAcceptances(log, m, t - 1);
      var first, prev, at := LastAccepted(log, m.keys[0]), LastAccepted(log, m.keys[t - 1]), LastAccepted(log, m.keys[t]);
      CountsSplit(log, first + 1, prev + 1, at + 1);
      CountsSplit(log, prev + 1, at, at + 1);
    }
  }

  /** When the oldest of a full cache makes room, that many acceptances less one lie behind it. */
  lemma OldestIsCovered(log: seq<Record>, m: Cache)
    requires m.Valid() && Faithful(log, m) && |m.keys| == NonceCacheMax
    ensures m.keys[0] in m.vals
    ensures Since(log, LastAccepted(log, m.keys[0])) >= NonceCacheMax - 1
  {
    var t := NonceCacheMax - 1;
    assert m.keys[0] in m.keys;
    EntriesAreAcceptances(log, m, t);
    CountsSplit(log, LastAccepted(log, m.keys[0]) + 1, LastAccepted(log, m.keys[t]) + 1, |log|);
  }

  // ----- one event ---------------------------------------------------------------------------

  /** What one more record changes in the reading of the log. */
  lemma LogGrows(log: seq<Record>, r: Record)
    ensures forall k :: LastAccepted(log + [r], k)
              == if r.accepted && r.event.Offered? && r.event.key == k then |log| else LastAccepted(log, k)
    ensures forall i: nat :: i < |log| ==> Since(log + [r], i) == Since(log, i) + (if r.accepted then 1 else 0)
  {
    assert (log + [r])[..|log|] == log;
    forall i: nat | i < |log| ensures Since(log + [r], i) == Since(log, i) + (if r.accepted then 1 else 0) {
      CountsPast(log, [r], i + 1, |log|);
    }
  }

  /** A record that accepts nothing, at a later time, over the same or a merely pruned cache. */
  lemma QuietEvent(log: seq<Record>, m: Cache, m2: Cache, r: Record, was: int)
    requires m.Valid() && Faithful(log, m) && Remembers(log, m, was) && was <= r.event.at && !r.accepted
    requires m2 == m || m2 == Prune(m, r.event.at)
    ensures Faithful(log + [r], m2) && Remembers(log + [r], m2, r.event.at)
  {
    QuietFaithful(log, m, r);
    QuietRemembers(log, m, r, was);
    if m2 != m {
      PruneKeeps(log + [r], m, r.event.at);
      PruneRemembers(log + [r], m, r.event.at);
    }
  }

  lemma QuietFaithful(log: seq<Record>, m: Cache, r: Record)
    requires m.Valid() && Faithful(log, m) && !r.accepted
    ensures Faithful(log + [r], m)
  {
    LogGrows(log, r);
  }

  lemma QuietRemembers(log: seq<Record>, m: Cache, r: Record, was: int)
    requires Remembers(log, m, was) && was <= r.event.at && !r.accepted
    ensures Remembers(log + [r], m, r.event.at)
  {
    LogGrows(log, r);
    forall k | LastAccepted(log + [r], k) >= 0 && k !in m.vals
      ensures Forgettable(log + [r], LastAccepted(log + [r], k), r.event.at)
    {
      assert Forgettable(log, LastAccepted(log, k), was);
    }
  }

  lemma PruneRemembers(log: seq<Record>, m: Cache, now: int)
    requires m.Valid() && Faithful(log, m) && Remembers(log, m, now)
    ensures Remembers(log, Prune(m, now), now)
  {
    PruneKeeps(log, m, now);
  }

  /** A new key joins a cache that has room; whatever left is old, or covered by the acceptances since. */
  lemma Joins(log: seq<Record>, m: Cache, k: Key, now: int)
    requires m.Valid() && Faithful(log, m) && k !in m.vals && HasRoomFor(log, m, now)
    ensures Faithful(log + [Record(Offered(k, now), true)], m.Set(k, now))
    ensures Remembers(log + [Record(Offered(k, now), true)], m.Set(k, now), now)
  {
    LogGrows(log, Record(Offered(k, now), true));
    JoinsBehind(log, m, k, now);
    JoinsRemembers(log, m, k, now);
  }

  lemma JoinsBehind(log: seq<Record>, m: Cache, k: Key, now: int)
    requires m.Valid() && Faithful(log, m) && k !in m.vals
    ensures InOrder(log + [Record(Offered(k, now), true)], m.keys + [k])
  {
    var r := Record(Offered(k, now), true);
    LogGrows(log, r);
    forall x | x in m.keys ensures LastAccepted(log + [r], x) == LastAccepted(log, x) < |log| {}
  }

  lemma JoinsRemembers(log: seq<Record>, m: Cache, k: Key, now: int)
    requires m.Valid() && k !in m.vals && HasRoomFor(log, m, now)
    ensures Remembers(log + [Record(Offered(k, now), true)], m.Set(k, now), now)
  {
    var r := Record(Offered(k, now), true);
    LogGrows(log, r);
    forall x | LastAccepted(log + [r], x) >= 0 && x !in m.Set(k, now).vals
      ensures Forgettable(log + [r], LastAccepted(log + [r], x), now)
    {
      assert x != k && Leaving(log, LastAccepted(log, x), now);
    }
  }

  lemma PruneHasRoom(log: seq<Record>, m: Cache, was: int, now: int)
    requires m.Valid() && Faithful(log, m) && Remembers(log, m, was) && was <= now
    ensures HasRoomFor(log, m, now) && HasRoomFor(log, Prune(m, now), now)
  {
    PruneKeeps(log, m, now);
  }

  lemma OldestLeaves(log: seq<Record>, m: Cache, now: int)
    requires m.Valid() && Faithful(log, m) && HasRoomFor(log, m, now) && |m.keys| == NonceCacheMax
    ensures m.Delete(m.keys[0]).Valid()
    ensures Faithful(log, m.Delete(m.keys[0])) && HasRoomFor(log, m.Delete(m.keys[0]), now)
  {
    DeleteAt(m, 0);
    OldestIsCovered(log, m);
    assert m.keys[..0] + m.keys[1..] == m.keys[1..];
    InOrderTail(log, m.keys);
  }

  lemma InOrderTail(log: seq<Record>, s: seq<Key>)
    requires InOrder(log, s) && s != []
    ensures InOrder(log, s[1..])
  {
  }

  lemma RoomKeeps(g: Guard, log: seq<Record>, m: Cache, was: int, now: int)
    requires m.Valid() && Faithful(log, m) && Remembers(log, m, was) && was <= now
    requires |m.keys| == NonceCacheMax
    ensures Faithful(log, MakeRoom(g, m, now)) && HasRoomFor(log, MakeRoom(g, m, now), now)
  {
    RoomMade(g, m, now);
    PruneKeeps(log, m, now);
    PruneHasRoom(log, m, was, now);
    var live := if g.Envelopes? then Prune(m, now) else m;
    if |live.keys| == NonceCacheMax { OldestLeaves(log, live, now); }
  }

  /** Making room brings nothing in. */
  lemma RoomOnlyRemoves(g: Guard, m: Cache, now: int, k: Key)
    requires m.Valid() && |m.keys| == NonceCacheMax && k !in m.vals
    ensures k !in MakeRoom(g, m, now).vals
  {
    RoomMade(g, m, now);
  }

  // ----- every run -----------------------------------------------------------------------------

  function EndTime(es: seq<Event>): int { if es == [] then 0 else es[|es| - 1].at }

  lemma {:induction false} CacheRemembers(g: Guard, es: seq<Event>)
    requires ClockRuns(es)
    ensures Faithful(Log(g, es), After(g, es))
    ensures Remembers(Log(g, es), After(g, es), EndTime(es))
  {
    if es != [] {
      var before, e := es[..|es| - 1], es[|es| - 1];
      CacheRemembers(g, before);
      if before == [] {
        assert forall k :: LastAccepted(Log(g, before), k) == -1;
        assert Remembers(Log(g, before), After(g, before), e.at);
        EventKeeps(g, es, e.at);
      } else {
        assert before[|before| - 1] == es[|es| - 2];
        EventKeeps(g, es, EndTime(before));
      }
    }
  }

  lemma EventKeeps(g: Guard, es: seq<Event>, was: int)
    requires es != [] && was <= es[|es| - 1].at
    requires Faithful(Log(g, es[..|es| - 1]), After(g, es[..|es| - 1]))
    requires Remembers(Log(g, es[..|es| - 1]), After(g, es[..|es| - 1]), was)
    ensures Faithful(Log(g, es), After(g, es))
    ensures Remembers(Log(g, es), After(g, es), es[|es| - 1].at)
  {
    var before, e := es[..|es| - 1], es[|es| - 1];
    var m, log := After(g, before), Log(g, before);
    NeverAboveCap(g, before);
    if e.Offered? && e.key !in m.vals {
      if |m.keys| == NonceCacheMax {
        RoomKeeps(g, log, m, was, e.at);
        RoomOnlyRemoves(g, m, e.at, e.key);
        Joins(log, MakeRoom(g, m, e.at), e.key, e.at);
      } else {
        PruneHasRoom(log, m, was, e.at);
        Joins(log, m, e.key, e.at);
      }
    } else {
      QuietEvent(log, m, After(g, es), Record(e, false), was);
    }
  }

  lemma {:induction false} LogPast(g: Guard, es: seq<Event>, j: nat)
    requires j <= |es|
    ensures Log(g, es)[..j] == Log(g, es[..j])
    decreases |es|
  {
    if j == |es| {
      assert es[..j] == es && Log(g, es)[..j] == Log(g, es);
    } else {
      var before := es[..|es| - 1];
      LogPast(g, before, j);
      assert before[..j] == es[..j];
      assert Log(g, es)[..j] == Log(g, before)[..j];
    }
  }

  /**
   Two acceptances of one key are more than two minutes apart, or a whole
   cacheful of other acceptances lies between them.
   */
  lemma ReplayIsCaught(g: Guard, es: seq<Event>, i: nat, j: nat)
    requires ClockRuns(es) && i < j < |es|
    requires Log(g, es)[i].accepted && Log(g, es)[j].accepted && es[i].key == es[j].key
    ensures es[j].at - es[i].at > MaxAgeMs || Acceptances(Log(g, es), i + 1, j) >= NonceCacheMax
  {
    LogPast(g, es, j);
    CacheRemembers(g, es[..j]);
    AcceptedWasAbsent(g, es, j);
    RemembersSpreads(Log(g, es), j, i, es[j].key, After(g, es[..j]), EndTime(es[..j]));
  }

  lemma AcceptedWasAbsent(g: Guard, es: seq<Event>, j: nat)
    requires j < |es| && Log(g, es)[j].accepted
    ensures es[j].Offered? && es[j].key !in After(g, es[..j]).vals
  {
    LogPast(g, es, j + 1);
    assert es[..j + 1][..j] == es[..j];
    assert Log(g, es)[j] == Log(g, es)[..j + 1][j];
  }

  lemma RemembersSpreads(full: seq<Record>, j: nat, i: nat, k: Key, m: Cache, now: int)
    requires i < j <= |full| && Remembers(full[..j], m, now) && k !in m.vals
    requires full[i].accepted && full[i].event.Offered? && full[i].event.key == k
    requires forall x, y :: 0 <= x < y < |full| ==> full[x].event.at <= full[y].event.at
    ensures now - full[i].event.at > MaxAgeMs || Acceptances(full, i + 1, j) >= NonceCacheMax
  {
    var log := full[..j];
    LastCovers(log, i, k);
    assert Forgettable(log, LastAccepted(log, k), now);
    SinceIsBetween(full, j, i);
  }

  lemma SinceIsBetween(full: seq<Record>, j: nat, i: nat)
    requires i < j <= |full|
    ensures Since(full[..j], i) == Acceptances(full, i + 1, j)
  {
    assert full == full[..j] + full[j..];
    CountsPast(full[..j], full[j..], i + 1, j);
  }

  /** An acceptance of `k` is its last one, or is followed by it. */
  lemma LastCovers(log: seq<Record>, i: nat, k: Key)
    requires i < |log| && log[i].accepted && log[i].event.Offered? && log[i].event.key == k
    ensures i <= LastAccepted(log, k)
    ensures Since(log, LastAccepted(log, k)) <= Since(log, i)
  {
    CountsSplit(log, i + 1, LastAccepted(log, k) + 1, |log|);
  }
}
