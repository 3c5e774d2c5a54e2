/** What the mailbox owes and hands out, told from the calls made to it rather than from its entries. */
module MailboxHistory {
  import opened Common
  import opened OrderedMap
  import opened PeerMailbox

  datatype Event =
    | Holds(envelope: Envelope, present: set<PeerId>, at: int)
    | Releases(peer: PeerId, at: int)

  function Absent(e: Event): seq<PeerId>
    requires e.Holds?
  {
    Except(RecipientsOf(e.envelope), e.present)
  }

  /** The call stores something under `k`. */
  predicate Stores(e: Event, k: Nonce) {
    e.Holds? && e.envelope.nonce == k && Absent(e) != []
  }

  /** The call prunes: every one does but a hold for nobody. */
  predicate Prunes(e: Event) { e.Releases? || Absent(e) != [] }

  function Apply(m: Entries, e: Event): (r: Entries)
    requires m.Valid()
    ensures r.Valid()
  {
    match e
    case Holds(env, present, at) => Hold(m, env, present, at)
    case Releases(p, at) => Release(m, p, at).0
  }

  function After(es: seq<Event>): (r: Entries)
    ensures r.Valid()
  {
    if es == [] then Empty() else Apply(After(es[..|es| - 1]), es[|es| - 1])
  }

  /** The last call that stored something under `k`. */
  function LastHold(es: seq<Event>, k: Nonce): (r: Option<nat>)
    ensures r.Some? ==> r.value < |es| && Stores(es[r.value], k)
    ensures r.Some? ==> forall j :: r.value < j < |es| ==> !Stores(es[j], k)
  {
    if es == [] then None
    else if Stores(es[|es| - 1], k) then Some(|es| - 1)
    else LastHold(es[..|es| - 1], k)
  }

  /** Whom the hold at `h` was for, less everyone a later release has served. */
  function StillOwed(es: seq<Event>, h: nat): seq<PeerId>
    requires h < |es| && es[h].Holds?
  {
    var last := |es| - 1;
    if h == last then Absent(es[h])
    else
      var before := StillOwed(es[..last], h);
      if es[last].Releases? then Except(before, {es[last].peer}) else before
  }

  /** The entry under `k` is the last hold under that nonce and lists exactly whom it still owes. */
  ghost predicate Truthful(es: seq<Event>, m: Entries, k: Nonce)
    requires k in m.vals
  {
    var h := LastHold(es, k);
    && h.Some?
    && m.vals[k] == Entry(es[h.value].envelope, StillOwed(es, h.value), es[h.value].at)
    && StillOwed(es, h.value) != []
  }

  /** The hold had outlived its time at a later call that prunes. */
  predicate Expired(es: seq<Event>, h: nat, j: nat)
    requires h < |es| && j < |es|
  {
    h < j && Prunes(es[j]) && es[h].at < es[j].at - EntryTtlMs
  }

  /** At call `j` the mailbox was full of live entries, `k` the oldest, and another nonce came in. */
  predicate Evicted(es: seq<Event>, k: Nonce, j: nat)
    requires j < |es|
  {
    var live := Prune(After(es[..j]), es[j].at);
    && es[j].Holds? && Absent(es[j]) != [] && es[j].envelope.nonce !in live.vals
    && |live.keys| == MaxEntries && live.keys[0] == k
  }

  // ----- one call ------------------------------------------------------------------------

  lemma PruneVals(m: Entries, now: int)
    requires m.Valid()
    ensures forall k :: k in Prune(m, now).vals ==> k in m.vals && Prune(m, now).vals[k] == m.vals[k]
                                                     && m.vals[k].storedAt >= now - EntryTtlMs
    ensures forall k :: k in m.vals && m.vals[k].storedAt >= now - EntryTtlMs ==> k in Prune(m, now).vals
  {
  }

  /** At most one entry, the oldest, makes room. */
  lemma HoldEntries(m: Entries, e: Event)
    requires m.Valid() && |m.keys| <= MaxEntries && e.Holds? && Absent(e) != []
    ensures var live := Prune(m, e.at);
            var full := live.Set(e.envelope.nonce, Entry(e.envelope, Absent(e), e.at));
            if e.envelope.nonce !in live.vals && |live.keys| == MaxEntries
            then Apply(m, e).keys == live.keys[1..] + [e.envelope.nonce]
                 && Apply(m, e).vals == full.vals - {live.keys[0]}
                 && live.keys[0] in live.vals
            else Apply(m, e) == full
  {
    var live := Prune(m, e.at);
    SetValid(live, e.envelope.nonce, Entry(e.envelope, Absent(e), e.at));
    EvictsOne(live, e.envelope.nonce, Entry(e.envelope, Absent(e), e.at));
  }

  lemma EvictsOne(live: Entries, k: Nonce, v: Entry)
    requires live.Valid() && |live.keys| <= MaxEntries && live.Set(k, v).Valid()
    ensures if k !in live.vals && |live.keys| == MaxEntries
            then Evict(live.Set(k, v)) == OMap(live.keys[1..] + [k], live.vals[k := v] - {live.keys[0]})
                 && live.keys[0] in live.vals
            else Evict(live.Set(k, v)) == live.Set(k, v)
  {
    var full := live.Set(k, v);
    if |full.keys| > MaxEntries {
      assert full.keys[0] == live.keys[0] && live.keys[0] in live.keys;
      DeleteAt(full, 0);
      assert full.keys[..0] + full.keys[1..] == live.keys[1..] + [k];
      var rest := full.Delete(full.keys[0]);
      assert |rest.keys| == MaxEntries;
      assert Evict(rest) == rest;
    }
  }

  /** The mailbox never holds more than two hundred entries. */
  lemma {:induction false} SizeBounded(es: seq<Event>)
    ensures |After(es).keys| <= MaxEntries
  {
    if es != [] {
      var before, e := es[..|es| - 1], es[|es| - 1];
      SizeBounded(before);
      if e.Releases? {
        SiftValid(Prune(After(before), e.at), Shedding(e.peer));
      }
    }
  }

  /** What one call leaves of an entry that was there. */
  lemma ApplyKeeps(m: Entries, e: Event, k: Nonce)
    requires m.Valid() && |m.keys| <= MaxEntries && k in Apply(m, e).vals && !Stores(e, k)
    ensures k in m.vals
    ensures e.Holds? ==> Apply(m, e).vals[k] == m.vals[k]
    ensures e.Releases? ==> Apply(m, e).vals[k] == m.vals[k].(recipients := Except(m.vals[k].recipients, {e.peer}))
    ensures e.Releases? && e.peer in m.vals[k].recipients ==> Except(m.vals[k].recipients, {e.peer}) != []
  {
    if e.Holds? {
      if Absent(e) != [] {
        HoldEntries(m, e);
        PruneVals(m, e.at);
      }
    } else {
      PruneVals(m, e.at);
      WithoutAbsent(m.vals[k].recipients, e.peer);
    }
  }

  lemma {:induction false} WithoutAbsent(ids: seq<PeerId>, p: PeerId)
    ensures p !in ids ==> Except(ids, {p}) == ids
  {
    if ids != [] && p !in ids { WithoutAbsent(ids[1..], p); }
  }

  lemma ApplyStores(m: Entries, e: Event, k: Nonce)
    requires m.Valid() && |m.keys| <= MaxEntries && Stores(e, k)
    ensures k in Apply(m, e).vals && Apply(m, e).vals[k] == Entry(e.envelope, Absent(e), e.at)
  {
    HoldEntries(m, e);
  }

  // ----- every history ---------------------------------------------------------------------

  /** Every entry tells the truth about the calls. */
  lemma {:induction false} EntriesAreTruthful(es: seq<Event>, k: Nonce)
    requires k in After(es).vals
    ensures Truthful(es, After(es), k)
  {
    if es != [] {
      var before, e := es[..|es| - 1], es[|es| - 1];
      SizeBounded(before);
      if Stores(e, k) {
        ApplyStores(After(before), e, k);
      } else {
        ApplyKeeps(After(before), e, k);
        EntriesAreTruthful(before, k);
        var h := LastHold(before, k).value;
        assert es[h] == before[h];
        WithoutAbsent(StillOwed(before, h), if e.Releases? then e.peer else "");
      }
    }
  }

  /** Whom a hold still owes: those it was for, without those a later release has served. */
  lemma {:induction false} OwedMembers(es: seq<Event>, h: nat, p: PeerId)
    requires h < |es| && es[h].Holds?
    ensures p in StillOwed(es, h) <==> p in Absent(es[h]) && forall j :: h < j < |es| && es[j].Releases? ==> es[j].peer != p
  {
    var last := |es| - 1;
    if h < last {
      OwedMembers(es[..last], h, p);
      assert es[..last][h] == es[h];
      assert forall j :: h < j < last ==> es[..last][j] == es[j];
    }
  }

  /**
   Every entry holds a message or a file with a slot table, and is for exactly
   those of the table who were not present at its last hold and have not been
   released since.
   */
  lemma RecipientsExactly(es: seq<Event>, k: Nonce, p: PeerId)
    requires k in After(es).vals
    ensures var entry := After(es).vals[k];
            && (entry.envelope.kind.NoiseMessage? || entry.envelope.kind.File?) && entry.envelope.slots.Some?
            && LastHold(es, k).Some?
            && var h := LastHold(es, k).value;
               (p in entry.recipients
                <==> p in entry.envelope.slots.value && p !in es[h].present
                     && forall j :: h < j < |es| && es[j].Releases? ==> es[j].peer != p)
  {
    EntriesAreTruthful(es, k);
    OwedMembers(es, LastHold(es, k).value, p);
  }

  /** A hold that still owes someone is in the mailbox, unless it expired or was evicted as the oldest of two hundred. */
  lemma {:induction false} NothingElseIsLost(es: seq<Event>, k: Nonce)
    requires LastHold(es, k).Some? && StillOwed(es, LastHold(es, k).value) != []
    ensures || k in After(es).vals
            || (exists j :: LastHold(es, k).value < j < |es| && (Expired(es, LastHold(es, k).value, j) || Evicted(es, k, j)))
  {
    var h := LastHold(es, k).value;
    var last := |es| - 1;
    var before, e := es[..last], es[last];
    SizeBounded(before);
    if h == last {
      ApplyStores(After(before), e, k);
    } else {
      assert LastHold(before, k) == Some(h) && before[h] == es[h];
      WithoutAbsent([], if e.Releases? then e.peer else "");
      NothingElseIsLost(before, k);
      if k in After(before).vals {
        EntriesAreTruthful(before, k);
        if k !in After(es).vals { LostNow(es, k); }
      } else {
        LossStands(before, es, h, k);
      }
    }
  }

  /** Why an entry went does not depend on later calls. */
  lemma LossStands(before: seq<Event>, es: seq<Event>, h: nat, k: Nonce)
    requires es != [] && before == es[..|es| - 1] && h < |before|
    requires exists j :: h < j < |before| && (Expired(before, h, j) || Evicted(before, k, j))
    ensures exists j :: h < j < |es| && (Expired(es, h, j) || Evicted(es, k, j))
  {
    var j :| h < j < |before| && (Expired(before, h, j) || Evicted(before, k, j));
    assert before[..j] == es[..j] && before[j] == es[j] && before[h] == es[h];
    assert Expired(es, h, j) || Evicted(es, k, j);
  }

  /** If the last call removed an entry that still owes someone, it had expired or was evicted. */
  lemma LostNow(es: seq<Event>, k: Nonce)
    requires es != [] && LastHold(es, k).Some? && StillOwed(es, LastHold(es, k).value) != []
    requires var before := es[..|es| - 1];
             LastHold(before, k) == LastHold(es, k) && k in After(before).vals && Truthful(before, After(before), k)
    requires k !in After(es).vals
    ensures Expired(es, LastHold(es, k).value, |es| - 1) || Evicted(es, k, |es| - 1)
  {
    var h, last := LastHold(es, k).value, |es| - 1;
    var before, e := es[..last], es[last];
    var m := After(before);
    SizeBounded(before);
    assert es[h] == before[h];
    if Prunes(e) && !Expired(es, h, last) {
      PruneVals(m, e.at);
      assert k in Prune(m, e.at).vals;
      if e.Holds? { HoldEntries(m, e); }
    }
  }

  /** The call finds `k` in the mailbox and leaves it in its place. */
  predicate Stays(m: Entries, e: Event, k: Nonce)
    requires m.Valid()
  {
    k in m.vals && (Stores(e, k) ==> k in Prune(m, e.at).vals)
  }

  /** The index of the call that put `k` where it stands in the iteration order. */
  function InsertedAt(es: seq<Event>, k: Nonce): (r: nat)
    ensures es != [] ==> r < |es|
  {
    if es == [] then 0
    else if Stays(After(es[..|es| - 1]), es[|es| - 1], k) then InsertedAt(es[..|es| - 1], k)
    else |es| - 1
  }

  ghost predicate InOrder(es: seq<Event>, keys: seq<Nonce>) {
    forall i, j :: 0 <= i < j < |keys| ==> InsertedAt(es, keys[i]) < InsertedAt(es, keys[j])
  }

  lemma {:induction false} SiftKeepsOrder(es: seq<Event>, s: seq<Nonce>, vals: map<Nonce, Entry>, f: (Nonce, Entry) -> Option<Entry>)
    requires InOrder(es, s) && forall k :: k in s ==> k in vals
    ensures InOrder(es, SiftKeys(s, vals, f))
  {
    if s != [] {
      SiftKeepsOrder(es, s[1..], vals, f);
      SiftKeysMembers(s[1..], vals, f);
      var r := SiftKeys(s[1..], vals, f);
      forall j | 0 <= j < |r| ensures InsertedAt(es, s[0]) < InsertedAt(es, r[j]) {
        assert r[j] in s[1..];
      }
    }
  }

  /** The entries stand in the order in which the calls brought them in. */
  lemma {:induction false} HoldOrder(es: seq<Event>)
    ensures InOrder(es, After(es).keys)
  {
    if es != [] {
      var before, e := es[..|es| - 1], es[|es| - 1];
      var m := After(before);
      HoldOrder(before);
      SiftKeepsOrder(before, m.keys, m.vals, Unexpired(e.at));
      var live := Prune(m, e.at);
      PruneVals(m, e.at);
      SameOrder(es, live.keys);
      if e.Releases? {
        SiftKeepsOrder(es, live.keys, live.vals, Shedding(e.peer));
      } else if Absent(e) != [] {
        SizeBounded(before);
        HoldEntries(m, e);
        NewestGoesLast(es, live, e.envelope.nonce);
      } else {
        SameOrder(es, m.keys);
      }
    }
  }

  /** Entries that stay keep their places. */
  lemma SameOrder(es: seq<Event>, keys: seq<Nonce>)
    requires es != [] && InOrder(es[..|es| - 1], keys)
    requires forall k :: k in keys ==> Stays(After(es[..|es| - 1]), es[|es| - 1], k)
    ensures InOrder(es, keys)
  {
    forall k | k in keys ensures InsertedAt(es, k) == InsertedAt(es[..|es| - 1], k) {
    }
  }

  /** A nonce that comes in new, or again after it has expired, goes behind all that stay. */
  lemma NewestGoesLast(es: seq<Event>, live: Entries, k: Nonce)
    requires es != [] && Stores(es[|es| - 1], k) && InOrder(es, live.keys)
    requires live == Prune(After(es[..|es| - 1]), es[|es| - 1].at)
    ensures k !in live.keys ==> InOrder(es, live.keys + [k])
    ensures |live.keys| > 0 ==> InOrder(es, live.keys[1..])
    ensures k !in live.keys && |live.keys| > 0 ==> InOrder(es, live.keys[1..] + [k])
  {
    if k !in live.keys {
      PruneVals(After(es[..|es| - 1]), es[|es| - 1].at);
      forall x | x in live.keys ensures InsertedAt(es, x) < InsertedAt(es, k) {
        assert es[..|es| - 1] != [];
        assert Stays(After(es[..|es| - 1]), es[|es| - 1], x);
      }
    }
  }

  // ----- what a release hands out --------------------------------------------------------

  /** Told from the calls alone: along `keys`, the live holds that still owe `p`. */
  function OwedByHistory(es: seq<Event>, keys: seq<Nonce>, p: PeerId, now: int): seq<Envelope>
    requires forall k :: k in keys ==> LastHold(es, k).Some?
  {
    if keys == [] then []
    else
      var h := LastHold(es, keys[0]).value;
      (if p in StillOwed(es, h) && es[h].at >= now - EntryTtlMs then [es[h].envelope] else [])
      + OwedByHistory(es, keys[1..], p, now)
  }

  lemma {:induction false} OwedAlong(es: seq<Event>, m: Entries, keys: seq<Nonce>, p: PeerId, now: int)
    requires forall k :: k in keys ==> k in m.vals && Truthful(es, m, k)
    ensures forall k :: k in keys ==> LastHold(es, k).Some?
    ensures forall k :: k in SiftKeys(keys, m.vals, Unexpired(now)) ==> k in PrunedVals(m, now)
    ensures Owed(SiftKeys(keys, m.vals, Unexpired(now)), PrunedVals(m, now), p) == OwedByHistory(es, keys, p, now)
  {
    SiftKeysMembers(keys, m.vals, Unexpired(now));
    if keys != [] {
      OwedAlong(es, m, keys[1..], p, now);
      var rest := SiftKeys(keys[1..], m.vals, Unexpired(now));
      assert ([keys[0]] + rest)[1..] == rest;
    }
  }

  function PrunedVals(m: Entries, now: int): map<Nonce, Entry> { SiftVals(m.vals, Unexpired(now)) }

  /** A release returns, in hold order, exactly the unexpired envelopes in the mailbox still owed to the peer. */
  lemma ReleaseExact(es: seq<Event>, p: PeerId, now: int)
    ensures forall k :: k in After(es).keys ==> LastHold(es, k).Some?
    ensures Release(After(es), p, now).1 == OwedByHistory(es, After(es).keys, p, now)
    ensures InOrder(es, After(es).keys)
  {
    HoldOrder(es);
    forall k | k in After(es).keys ensures Truthful(es, After(es), k) {
      EntriesAreTruthful(es, k);
    }
    OwedAlong(es, After(es), After(es).keys, p, now);
  }

  /** Call `j` handed the envelope of the hold at `h` to `p`. */
  predicate Handed(es: seq<Event>, h: nat, p: PeerId, j: nat)
    requires j < |es|
  {
    && h < j && es[j].Releases? && es[j].peer == p && es[h].Holds?
    && LastHold(es[..j], es[h].envelope.nonce) == Some(h)
    && var live := Prune(After(es[..j]), es[j].at);
       es[h].envelope.nonce in live.vals && p in live.vals[es[h].envelope.nonce].recipients
  }

  lemma {:induction false} ServedIsNotOwed(es: seq<Event>, h: nat, j: nat)
    requires h < j < |es| && es[h].Holds? && es[j].Releases?
    ensures es[j].peer !in StillOwed(es, h)
  {
    if j < |es| - 1 { ServedIsNotOwed(es[..|es| - 1], h, j); }
  }

  /** No hold is handed to the same peer twice. */
  lemma HandedAtMostOnce(es: seq<Event>, h: nat, p: PeerId, j1: nat, j2: nat)
    requires j1 < j2 < |es| && Handed(es, h, p, j1)
    ensures !Handed(es, h, p, j2)
  {
    var before := es[..j2];
    if Handed(es, h, p, j2) {
      PruneVals(After(before), es[j2].at);
      EntriesAreTruthful(before, es[h].envelope.nonce);
      ServedIsNotOwed(before, h, j1);
    }
  }

  /** No entry is kept for nobody. */
  lemma NeverForNobody(es: seq<Event>, k: Nonce)
    requires k in After(es).vals
    ensures After(es).vals[k].recipients != []
  {
    EntriesAreTruthful(es, k);
  }
}
