/** The store-and-forward buffer one peer keeps for peers that dropped, on values. */
module PeerMailbox {
  import opened Common
  import opened OrderedMap

  type PeerId = string
  type Nonce = string

  const MaxEntries := 200
  const EntryTtlMs := 300000

  datatype Kind = NoiseMessage | File | OtherKind

  /** `slots` holds the keys of the payload's slot table, when the payload parses to one. */
  datatype Envelope = Envelope(kind: Kind, nonce: Nonce, slots: Option<seq<PeerId>>, payload: string)

  datatype Entry = Entry(envelope: Envelope, recipients: seq<PeerId>, storedAt: int)

  type Entries = OMap<Nonce, Entry>

  function RecipientsOf(e: Envelope): seq<PeerId> {
    if e.kind.OtherKind? || e.slots.None? then [] else e.slots.value
  }

  /** `ids` without the members of `gone`, in order. */
  function Except(ids: seq<PeerId>, gone: set<PeerId>): (r: seq<PeerId>)
    ensures forall p :: p in r ==> p in ids && p !in gone
    ensures forall p :: p in ids && p !in gone ==> p in r
  {
    if ids == [] then []
    else if ids[0] in gone then Except(ids[1..], gone)
    else [ids[0]] + Except(ids[1..], gone)
  }

  function Unexpired(now: int): (Nonce, Entry) -> Option<Entry> {
    (k, e: Entry) => if e.storedAt < now - EntryTtlMs then None else Some(e)
  }

  function Shedding(p: PeerId): (Nonce, Entry) -> Option<Entry> {
    (k, e: Entry) =>
      if p !in e.recipients then Some(e)
      else if Except(e.recipients, {p}) == [] then None
      else Some(e.(recipients := Except(e.recipients, {p})))
  }

  function Prune(m: Entries, now: int): (r: Entries)
    requires m.Valid()
    ensures r.Valid() && |r.keys| <= |m.keys|
  {
    SiftValid(m, Unexpired(now));
    Sift(m, Unexpired(now))
  }

  function Evict(m: Entries): (r: Entries)
    requires m.Valid()
    ensures r.Valid() && |r.keys| <= MaxEntries
    decreases |m.keys|
  {
    if |m.keys| > MaxEntries then DeleteAt(m, 0); Evict(m.Delete(m.keys[0])) else m
  }

  function Hold(m: Entries, e: Envelope, present: set<PeerId>, now: int): (r: Entries)
    requires m.Valid()
    ensures r.Valid()
  {
    var recipients := Except(RecipientsOf(e), present);
    if recipients == [] then m
    else
      SetValid(Prune(m, now), e.nonce, Entry(e, recipients, now));
      Evict(Prune(m, now).Set(e.nonce, Entry(e, recipients, now)))
  }

  /** The envelopes along `keys` that still list `p`. */
  function Owed(keys: seq<Nonce>, vals: map<Nonce, Entry>, p: PeerId): seq<Envelope>
    requires forall k :: k in keys ==> k in vals
  {
    if keys == [] then []
    else (if p in vals[keys[0]].recipients then [vals[keys[0]].envelope] else []) + Owed(keys[1..], vals, p)
  }

  function Release(m: Entries, p: PeerId, now: int): (r: (Entries, seq<Envelope>))
    requires m.Valid()
    ensures r.0.Valid()
  {
    var live := Prune(m, now);
    SiftValid(live, Shedding(p));
    (Sift(live, Shedding(p)), Owed(live.keys, live.vals, p))
  }

  lemma {:induction false} OwedLocal(keys: seq<Nonce>, a: map<Nonce, Entry>, b: map<Nonce, Entry>, p: PeerId)
    requires forall k :: k in keys ==> k in a && k in b && a[k] == b[k]
    ensures Owed(keys, a, p) == Owed(keys, b, p)
  {
    if keys != [] { OwedLocal(keys[1..], a, b, p); }
  }

  /** The entry at the cursor owes nothing to `p`. */
  lemma PassesBy(m: Entries, i: nat, p: PeerId)
    requires m.Valid() && i < |m.keys| && p !in m.vals[m.keys[i]].recipients
    ensures Iterate(m, i, Shedding(p)) == Iterate(m, i + 1, Shedding(p))
    ensures Owed(m.keys[i..], m.vals, p) == Owed(m.keys[i + 1..], m.vals, p)
  {
    var k := m.keys[i];
    assert m.Set(k, m.vals[k]) == m;
    assert m.keys[i..] == [k] + m.keys[i + 1..];
  }

  /** The entry at the cursor owed `p` alone: the entries behind it move up, none is missed. */
  lemma ServesLast(m: Entries, i: nat, p: PeerId)
    requires m.Valid() && i < |m.keys| && p in m.vals[m.keys[i]].recipients
    requires Except(m.vals[m.keys[i]].recipients, {p}) == []
    ensures var m2 := m.Delete(m.keys[i]);
            && m2.Valid() && |m2.keys| == |m.keys| - 1
            && Iterate(m, i, Shedding(p)) == Iterate(m2, i, Shedding(p))
            && Owed(m.keys[i..], m.vals, p) == [m.vals[m.keys[i]].envelope] + Owed(m2.keys[i..], m2.vals, p)
  {
    DeletedKeys(m, i);
    var tail := m.keys[i + 1..];
    assert m.keys[i..] == [m.keys[i]] + tail;
    OwedLocal(tail, m.vals, m.Delete(m.keys[i]).vals, p);
  }

  /** The entry at the cursor owes others too: it stays, in its place. */
  lemma ServesOne(m: Entries, i: nat, p: PeerId)
    requires m.Valid() && i < |m.keys| && p in m.vals[m.keys[i]].recipients
    requires Except(m.vals[m.keys[i]].recipients, {p}) != []
    ensures var e := m.vals[m.keys[i]];
            var m2 := m.Set(m.keys[i], e.(recipients := Except(e.recipients, {p})));
            && m2.Valid() && |m2.keys| == |m.keys|
            && Iterate(m, i, Shedding(p)) == Iterate(m2, i + 1, Shedding(p))
            && Owed(m.keys[i..], m.vals, p) == [e.envelope] + Owed(m2.keys[i + 1..], m2.vals, p)
  {
    var e := m.vals[m.keys[i]];
    var left := e.(recipients := Except(e.recipients, {p}));
    SetValid(m, m.keys[i], left);
    var tail := m.keys[i + 1..];
    assert m.keys[i..] == [m.keys[i]] + tail;
    OwedLocal(tail, m.vals, m.Set(m.keys[i], left).vals, p);
  }
}
