/** The mailbox as an object updated in place; its passes delete from the map they iterate over. */
module PeerMailboxClass {
  import opened OrderedMap
  import Spec = PeerMailbox

  class PeerMailbox {
    var entries: Spec.Entries

    constructor ()
      ensures entries == Empty() && entries.Valid()
    {
      entries := OMap([], map[]);
    }

    method Prune(now: int)
      requires entries.Valid()
      modifies this
      ensures entries == Spec.Prune(old(entries), now)
    {
      IterationSifts(entries, Spec.Unexpired(now));
      var i := 0;
      while i < |entries.keys|
        invariant entries.Valid()
        invariant Iterate(entries, i, Spec.Unexpired(now)) == Iterate(old(entries), 0, Spec.Unexpired(now))
        decreases |entries.keys| - i
      {
        var k := entries.keys[i];
        if entries.vals[k].storedAt < now - Spec.EntryTtlMs {
          DeleteAt(entries, i);
          entries := entries.Delete(k);
        } else {
          assert entries.Set(k, entries.vals[k]) == entries;
          i := i + 1;
        }
      }
    }

    method Hold(e: Spec.Envelope, present: set<Spec.PeerId>, now: int)
      requires entries.Valid()
      modifies this
      ensures entries == Spec.Hold(old(entries), e, present, now)
    {
      var recipients := Spec.Except(Spec.RecipientsOf(e), present);
      if |recipients| == 0 { return; }
      Prune(now);
      SetValid(entries, e.nonce, Spec.Entry(e, recipients, now));
      entries := entries.Set(e.nonce, Spec.Entry(e, recipients, now));
      ghost var full := entries;
      while |entries.keys| > Spec.MaxEntries
        invariant entries.Valid() && Spec.Evict(entries) == Spec.Evict(full)
        decreases |entries.keys|
      {
        var oldest := entries.keys[0];
        DeleteAt(entries, 0);
        entries := entries.Delete(oldest);
      }
    }

    method Release(p: Spec.PeerId, now: int) returns (out: seq<Spec.Envelope>)
      requires entries.Valid()
      modifies this
      ensures (entries, out) == Spec.Release(old(entries), p, now)
    {
      Prune(now);
      ghost var live := entries;
      IterationSifts(live, Spec.Shedding(p));
      out := [];
      var i := 0;
      assert live.keys[0..] == live.keys;
      while i < |entries.keys|
        invariant entries.Valid() && i <= |entries.keys|
        invariant Iterate(entries, i, Spec.Shedding(p)) == Iterate(live, 0, Spec.Shedding(p))
        invariant Spec.Owed(live.keys, live.vals, p) == out + Spec.Owed(entries.keys[i..], entries.vals, p)
        decreases |entries.keys| - i
      {
        var k := entries.keys[i];
        var entry := entries.vals[k];
        if p !in entry.recipients {
          Spec.PassesBy(entries, i, p);
          i := i + 1;
        } else {
          ghost var given := out;
          out := out + [entry.envelope];
          var left := Spec.Except(entry.recipients, {p});
          if |left| == 0 {
            Spec.ServesLast(entries, i, p);
            entries := entries.Delete(k);
          } else {
            Spec.ServesOne(entries, i, p);
            entries := entries.Set(k, entry.(recipients := left));
            i := i + 1;
          }
          Joined(given, entry.envelope, Spec.Owed(entries.keys[i..], entries.vals, p));
        }
      }
      assert entries.keys[i..] == [] && out + [] == out;
    }
  }

  lemma Joined(a: seq<Spec.Envelope>, x: Spec.Envelope, b: seq<Spec.Envelope>)
    ensures (a + [x]) + b == a + ([x] + b)
  {
  }
}
