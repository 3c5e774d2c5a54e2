/** The store as an object; sessions are held and remembered by reference. */
module SessionStoreClass {
  import opened Common
  import opened OrderedMap
  import opened Sessions
  import Spec = SessionStore

  class InMemorySessionStore {
    var sessions: OMap<Id, Session>
    var deleted: set<Session>

    ghost function View(): Spec.Store<Session>
      reads this
    {
      Spec.Store(sessions, deleted)
    }

    constructor ()
      ensures View() == Spec.Store(Empty(), {}) && sessions.Valid()
    {
      sessions, deleted := OMap([], map[]), {};
    }

    method Save(s: Session)
      modifies this
      ensures View() == Spec.Save(old(View()), s.id, s)
    {
      if s in deleted { return; }
      sessions := sessions.Set(s.id, s);
    }

    method Get(id: Id) returns (s: Session?)
      ensures s == if id in sessions.vals then sessions.vals[id] else null
    {
      s := if id in sessions.vals then sessions.vals[id] else null;
    }

    method Delete(id: Id)
      modifies this
      ensures View() == Spec.Delete(old(View()), id)
    {
      if id in sessions.vals { deleted := deleted + {sessions.vals[id]}; }
      sessions := sessions.Delete(id);
    }

    method Touch(id: Id, now: int)
      modifies if id in sessions.vals then {sessions.vals[id]} else {}
      ensures id in sessions.vals ==> sessions.vals[id].View() == old(sessions.vals[id].View()).(lastActivityAt := now)
    {
      if id in sessions.vals {
        var s := sessions.vals[id];
        s.lastActivityAt := now;
      }
    }

    ghost function OverdueNow(now: int): set<Session>
      reads this, set k | k in sessions.vals :: sessions.vals[k]
    {
      set k | k in sessions.vals && Overdue(sessions.vals[k].View(), now) :: sessions.vals[k]
    }

    method IsOverdue(s: Session, now: int) returns (overdue: bool)
      ensures overdue == Overdue(s.View(), now)
    {
      var isExpired := s.expiresAt < now;
      var isInactive := now - s.lastActivityAt > InactivityTtlMs;
      var isEmptyTooLong := s.participantCount == 0 && s.emptySince.Some? && now - s.emptySince.value > EmptySessionTtlMs;
      overdue := isExpired || isInactive || isEmptyTooLong;
    }

    method Cleanup(now: int) returns (out: seq<Session>)
      requires sessions.Valid()
      modifies this
      ensures (View(), out) == Spec.Cleanup(old(View()), old(OverdueNow(now)))
    {
      ghost var overdue := OverdueNow(now);
      ghost var was, keeping := sessions, Spec.Keeping(overdue);
      IterationSifts(was, keeping);
      out := [];
      var i := 0;
      assert was.keys[0..] == was.keys;
      while i < |sessions.keys|
        invariant sessions.Valid() && i <= |sessions.keys|
        invariant forall k :: k in sessions.vals ==> k in was.vals && sessions.vals[k] == was.vals[k]
        invariant Iterate(sessions, i, keeping) == Iterate(was, 0, keeping)
        invariant Spec.Reaped(was.keys, was.vals, overdue) == out + Spec.Reaped(sessions.keys[i..], sessions.vals, overdue)
        invariant deleted == old(deleted) + Spec.Members(out)
        decreases |sessions.keys| - i
      {
        var id := sessions.keys[i];
        var s := sessions.vals[id];
        var reap := IsOverdue(s, now);
        assert reap <==> s in overdue;
        if reap {
          Spec.ReapsHere(sessions, i, overdue);
          sessions := sessions.Delete(id);
          Spec.Joined(out, s, Spec.Reaped(sessions.keys[i..], sessions.vals, overdue));
          deleted := deleted + {s};
          out := out + [s];
        } else {
          Spec.PassesHere(sessions, i, overdue);
          i := i + 1;
        }
      }
      assert sessions.keys[i..] == [] && out + [] == out;
      assert sessions == Sift(was, keeping);
    }
  }

  class CreateSession {
    const store: InMemorySessionStore

    constructor (store: InMemorySessionStore)
      ensures this.store == store
    {
      this.store := store;
    }

    /** `newId` and the other strings are random draws; `None` is the refusal at capacity. */
    method Execute(o: Options, newId: Id, hostId: PeerId, recovery: string, token: Token, now: int)
      returns (r: Option<(Session, bool)>)
      requires store.sessions.Valid()
      modifies store
      ensures var named := o.id.Some? && o.id.value != "" && o.id.value in old(store.sessions).vals;
              var full := |old(store.sessions).keys| >= MaxActiveSessions;
              && (named ==> r == Some((old(store.sessions).vals[o.id.value], true)) && store.View() == old(store.View()))
              && (!named && full ==> r == None && store.View() == old(store.View()))
              && (!named && !full ==>
                    r.Some? && !r.value.1 && fresh(r.value.0)
                    && r.value.0.id == (if o.id.Some? && o.id.value != "" then o.id.value else newId)
                    && r.value.0.View() == Fresh(o, hostId, recovery, token, now)
                    && store.sessions == old(store.sessions).Set(r.value.0.id, r.value.0)
                    && store.deleted == old(store.deleted))
    {
      if o.id.Some? && o.id.value != "" {
        var existing := store.Get(o.id.value);
        if existing != null { return Some((existing, true)); }
      }
      if |store.sessions.keys| >= MaxActiveSessions { return None; }
      var ttl := if o.expiresInSeconds.None? || o.expiresInSeconds.value == 0 then DefaultTtlMs else o.expiresInSeconds.value * 1000;
      var actualTtl := Min(ttl, MaxTtlMs);
      var id := if o.id.Some? && o.id.value != "" then o.id.value else newId;
      var s := new Session(id, Fields(now, now + actualTtl, now, hostId, recovery, o.hostPublicKey,
                                      map[hostId := Peer(now, now, token)], map[], Waiting, ClampPeers(o.maxPeers), 1, None, false));
      store.Save(s);
      return Some((s, false));
    }
  }

  /** The refresh endpoint, once the caller has proved to be a participant; false is its 409. */
  method Refresh(store: InMemorySessionStore, s: Session, now: int) returns (ok: bool)
    modifies store, s
    ensures ok <==> old(s.participantCount) > 0
    ensures ok ==> s.View() == old(s.View()).(expiresAt := RefreshedExpiry(s.createdAt, now), lastActivityAt := now)
    ensures ok ==> store.View() == Spec.Save(old(store.View()), s.id, s)
    ensures !ok ==> s.View() == old(s.View()) && store.View() == old(store.View())
  {
    if s.participantCount <= 0 { return false; }
    s.expiresAt := Min(now + DefaultTtlMs, s.createdAt + MaxTtlMs);
    s.lastActivityAt := now;
    store.Save(s);
    return true;
  }
}
