/**
 The session store on values: a map from ids to session objects, and the set of
 objects that were deleted. `R` is the type of object references.
 */
module SessionStore {
  import opened Common
  import opened OrderedMap
  import opened Sessions

  datatype Store<!R(==)> = Store(sessions: OMap<Id, R>, deleted: set<R>)

  /** A deleted object is not taken back, whatever its id. */
  function Save<R(==)>(st: Store<R>, id: Id, r: R): Store<R> {
    if r in st.deleted then st else st.(sessions := st.sessions.Set(id, r))
  }

  function Delete<R(==)>(st: Store<R>, id: Id): Store<R> {
    if id in st.sessions.vals
    then Store(st.sessions.Delete(id), st.deleted + {st.sessions.vals[id]})
    else st
  }

  function Keeping<R(==)>(gone: set<R>): (Id, R) -> Option<R> {
    (k, r: R) => if r in gone then None else Some(r)
  }

  /** The objects along `ids` that are overdue, in order. */
  function Reaped<R(==)>(ids: seq<Id>, vals: map<Id, R>, overdue: set<R>): seq<R>
    requires forall k :: k in ids ==> k in vals
  {
    if ids == [] then []
    else (if vals[ids[0]] in overdue then [vals[ids[0]]] else []) + Reaped(ids[1..], vals, overdue)
  }

  function Members<R(==)>(s: seq<R>): set<R> { set r | r in s }

  function Cleanup<R(==)>(st: Store<R>, overdue: set<R>): (Store<R>, seq<R>)
    requires st.sessions.Valid()
  {
    var out := Reaped(st.sessions.keys, st.sessions.vals, overdue);
    (Store(Sift(st.sessions, Keeping(overdue)), st.deleted + Members(out)), out)
  }

  lemma {:induction false} ReapedLocal<R>(ids: seq<Id>, a: map<Id, R>, b: map<Id, R>, overdue: set<R>)
    requires forall k :: k in ids ==> k in a && k in b && a[k] == b[k]
    ensures Reaped(ids, a, overdue) == Reaped(ids, b, overdue)
  {
    if ids != [] { ReapedLocal(ids[1..], a, b, overdue); }
  }

  /** The sweep's iteration removes the session at the cursor and misses none behind it. */
  lemma ReapsHere<R>(m: OMap<Id, R>, i: nat, overdue: set<R>)
    requires m.Valid() && i < |m.keys| && m.vals[m.keys[i]] in overdue
    ensures m.Delete(m.keys[i]).Valid() && |m.Delete(m.keys[i]).keys| == |m.keys| - 1
    ensures Iterate(m, i, Keeping(overdue)) == Iterate(m.Delete(m.keys[i]), i, Keeping(overdue))
    ensures Reaped(m.keys[i..], m.vals, overdue)
         == [m.vals[m.keys[i]]] + Reaped(m.Delete(m.keys[i]).keys[i..], m.Delete(m.keys[i]).vals, overdue)
  {
    DeletedKeys(m, i);
    var tail := m.keys[i + 1..];
    assert m.keys[i..] == [m.keys[i]] + tail;
    ReapedLocal(tail, m.vals, m.Delete(m.keys[i]).vals, overdue);
  }

  lemma PassesHere<R>(m: OMap<Id, R>, i: nat, overdue: set<R>)
    requires m.Valid() && i < |m.keys| && m.vals[m.keys[i]] !in overdue
    ensures Iterate(m, i, Keeping(overdue)) == Iterate(m, i + 1, Keeping(overdue))
    ensures Reaped(m.keys[i..], m.vals, overdue) == Reaped(m.keys[i + 1..], m.vals, overdue)
  {
    assert m.Set(m.keys[i], m.vals[m.keys[i]]) == m;
    assert m.keys[i..] == [m.keys[i]] + m.keys[i + 1..];
  }

  lemma Joined<R>(a: seq<R>, x: R, b: seq<R>)
    ensures (a + [x]) + b == a + ([x] + b)
    ensures Members(a + [x]) == Members(a) + {x}
  {
  }

  // ----- the relay's sessions as a whole -----------------------------------------------------

  datatype Object = Object(id: Id, fields: Fields)

  /** An object is known by its place in the heap. */
  datatype World = World(heap: seq<Object>, store: Store<nat>)

  function Start(): (w: World)
    ensures Inv(w)
  {
    World([], Store(OMap([], map[]), {}))
  }

  datatype Event =
    /** `newId` is the id drawn when none is asked for. */
    | Created(options: Options, newId: Id, hostId: PeerId, recovery: string, token: Token, at: int)
    /** A caller that still holds object `r` saves it. */
    | SavedAgain(r: nat)
    /** The transport, holding object `r`, rewrites everything but what marks its life. */
    | Touched(id: Id, at: int)
    | Rewritten(r: nat, fields: Fields)
    | Refreshed(id: Id, at: int)
    | Destroyed(id: Id)
    | Swept(at: int)

  datatype CreateError = CapacityReached

  /** The object created or found, and whether it was there before. */
  function Create(w: World, e: Event): (World, Result<(nat, bool), CreateError>)
    requires e.Created?
  {
    var o := e.options;
    if o.id.Some? && o.id.value != "" && o.id.value in w.store.sessions.vals
    then (w, Ok((w.store.sessions.vals[o.id.value], true)))
    else if |w.store.sessions.keys| >= MaxActiveSessions then (w, Err(CapacityReached))
    else
      var id := IdFor(e);
      var r := |w.heap|;
      (World(w.heap + [Object(id, Fresh(o, e.hostId, e.recovery, e.token, e.at))], Save(w.store, id, r)), Ok((r, false)))
  }

  function IdFor(e: Event): Id
    requires e.Created?
  {
    if e.options.id.Some? && e.options.id.value != "" then e.options.id.value else e.newId
  }

  function SetFields(w: World, r: nat, f: Fields): World {
    if r < |w.heap| then w.(heap := w.heap[r := w.heap[r].(fields := f)]) else w
  }

  function OverdueIn(w: World, now: int): set<nat> {
    set r | 0 <= r < |w.heap| && Overdue(w.heap[r].fields, now)
  }

  function Step(w: World, e: Event): World
    requires w.store.sessions.Valid()
    requires forall k :: k in w.store.sessions.vals ==> w.store.sessions.vals[k] < |w.heap|
  {
    match e
    case Created(_, _, _, _, _, _) => Create(w, e).0
    case SavedAgain(r) => if r < |w.heap| then w.(store := Save(w.store, w.heap[r].id, r)) else w
    case Touched(id, at) =>
      if id in w.store.sessions.vals
      then var r := w.store.sessions.vals[id]; SetFields(w, r, w.heap[r].fields.(lastActivityAt := at))
      else w
    case Rewritten(r, f) =>
      if r < |w.heap|
      then SetFields(w, r, f.(createdAt := w.heap[r].fields.createdAt, expiresAt := w.heap[r].fields.expiresAt))
      else w
    case Refreshed(id, at) =>
      if id in w.store.sessions.vals
      then
        var r := w.store.sessions.vals[id];
        var f := w.heap[r].fields;
        if f.participantCount == 0 then w
        else
          var w2 := SetFields(w, r, f.(expiresAt := RefreshedExpiry(f.createdAt, at), lastActivityAt := at));
          w2.(store := Save(w2.store, id, r))
      else w
    case Destroyed(id) => w.(store := Delete(w.store, id))
    case Swept(at) => w.(store := Cleanup(w.store, OverdueIn(w, at)).0)
  }

  /** Drawn ids are new: no session in the store goes by the id a create draws. */
  predicate Drawable(w: World, e: Event) {
    e.Created? ==> e.newId !in w.store.sessions.vals
  }

  // ----- what every run keeps --------------------------------------------------------------

  /** Object `r` answers to `k`, which is its own id, and is not a deleted one. */
  predicate Serves(w: World, k: Id, r: nat) {
    r < |w.heap| && w.heap[r].id == k && r !in w.store.deleted
  }

  ghost predicate Inv(w: World) {
    && w.store.sessions.Valid()
    && (forall k :: k in w.store.sessions.vals ==> Serves(w, k, w.store.sessions.vals[k]))
    && (forall r :: r in w.store.deleted ==> r < |w.heap|)
    && (forall r :: 0 <= r < |w.heap| && r !in w.store.deleted
          ==> w.heap[r].id in w.store.sessions.vals && w.store.sessions.vals[w.heap[r].id] == r)
    && |w.store.sessions.keys| <= MaxActiveSessions
    && (forall r :: 0 <= r < |w.heap| ==> w.heap[r].fields.expiresAt <= w.heap[r].fields.createdAt + MaxTtlMs)
  }

  lemma {:induction false} ReapedAll<R>(ids: seq<Id>, vals: map<Id, R>, overdue: set<R>)
    requires forall k :: k in ids ==> k in vals
    ensures forall k :: k in ids && vals[k] in overdue ==> vals[k] in Reaped(ids, vals, overdue)
    ensures forall r :: r in Reaped(ids, vals, overdue) ==> r in overdue && exists k :: k in ids && vals[k] == r
  {
    if ids != [] { ReapedAll(ids[1..], vals, overdue); }
  }

  lemma CreateKeeps(w: World, e: Event)
    requires Inv(w) && e.Created? && Drawable(w, e)
    ensures Inv(Create(w, e).0)
  {
    SetValid(w.store.sessions, IdFor(e), |w.heap|);
  }

  lemma DeleteKeeps(w: World, id: Id)
    requires Inv(w)
    ensures Inv(w.(store := Delete(w.store, id)))
  {
    DeleteValid(w.store.sessions, id);
    if id in w.store.sessions.vals { DeleteShrinks(w.store.sessions, id); }
  }

  lemma DeleteShrinks<K, V>(m: OMap<K, V>, k: K)
    requires m.Valid() && k in m.vals
    ensures |m.Delete(k).keys| == |m.keys| - 1
  {
    assert k in m.keys;
    var i :| 0 <= i < |m.keys| && m.keys[i] == k;
    DeleteAt(m, i);
  }

  lemma SweepKeeps(w: World, now: int)
    requires Inv(w)
    ensures Inv(w.(store := Cleanup(w.store, OverdueIn(w, now)).0))
  {
    var st := w.store;
    var overdue := OverdueIn(w, now);
    SiftValid(st.sessions, Keeping(overdue));
    ReapedAll(st.sessions.keys, st.sessions.vals, overdue);
  }

  lemma SavedAgainKeeps(w: World, r: nat)
    requires Inv(w) && r < |w.heap|
    ensures Save(w.store, w.heap[r].id, r) == w.store
  {
    if r !in w.store.deleted {
      assert w.store.sessions.vals[w.heap[r].id := r] == w.store.sessions.vals;
    }
  }

  lemma SetFieldsKeeps(w: World, r: nat, f: Fields)
    requires Inv(w) && (r < |w.heap| ==> f.expiresAt <= f.createdAt + MaxTtlMs)
    ensures Inv(SetFields(w, r, f))
  {
  }

  lemma StepKeeps(w: World, e: Event)
    requires Inv(w) && Drawable(w, e)
    ensures Inv(Step(w, e))
  {
    match e
    case Created(_, _, _, _, _, _) => CreateKeeps(w, e);
    case SavedAgain(r) => if r < |w.heap| { SavedAgainKeeps(w, r); }
    case Touched(id, at) => TouchedKeeps(w, id, at);
    case Rewritten(r, f) => RewrittenKeeps(w, r, f);
    case Refreshed(id, at) => RefreshedKeeps(w, id, at);
    case Destroyed(id) => DeleteKeeps(w, id);
    case Swept(at) => SweepKeeps(w, at);
  }

  lemma TouchedKeeps(w: World, id: Id, at: int)
    requires Inv(w)
    ensures Inv(Step(w, Touched(id, at)))
  {
    if id in w.store.sessions.vals {
      var r := w.store.sessions.vals[id];
      SetFieldsKeeps(w, r, w.heap[r].fields.(lastActivityAt := at));
    }
  }

  lemma RewrittenKeeps(w: World, r: nat, f: Fields)
    requires Inv(w)
    ensures Inv(Step(w, Rewritten(r, f)))
  {
    if r < |w.heap| {
      SetFieldsKeeps(w, r, f.(createdAt := w.heap[r].fields.createdAt, expiresAt := w.heap[r].fields.expiresAt));
    }
  }

  lemma RefreshedKeeps(w: World, id: Id, at: int)
    requires Inv(w)
    ensures Inv(Step(w, Refreshed(id, at)))
  {
    if id in w.store.sessions.vals {
      var r := w.store.sessions.vals[id];
      var f := w.heap[r].fields;
      var f2 := f.(expiresAt := RefreshedExpiry(f.createdAt, at), lastActivityAt := at);
      SetFieldsKeeps(w, r, f2);
      SavedAgainKeeps(SetFields(w, r, f2), r);
    }
  }

  /** Nothing ever leaves the set of deleted objects, and objects never move. */
  lemma StepGrows(w: World, e: Event)
    requires Inv(w)
    ensures w.store.deleted <= Step(w, e).store.deleted && |w.heap| <= |Step(w, e).heap|
    ensures forall r :: 0 <= r < |w.heap| ==> Step(w, e).heap[r].id == w.heap[r].id
  {
  }

  // ----- runs --------------------------------------------------------------------------------

  predicate Runnable(w: World, es: seq<Event>)
    requires Inv(w)
    decreases |es|
  {
    es == [] || (Drawable(w, es[0]) && (StepKeeps(w, es[0]); Runnable(Step(w, es[0]), es[1..])))
  }

  ghost function Run(w: World, es: seq<Event>): (r: World)
    requires Inv(w) && Runnable(w, es)
    ensures Inv(r)
    decreases |es|
  {
    if es == [] then w else StepKeeps(w, es[0]); Run(Step(w, es[0]), es[1..])
  }

  /** An object that was once deleted or reaped is never found again, whatever is saved later. */
  lemma {:induction false} DeletedStaysDeleted(w: World, es: seq<Event>, r: nat)
    requires Inv(w) && Runnable(w, es) && r in w.store.deleted
    ensures r in Run(w, es).store.deleted
    ensures forall k :: k in Run(w, es).store.sessions.vals ==> Run(w, es).store.sessions.vals[k] != r
    decreases |es|
  {
    if es != [] {
      StepKeeps(w, es[0]);
      StepGrows(w, es[0]);
      DeletedStaysDeleted(Step(w, es[0]), es[1..], r);
    }
  }

  lemma {:induction false} RunJoins(w: World, a: seq<Event>, b: seq<Event>)
    requires Inv(w) && Runnable(w, a + b)
    ensures Runnable(w, a) && Runnable(Run(w, a), b) && Run(w, a + b) == Run(Run(w, a), b)
    decreases |a|
  {
    if a == [] {
      assert a + b == b;
    } else {
      assert (a + b)[0] == a[0] && (a + b)[1..] == a[1..] + b;
      StepKeeps(w, a[0]);
      RunJoins(Step(w, a[0]), a[1..], b);
    }
  }

  /**
   Over every run from the start: each entry is keyed by its own id, the number
   of sessions and every lifetime are bounded, and an object deleted at any point
   is not served at any later one.
   */
  lemma StoreSound(before: seq<Event>, later: seq<Event>)
    requires Runnable(Start(), before + later)
    ensures Runnable(Start(), before)
    ensures var mid, w := Run(Start(), before), Run(Start(), before + later);
            && (forall k :: k in w.store.sessions.vals ==>
                  Serves(w, k, w.store.sessions.vals[k]) && w.store.sessions.vals[k] !in mid.store.deleted)
            && (forall r :: 0 <= r < |w.heap| ==> w.heap[r].fields.expiresAt <= w.heap[r].fields.createdAt + MaxTtlMs)
            && |w.store.sessions.keys| <= MaxActiveSessions
  {
    RunJoins(Start(), before, later);
    forall r | r in Run(Start(), before).store.deleted ensures r in Run(Start(), before + later).store.deleted {
      DeletedStaysDeleted(Run(Start(), before), later, r);
    }
  }

  /** An id can be opened again the moment its session is destroyed, as a new object. */
  lemma IdReusableAtOnce(w: World, id: Id, e: Event)
    requires Inv(w) && id in w.store.sessions.vals && id != ""
    requires e.Created? && e.options.id == Some(id)
    ensures var gone := w.(store := Delete(w.store, id));
            Create(gone, e).1 == Ok((|w.heap|, false))
            && id in Create(gone, e).0.store.sessions.vals && Create(gone, e).0.store.sessions.vals[id] == |w.heap|
            && w.store.sessions.vals[id] in Create(gone, e).0.store.deleted
  {
    DeleteShrinks(w.store.sessions, id);
  }

  /** Past its expiry; or without activity for over half an hour; or empty for over five minutes. */
  predicate TimeIsUp(f: Fields, now: int) {
    || f.expiresAt < now
    || f.lastActivityAt + 1800000 < now
    || (f.participantCount == 0 && f.emptySince.Some? && f.emptySince.value + 300000 < now)
  }

  /** A sweep takes out exactly the sessions whose time is up, each reason alone sufficing, and reports each of them. */
  lemma SweepTakesTheOverdue(w: World, now: int)
    requires Inv(w)
    ensures var (st, out) := Cleanup(w.store, OverdueIn(w, now));
            && (forall k :: k in st.sessions.vals ==>
                  k in w.store.sessions.vals && st.sessions.vals[k] == w.store.sessions.vals[k]
                  && !TimeIsUp(w.heap[st.sessions.vals[k]].fields, now))
            && (forall k :: k in w.store.sessions.vals && !TimeIsUp(w.heap[w.store.sessions.vals[k]].fields, now)
                  ==> k in st.sessions.vals)
            && (forall r :: r in out ==> r in st.deleted && r < |w.heap| && TimeIsUp(w.heap[r].fields, now))
            && (forall k :: k in w.store.sessions.vals && k !in st.sessions.vals ==> w.store.sessions.vals[k] in out)
  {
    ReapedAll(w.store.sessions.keys, w.store.sessions.vals, OverdueIn(w, now));
  }

  // ----- how long a session lasts --------------------------------------------------------------

  /** A session nobody touches lasts until the time granted to it is over, and no longer than half an hour. */
  lemma CreatedExactly(w: World, e: Event, now: int)
    requires Inv(w) && e.Created? && Create(w, e).1 == Ok((|w.heap|, false))
    ensures var w2 := Create(w, e).0;
            var asked := if e.options.expiresInSeconds.Some? then e.options.expiresInSeconds.value else 0;
            var granted := if asked == 0 then 900000 else Min(asked * 1000, 86400000);
            && |w2.heap| == |w.heap| + 1 && w2.heap[..|w.heap|] == w.heap
            && Served(w2, w2.heap[|w.heap|].id, |w.heap|)
            && var f := w2.heap[|w.heap|].fields;
            && (TimeIsUp(f, now) <==> e.at + granted < now || e.at + 1800000 < now)
            && f.peers.Keys == {e.hostId} && f.hostId == e.hostId && f.peers[e.hostId].token == e.token
            && f.hostRecoveryToken == e.recovery && f.pending == map[] && f.status.Waiting? && !f.isGroup
  {
  }

  /** A touch is activity and nothing else: after it the session has half an hour, if it neither expires nor is empty before. */
  lemma TouchExactly(w: World, id: Id, at: int, now: int)
    requires Inv(w) && id in w.store.sessions.vals
    ensures var r := w.store.sessions.vals[id];
            var f, w2 := w.heap[r].fields, Step(w, Touched(id, at));
            && w2.store == w.store && |w2.heap| == |w.heap|
            && (forall s :: 0 <= s < |w.heap| && s != r ==> w2.heap[s] == w.heap[s])
            && w2.heap[r].id == id && w2.heap[r].fields.(lastActivityAt := f.lastActivityAt) == f
            && (TimeIsUp(w2.heap[r].fields, now)
                <==> || f.expiresAt < now || at + 1800000 < now
                     || (f.participantCount == 0 && f.emptySince.Some? && f.emptySince.value + 300000 < now))
  {
  }

  predicate Served(w: World, id: Id, r: nat) { id in w.store.sessions.vals && w.store.sessions.vals[id] == r }

  /** The session is destroyed, or swept when its time is up. */
  predicate Ends(w: World, e: Event, id: Id, r: nat)
    requires r < |w.heap|
  {
    e == Destroyed(id) || (e.Swept? && TimeIsUp(w.heap[r].fields, e.at))
  }

  lemma ServedStep(w: World, e: Event, id: Id, r: nat)
    requires Inv(w) && Drawable(w, e) && Served(w, id, r)
    ensures Served(Step(w, e), id, r) <==> !Ends(w, e, id, r)
  {
    match e
    case Created(_, _, _, _, _, _) =>
    case SavedAgain(s) => if s < |w.heap| { SavedAgainKeeps(w, s); }
    case Touched(_, _) =>
    case Rewritten(_, _) =>
    case Refreshed(other, at) => RefreshServes(w, other, at);
    case Destroyed(other) =>
    case Swept(at) => SweepTakesTheOverdue(w, at);
  }

  lemma RefreshServes(w: World, id: Id, at: int)
    requires Inv(w)
    ensures Step(w, Refreshed(id, at)).store == w.store
  {
    if id in w.store.sessions.vals {
      var r := w.store.sessions.vals[id];
      var f := w.heap[r].fields;
      var w2 := SetFields(w, r, f.(expiresAt := RefreshedExpiry(f.createdAt, at), lastActivityAt := at));
      RefreshedKeeps(w, id, at);
      assert w2.store.sessions.vals[id := r] == w2.store.sessions.vals;
    }
  }

  predicate ServedThroughout(w: World, es: seq<Event>, id: Id, r: nat)
    requires Inv(w) && Runnable(w, es)
    decreases |es|
  {
    Served(w, id, r) && (es == [] || (StepKeeps(w, es[0]); ServedThroughout(Step(w, es[0]), es[1..], id, r)))
  }

  predicate NeverEnds(w: World, es: seq<Event>, id: Id, r: nat)
    requires Inv(w) && Runnable(w, es) && r < |w.heap|
    decreases |es|
  {
    es == [] ||
    (!Ends(w, es[0], id, r) && (StepKeeps(w, es[0]); StepGrows(w, es[0]); NeverEnds(Step(w, es[0]), es[1..], id, r)))
  }

  /**
   An id goes on being served by the same object throughout a run if and only if
   the run nowhere destroys it and no sweep comes when its time is up.
   */
  lemma {:induction false} ServedExactly(w: World, es: seq<Event>, id: Id, r: nat)
    requires Inv(w) && Runnable(w, es) && Served(w, id, r)
    ensures ServedThroughout(w, es, id, r) <==> NeverEnds(w, es, id, r)
    decreases |es|
  {
    if es != [] {
      StepKeeps(w, es[0]);
      ServedStep(w, es[0], id, r);
      if Served(Step(w, es[0]), id, r) { ServedExactly(Step(w, es[0]), es[1..], id, r); }
    }
  }

  /**
   A refresh of a session with participants counts as activity and moves its
   expiry to 15 minutes from now, or to a day after its creation if that is
   sooner. So it brings the expiry nearer exactly when over 15 minutes were left.
   */
  lemma RefreshExactly(w: World, id: Id, at: int)
    requires Inv(w) && id in w.store.sessions.vals
    ensures var r := w.store.sessions.vals[id];
            var f, w2 := w.heap[r].fields, Step(w, Refreshed(id, at));
            && |w2.heap| == |w.heap| && w2.store == w.store
            && (forall s :: 0 <= s < |w.heap| && s != r ==> w2.heap[s] == w.heap[s])
            && if f.participantCount == 0 then w2.heap[r] == w.heap[r]
               else
                 var f2 := w2.heap[r].fields;
                 && f2.lastActivityAt == at && f2 == f.(expiresAt := f2.expiresAt, lastActivityAt := at)
                 && (f2.expiresAt == at + 900000 || f2.expiresAt == f.createdAt + 86400000)
                 && f2.expiresAt <= at + 900000 && f2.expiresAt <= f.createdAt + 86400000
                 && (f2.expiresAt < f.expiresAt <==> at + 900000 < f.expiresAt)
  {
    RefreshServes(w, id, at);
  }

  /** Asking twice for one id gives the same session, and the second answer says so. */
  lemma CreateIsIdempotent(w: World, e: Event, again: Event)
    requires Inv(w) && e.Created? && again.Created? && e.options.id == again.options.id
    requires e.options.id.Some? && e.options.id.value != "" && Create(w, e).1.Ok?
    ensures Create(Create(w, e).0, again) == (Create(w, e).0, Ok((Create(w, e).1.value.0, true)))
  {
  }
}
