/**
 Fixed-window rate limiting: one counter a key, and a sweep that drops the
 counters of windows long over. The HTTP middleware, the per-address connection
 limit and the per-peer message limit are this limiter with different numbers.
 */
module RateLimit {
  import opened Common
  import opened OrderedMap

  type Key = string

  datatype Counter = Counter(count: nat, windowStart: int)

  type Counters = OMap<Key, Counter>

  /** A counter is stale, and may be swept, when its window began more than `staleAfter` ago. */
  datatype Limits = Limits(windowMs: nat, max: nat, staleAfter: nat)

  /** The counter after one more request. */
  function Bump(c: Counter, window: nat, now: int): Counter {
    if now - c.windowStart > window then Counter(1, now) else Counter(c.count + 1, c.windowStart)
  }

  function Request(m: Counters, k: Key, window: nat, now: int): Counter {
    Bump(if k in m.vals then m.vals[k] else Counter(0, now), window, now)
  }

  function Current(age: nat, now: int): (Key, Counter) -> Option<Counter> {
    (k, c: Counter) => if now - c.windowStart > age then None else Some(c)
  }

  function Sweep(m: Counters, age: nat, now: int): (r: Counters)
    requires m.Valid()
    ensures r.Valid()
  {
    SiftValid(m, Current(age, now));
    Sift(m, Current(age, now))
  }

  // ----- runs ------------------------------------------------------------------------------

  datatype Event = Requested(key: Key, at: int) | Swept(at: int)

  /** The counters after a run; a limiter that never sweeps ignores the sweeps. */
  function After(l: Limits, es: seq<Event>, sweeping: bool): (r: Counters)
    ensures r.Valid()
  {
    if es == [] then Empty()
    else
      var m := After(l, es[..|es| - 1], sweeping);
      match es[|es| - 1]
      case Requested(k, at) => SetValid(m, k, Request(m, k, l.windowMs, at)); m.Set(k, Request(m, k, l.windowMs, at))
      case Swept(at) => if sweeping then Sweep(m, l.staleAfter, at) else m
  }

  /** The limiter lets the request at `i` through. */
  predicate Allows(l: Limits, es: seq<Event>, i: nat, sweeping: bool)
    requires i < |es|
  {
    es[i].Requested? && Request(After(l, es[..i], sweeping), es[i].key, l.windowMs, es[i].at).count <= l.max
  }

  ghost predicate ClockRuns(es: seq<Event>) {
    forall i, j :: 0 <= i < j < |es| ==> es[i].at <= es[j].at
  }

  // ----- sweeping changes no decision --------------------------------------------------------

  /** The swept map lacks only counters whose window is over. */
  ghost predicate Thinner(thin: Counters, full: Counters, window: nat, now: int) {
    && (forall k :: k in thin.vals ==> k in full.vals && full.vals[k] == thin.vals[k])
    && (forall k :: k in full.vals && k !in thin.vals ==> now - full.vals[k].windowStart > window)
  }

  lemma SweepThins(thin: Counters, full: Counters, l: Limits, now: int)
    requires thin.Valid() && l.staleAfter >= l.windowMs && Thinner(thin, full, l.windowMs, now)
    ensures Thinner(Sweep(thin, l.staleAfter, now), full, l.windowMs, now)
  {
  }

  lemma RequestAgrees(thin: Counters, full: Counters, window: nat, k: Key, now: int)
    requires Thinner(thin, full, window, now)
    ensures Request(thin, k, window, now) == Request(full, k, window, now)
    ensures Thinner(thin.Set(k, Request(thin, k, window, now)), full.Set(k, Request(full, k, window, now)), window, now)
  {
  }

  lemma {:induction false} SweptIsThinner(l: Limits, es: seq<Event>, now: int)
    requires l.staleAfter >= l.windowMs && ClockRuns(es) && forall i :: 0 <= i < |es| ==> es[i].at <= now
    ensures Thinner(After(l, es, true), After(l, es, false), l.windowMs, now)
  {
    if es != [] {
      var before, e := es[..|es| - 1], es[|es| - 1];
      SweptIsThinner(l, before, e.at);
      var thin, full := After(l, before, true), After(l, before, false);
      match e
      case Requested(k, at) => RequestAgrees(thin, full, l.windowMs, k, at);
      case Swept(at) => SweepThins(thin, full, l, at);
    }
  }

  /** At any run and any schedule of sweeps, each decision is that of a limiter that never sweeps. */
  lemma SweepingChangesNothing(l: Limits, es: seq<Event>, i: nat)
    requires l.staleAfter >= l.windowMs && ClockRuns(es) && i < |es|
    ensures Allows(l, es, i, true) == Allows(l, es, i, false)
  {
    if es[i].Requested? {
      SweptIsThinner(l, es[..i], es[i].at);
      RequestAgrees(After(l, es[..i], true), After(l, es[..i], false), l.windowMs, es[i].key, es[i].at);
    }
  }

  // ----- how much gets through ------------------------------------------------------------------

  /** How many requests of `k` from event `i` up to, not including, `j` get through. */
  function Allowed(l: Limits, es: seq<Event>, k: Key, i: nat, j: nat, sweeping: bool): nat
    requires i <= j <= |es|
    decreases j - i
  {
    if i == j then 0
    else Allowed(l, es, k, i, j - 1, sweeping)
         + (if es[j - 1].Requested? && es[j - 1].key == k && Allows(l, es, j - 1, sweeping) then 1 else 0)
  }

  /** What the counter of `k` says about the requests since event `i`. */
  ghost predicate Bounded(l: Limits, m: Counters, k: Key, since: int, allowed: nat) {
    if k !in m.vals then allowed == 0
    else allowed <= (if m.vals[k].windowStart >= since then l.max else 0) + Min(m.vals[k].count, l.max)
  }

  lemma BumpBounded(l: Limits, m: Counters, k: Key, since: int, allowed: nat, now: int)
    requires Bounded(l, m, k, since, allowed) && since <= now <= since + l.windowMs
    ensures var c := Request(m, k, l.windowMs, now);
            Bounded(l, m.Set(k, c), k, since, allowed + (if c.count <= l.max then 1 else 0))
  {
  }

  lemma {:induction false} SegmentBounded(l: Limits, es: seq<Event>, k: Key, i: nat, j: nat)
    requires ClockRuns(es) && i <= j <= |es| && i < |es|
    requires i < j ==> es[j - 1].at - es[i].at <= l.windowMs
    ensures Bounded(l, After(l, es[..j], false), k, es[i].at, Allowed(l, es, k, i, j, false))
    decreases j - i
  {
    if i < j {
      assert i < j - 1 ==> es[j - 2].at <= es[j - 1].at;
      SegmentBounded(l, es, k, i, j - 1);
      SegmentStep(l, es, k, i, j);
    }
  }

  lemma SegmentStep(l: Limits, es: seq<Event>, k: Key, i: nat, j: nat)
    requires i < j <= |es| && es[i].at <= es[j - 1].at <= es[i].at + l.windowMs
    requires Bounded(l, After(l, es[..j - 1], false), k, es[i].at, Allowed(l, es, k, i, j - 1, false))
    ensures Bounded(l, After(l, es[..j], false), k, es[i].at, Allowed(l, es, k, i, j, false))
  {
    assert es[..j][..j - 1] == es[..j - 1] && es[..j][j - 1] == es[j - 1];
    var m, e := After(l, es[..j - 1], false), es[j - 1];
    if e.Requested? && e.key == k {
      BumpBounded(l, m, k, es[i].at, Allowed(l, es, k, i, j - 1, false), e.at);
    }
  }

  lemma {:induction false} AllowedSame(l: Limits, es: seq<Event>, k: Key, i: nat, j: nat)
    requires l.staleAfter >= l.windowMs && ClockRuns(es) && i <= j <= |es|
    ensures Allowed(l, es, k, i, j, true) == Allowed(l, es, k, i, j, false)
    decreases j - i
  {
    if i < j {
      AllowedSame(l, es, k, i, j - 1);
      SweepingChangesNothing(l, es, j - 1);
    }
  }

  /** In any stretch of a run no longer than the window, at most twice the maximum of one key get through. */
  lemma AtMostTwiceTheLimit(l: Limits, es: seq<Event>, k: Key, i: nat, j: nat)
    requires l.staleAfter >= l.windowMs && ClockRuns(es) && i < j <= |es|
    requires es[j - 1].at - es[i].at <= l.windowMs
    ensures Allowed(l, es, k, i, j, true) <= 2 * l.max
  {
    AllowedSame(l, es, k, i, j);
    SegmentBounded(l, es, k, i, j);
  }

  // ----- what is never refused -----------------------------------------------------------------

  /** The requests of `k` in the run at `since` or later, answered either way. */
  function Asked(es: seq<Event>, k: Key, since: int): nat {
    if es == [] then 0
    else
      var e := es[|es| - 1];
      Asked(es[..|es| - 1], k, since) + (if e.Requested? && e.key == k && e.at >= since then 1 else 0)
  }

  lemma {:induction false} AskedSinceLater(es: seq<Event>, k: Key, since: int, later: int)
    requires since <= later
    ensures Asked(es, k, later) <= Asked(es, k, since)
  {
    if es != [] { AskedSinceLater(es[..|es| - 1], k, since, later); }
  }

  /** A counter counts no more than the requests since its window began. */
  lemma {:induction false} CounterIsHonest(l: Limits, es: seq<Event>, k: Key, now: int)
    requires ClockRuns(es) && forall i :: 0 <= i < |es| ==> es[i].at <= now
    ensures var m := After(l, es, false);
            k in m.vals ==> m.vals[k].windowStart <= now && m.vals[k].count <= Asked(es, k, m.vals[k].windowStart)
  {
    if es != [] {
      var before, e := es[..|es| - 1], es[|es| - 1];
      CounterIsHonest(l, before, k, e.at);
    }
  }

  /**
   A request is let through whenever its key has asked at most `max` times, this
   one included, since the start of the window that ends with it: in particular
   the first one after a window without any.
   */
  lemma WithinTheLimitPasses(l: Limits, es: seq<Event>, i: nat)
    requires l.staleAfter >= l.windowMs && ClockRuns(es) && i < |es| && es[i].Requested?
    requires Asked(es[..i + 1], es[i].key, es[i].at - l.windowMs) <= l.max
    ensures Allows(l, es, i, true)
  {
    UnsweptPasses(l, es, i);
    SweepingChangesNothing(l, es, i);
  }

  lemma UnsweptPasses(l: Limits, es: seq<Event>, i: nat)
    requires ClockRuns(es) && i < |es| && es[i].Requested?
    requires Asked(es[..i + 1], es[i].key, es[i].at - l.windowMs) <= l.max
    ensures Allows(l, es, i, false)
  {
    AskedOnce(es, i, l.windowMs);
    CounterWithinWindow(l, es[..i], es[i].key, es[i].at);
  }

  lemma AskedOnce(es: seq<Event>, i: nat, window: nat)
    requires i < |es| && es[i].Requested?
    ensures Asked(es[..i + 1], es[i].key, es[i].at - window) == Asked(es[..i], es[i].key, es[i].at - window) + 1
  {
    assert es[..i + 1][..i] == es[..i] && es[..i + 1][i] == es[i];
  }

  /** The counter after one more request is at most what was asked in the window that ends with it. */
  lemma CounterWithinWindow(l: Limits, es: seq<Event>, k: Key, now: int)
    requires ClockRuns(es) && forall i :: 0 <= i < |es| ==> es[i].at <= now
    ensures Request(After(l, es, false), k, l.windowMs, now).count <= Asked(es, k, now - l.windowMs) + 1
  {
    CounterIsHonest(l, es, k, now);
    var m := After(l, es, false);
    if k in m.vals && now - m.vals[k].windowStart <= l.windowMs {
      AskedSinceLater(es, k, now - l.windowMs, m.vals[k].windowStart);
    }
  }

  // ----- the transport's two limits -----------------------------------------------------------

  /** New connections of one address: 50 a minute, swept after two. */
  const ConnectionLimits := Limits(60000, 50, 120000)

  /** Frames of one peer: 10 a second, swept after ten seconds. */
  const MessageLimits := Limits(1000, 10, 10000)

  /** One address opens at most 100 connections in any minute, one peer sends at most 20 frames in any second. */
  lemma TransportLimits(es: seq<Event>, k: Key, i: nat, j: nat)
    requires ClockRuns(es) && i < j <= |es|
    ensures es[j - 1].at - es[i].at <= 60000 ==> Allowed(ConnectionLimits, es, k, i, j, true) <= 100
    ensures es[j - 1].at - es[i].at <= 1000 ==> Allowed(MessageLimits, es, k, i, j, true) <= 20
  {
    if es[j - 1].at - es[i].at <= 60000 { AtMostTwiceTheLimit(ConnectionLimits, es, k, i, j); }
    if es[j - 1].at - es[i].at <= 1000 { AtMostTwiceTheLimit(MessageLimits, es, k, i, j); }
  }
}
