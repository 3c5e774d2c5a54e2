/** What the pacer keeps over every run: the rate bound, the timer, the lanes. */
module SendQueueProof {
  import opened Common
  import opened SendQueue

  // ----- runs --------------------------------------------------------------------------

  predicate Legal<T>(s: Sender<T>, t: int, ms: seq<Moment<T>>)
    requires s.rate > 0 && |s.lanes| == LaneCount
    decreases |ms|
  {
    ms == [] ||
    (t <= ms[0].at && Enabled(s, ms[0]) && Legal(Step(s, ms[0]).0, ms[0].at, ms[1..]))
  }

  /** The state after a run. */
  function Final<T>(s: Sender<T>, ms: seq<Moment<T>>): (r: Sender<T>)
    requires s.rate > 0 && |s.lanes| == LaneCount
    ensures r.rate == s.rate && |r.lanes| == LaneCount
    decreases |ms|
  {
    if ms == [] then s else Final(Step(s, ms[0]).0, ms[1..])
  }

  /** Everything a run hands to the send callback, in order. */
  function Sent<T>(s: Sender<T>, ms: seq<Moment<T>>): seq<Ticket<T>>
    requires s.rate > 0 && |s.lanes| == LaneCount
    decreases |ms|
  {
    if ms == [] then [] else Step(s, ms[0]).1 + Sent(Step(s, ms[0]).0, ms[1..])
  }

  /** The time a run ends: that of its last event. */
  function EndTime<T>(t: int, ms: seq<Moment<T>>): int {
    if ms == [] then t else ms[|ms| - 1].at
  }

  lemma {:induction false} RunJoins<T>(s: Sender<T>, a: seq<Moment<T>>, b: seq<Moment<T>>)
    requires s.rate > 0 && |s.lanes| == LaneCount
    ensures Final(s, a + b) == Final(Final(s, a), b)
    ensures Sent(s, a + b) == Sent(s, a) + Sent(Final(s, a), b)
    decreases |a|
  {
    if a == [] {
      assert a + b == b;
    } else {
      assert (a + b)[0] == a[0] && (a + b)[1..] == a[1..] + b;
      RunJoins(Step(s, a[0]).0, a[1..], b);
    }
  }

  lemma {:induction false} LegalJoins<T>(s: Sender<T>, t: int, a: seq<Moment<T>>, b: seq<Moment<T>>)
    requires s.rate > 0 && |s.lanes| == LaneCount
    ensures Legal(s, t, a + b) <==> Legal(s, t, a) && Legal(Final(s, a), EndTime(t, a), b)
    decreases |a|
  {
    if a == [] {
      assert a + b == b;
    } else {
      assert (a + b)[0] == a[0] && (a + b)[1..] == a[1..] + b;
      LegalJoins(Step(s, a[0]).0, a[0].at, a[1..], b);
    }
  }

  // ----- the lanes ---------------------------------------------------------------------

  lemma {:induction false} LaidSkips<T>(lanes: seq<seq<T>>, k: nat, to: nat)
    requires k <= to <= |lanes| && forall i :: k <= i < to ==> lanes[i] == []
    ensures Laid(lanes, k) == Laid(lanes, to)
    decreases |lanes| - k
  {
    if k < to { LaidSkips(lanes, k + 1, to); }
  }

  lemma {:induction false} LaidLocal<T>(lanes: seq<seq<T>>, j: nat, lane: seq<T>, k: nat)
    requires j < k <= |lanes|
    ensures Laid(lanes[j := lane], k) == Laid(lanes, k)
    decreases |lanes| - k
  {
    if k < |lanes| { LaidLocal(lanes, j, lane, k + 1); }
  }

  lemma {:induction false} LaidSize<T>(lanes: seq<seq<T>>, k: nat)
    requires k <= |lanes|
    ensures |Laid(lanes, k)| == Size(lanes[k..])
    decreases |lanes| - k
  {
    if k < |lanes| {
      LaidSize(lanes, k + 1);
      assert lanes[k..][0] == lanes[k] && lanes[k..][1..] == lanes[k + 1..];
    }
  }

  function Tag<T>(s: seq<T>, j: nat): seq<Ticket<T>> {
    seq(|s|, i requires 0 <= i < |s| => Ticket(j, s[i]))
  }

  lemma LaidTags<T>(lanes: seq<seq<T>>, k: nat)
    requires k < |lanes|
    ensures Laid(lanes, k) == Tag(lanes[k], k) + Laid(lanes, k + 1)
  {
  }

  lemma TagHead<T>(s: seq<T>, j: nat)
    requires s != []
    ensures Tag(s, j) == [Ticket(j, s[0])] + Tag(s[1..], j)
  {
  }

  /** Taking one item takes the head of the lanes laid end to end. */
  lemma DequeueTakesHead<T>(lanes: seq<seq<T>>)
    ensures Dequeue(lanes).0.None? <==> Laid(lanes, 0) == []
    ensures Dequeue(lanes).0.Some? ==> Laid(lanes, 0) == [Dequeue(lanes).0.value] + Laid(Dequeue(lanes).1, 0)
  {
    var k := FirstBusy(lanes, 0);
    LaidSkips(lanes, 0, k);
    if k < |lanes| { HeadTaken(lanes, k); }
  }

  lemma HeadTaken<T>(lanes: seq<seq<T>>, k: nat)
    requires k < |lanes| && lanes[k] != [] && forall i :: 0 <= i < k ==> lanes[i] == []
    ensures Laid(lanes, k) == [Ticket(k, lanes[k][0])] + Laid(lanes[k := lanes[k][1..]], 0)
  {
    var rest := lanes[k := lanes[k][1..]];
    LaidSkips(rest, 0, k);
    LaidTags(rest, k);
    LaidLocal(lanes, k, lanes[k][1..], k + 1);
    LaidTags(lanes, k);
    TagHead(lanes[k], k);
    CutGlue(Ticket(k, lanes[k][0]), Tag(lanes[k][1..], k), Laid(lanes, k + 1));
  }

  /** The sending loop is a cut of the laid-out lanes: as many items as whole tokens, lowest lanes first. */
  lemma {:induction false} DrainCuts<T>(s: Sender<T>)
    requires s.tokens >= 0
    ensures Laid(s.lanes, 0) == Drain(s).1 + Laid(Drain(s).0.lanes, 0)
    ensures |Drain(s).1| == Min(s.tokens / 1000, |Laid(s.lanes, 0)|)
    decreases s.tokens
  {
    if s.tokens >= 1000 {
      DequeueTakesHead(s.lanes);
      var (next, rest) := Dequeue(s.lanes);
      if next.Some? {
        var s1 := s.(lanes := rest, tokens := s.tokens - 1000);
        DrainCuts(s1);
        OneTokenLess(s.tokens);
        CutGlue(next.value, Drain(s1).1, Laid(Drain(s1).0.lanes, 0));
      }
    }
  }

  lemma OneTokenLess(tokens: int)
    requires tokens >= 1000
    ensures tokens / 1000 == (tokens - 1000) / 1000 + 1
  {
  }

  lemma CutGlue<T>(x: T, a: seq<T>, b: seq<T>)
    ensures [x] + (a + b) == ([x] + a) + b
  {
  }

  // ----- what every step keeps -----------------------------------------------------------

  /** `t` is the time of the last event. */
  ghost predicate Inv<T>(s: Sender<T>, t: int) {
    && s.rate > 0 && |s.lanes| == LaneCount
    && 0 <= s.tokens <= 1000 * s.rate
    && s.lastRefill <= t
    && (s.paused ==> s.timer.None?)
    && (!s.paused && Size(s.lanes) > 0 ==> s.timer.Some? && s.tokens < 1000)
    && (s.timer.Some? ==> s.timer.value <= t + Wait(s.rate, 0))
  }

  /** The tokens the sender could spend at time `t`: none is earned while paused. */
  function Credit<T>(s: Sender<T>, t: int): int {
    if s.paused then s.tokens else Min(1000 * s.rate, s.tokens + (t - s.lastRefill) * s.rate)
  }

  lemma RefillKeeps<T>(s: Sender<T>, now: int)
    requires 0 <= s.tokens <= 1000 * s.rate && s.lastRefill <= now
    ensures 0 <= Refill(s, now).tokens <= 1000 * s.rate
    ensures Refill(s, now) == s.(tokens := Refill(s, now).tokens, lastRefill := now)
    ensures !s.paused ==> Refill(s, now).tokens == Credit(s, now)
    ensures 0 <= Credit(s, now) <= 1000 * s.rate
  {
    Earns(s.rate, now - s.lastRefill);
  }

  lemma Earns(rate: nat, ms: nat)
    ensures ms * rate >= 0 && 0 * rate == 0
  {
  }

  lemma CreditNow<T>(s: Sender<T>)
    requires s.tokens <= 1000 * s.rate
    ensures Credit(s, s.lastRefill) == s.tokens
  {
    Earns(s.rate, 0);
  }

  lemma WaitBounds(rate: nat, tokens: int)
    requires rate > 0 && 0 <= tokens < 1000
    ensures 1 <= Wait(rate, tokens) <= Wait(rate, 0)
    ensures tokens + Wait(rate, tokens) * rate >= 1000
  {
    var a, b := 1000 - tokens + rate - 1, 1000 + rate - 1;
    assert b / rate >= a / rate by { DivMonotone(a, b, rate); }
    assert a == a / rate * rate + a % rate;
  }

  lemma DivMonotone(a: int, b: int, d: nat)
    requires d > 0 && a <= b
    ensures a / d <= b / d
  {
    assert a == a / d * d + a % d && b == b / d * d + b % d;
    if a / d > b / d { Scaled(b / d + 1, a / d, d); }
  }

  lemma Scaled(x: int, y: int, d: nat)
    requires x <= y
    ensures x * d <= y * d
  {
  }

  /** One pump: what it sends is paid for, and what is left behind has a timer. */
  lemma PumpKeeps<T>(s: Sender<T>, now: int)
    requires s.rate > 0 && |s.lanes| == LaneCount && 0 <= s.tokens <= 1000 * s.rate && s.lastRefill <= now
    requires s.paused ==> s.timer.None?
    requires s.timer.Some? ==> s.timer.value <= now + Wait(s.rate, 0)
    ensures Inv(Pump(s, now).0, now)
    ensures Pump(s, now).0.rate == s.rate && Pump(s, now).0.paused == s.paused
  {
    if !s.paused {
      RefillKeeps(s, now);
      var s0 := Refill(s, now);
      var (s1, sent) := Drain(s0);
      DrainCuts(s0);
      LaidSize(s0.lanes, 0);
      LaidSize(s1.lanes, 0);
      assert s1.lanes[0..] == s1.lanes && s0.lanes[0..] == s0.lanes;
      if s1.tokens < 1000 { WaitBounds(s.rate, s1.tokens); }
    }
  }

  lemma PumpPays<T>(s: Sender<T>, now: int)
    requires s.rate > 0 && 0 <= s.tokens <= 1000 * s.rate && s.lastRefill <= now
    ensures 1000 * |Pump(s, now).1| + Credit(Pump(s, now).0, now) == Credit(s, now)
  {
    if !s.paused {
      RefillKeeps(s, now);
      CreditNow(Pump(s, now).0);
    }
  }

  lemma StepKeeps<T>(s: Sender<T>, t: int, m: Moment<T>)
    requires Inv(s, t) && t <= m.at && Enabled(s, m)
    ensures Inv(Step(s, m).0, m.at)
    ensures Step(s, m).0.rate == s.rate
  {
    match m.event
    case Enqueue(item, lane) => PumpKeeps(s.(lanes := Push(s.lanes, item, lane)), m.at);
    case Fire => PumpKeeps(s.(timer := None), m.at);
    case Pause =>
    case Resume =>
      if s.paused { PumpKeeps(s.(paused := false, lastRefill := m.at), m.at); }
    case Clear =>
    case ClearTransient => PumpKeeps(s.(lanes := ClearExcept(s.lanes, Noise), timer := None), m.at);
  }

  lemma StepPays<T>(s: Sender<T>, t: int, m: Moment<T>)
    requires Inv(s, t) && t <= m.at && Enabled(s, m)
    ensures 1000 * |Step(s, m).1| + Credit(Step(s, m).0, m.at) <= Credit(s, m.at)
  {
    match m.event
    case Enqueue(item, lane) => PumpPays(s.(lanes := Push(s.lanes, item, lane)), m.at);
    case Fire => PumpPays(s.(timer := None), m.at);
    case Pause => RefillKeeps(s, m.at); Earns(s.rate, m.at - s.lastRefill);
    case Resume =>
      if s.paused {
        var awake := s.(paused := false, lastRefill := m.at);
        PumpPays(awake, m.at);
        CreditNow(awake);
      }
    case Clear =>
    case ClearTransient => PumpPays(s.(lanes := ClearExcept(s.lanes, Noise), timer := None), m.at);
  }

  lemma {:induction false} RunKeeps<T>(s: Sender<T>, t: int, ms: seq<Moment<T>>)
    requires Inv(s, t) && Legal(s, t, ms)
    ensures Inv(Final(s, ms), EndTime(t, ms)) && t <= EndTime(t, ms)
    decreases |ms|
  {
    if ms != [] {
      StepKeeps(s, t, ms[0]);
      RunKeeps(Step(s, ms[0]).0, ms[0].at, ms[1..]);
    }
  }

  // ----- the rate bound -----------------------------------------------------------------

  /** The part of the run's time, from `t` on, in which the sender is not paused. */
  function AwakeTime<T>(s: Sender<T>, t: int, ms: seq<Moment<T>>): int
    requires s.rate > 0 && |s.lanes| == LaneCount
    decreases |ms|
  {
    if ms == [] then 0
    else (if s.paused then 0 else ms[0].at - t) + AwakeTime(Step(s, ms[0]).0, ms[0].at, ms[1..])
  }

  lemma CreditGrows<T>(s: Sender<T>, t: int, now: int)
    requires t <= now
    ensures Credit(s, now) <= Credit(s, t) + s.rate * (if s.paused then 0 else now - t)
  {
    Earns(s.rate, now - t);
    Distributes(s.rate, t - s.lastRefill, now - t);
  }

  lemma Distributes(r: int, a: int, b: int)
    ensures r * (a + b) == r * a + r * b
    ensures (a + b) * r == a * r + r * b
  {
  }

  /** The ledger: every send is paid from the credit in hand or from waking time. */
  lemma {:induction false} RunSpends<T>(s: Sender<T>, t: int, ms: seq<Moment<T>>)
    requires Inv(s, t) && Legal(s, t, ms)
    ensures 1000 * |Sent(s, ms)| <= Credit(s, t) + s.rate * AwakeTime(s, t, ms)
    decreases |ms|
  {
    if ms == [] {
      RefillKeeps(s, t);
      Earns(s.rate, 0);
    } else {
      StepKeeps(s, t, ms[0]);
      StepPays(s, t, ms[0]);
      CreditGrows(s, t, ms[0].at);
      RunSpends(Step(s, ms[0]).0, ms[0].at, ms[1..]);
      RunUnfolds(s, t, ms);
      SpendGlue(s.rate, |Step(s, ms[0]).1|, |Sent(Step(s, ms[0]).0, ms[1..])|,
                Credit(s, t), Credit(s, ms[0].at), Credit(Step(s, ms[0]).0, ms[0].at),
                if s.paused then 0 else ms[0].at - t, AwakeTime(Step(s, ms[0]).0, ms[0].at, ms[1..]));
    }
  }

  lemma RunUnfolds<T>(s: Sender<T>, t: int, ms: seq<Moment<T>>)
    requires s.rate > 0 && |s.lanes| == LaneCount && ms != []
    ensures |Sent(s, ms)| == |Step(s, ms[0]).1| + |Sent(Step(s, ms[0]).0, ms[1..])|
    ensures AwakeTime(s, t, ms) == (if s.paused then 0 else ms[0].at - t) + AwakeTime(Step(s, ms[0]).0, ms[0].at, ms[1..])
  {
  }

  /** Adds up the spending of one event and of the events after it. */
  lemma SpendGlue(rate: int, now: int, later: int, credit: int, before: int, after: int, first: int, rest: int)
    requires 1000 * now + after <= before <= credit + rate * first
    requires 1000 * later <= after + rate * rest
    ensures 1000 * (now + later) <= credit + rate * (first + rest)
  {
    Distributes(rate, first, rest);
  }

  lemma {:induction false} AwakeTimeWithin<T>(s: Sender<T>, t: int, ms: seq<Moment<T>>)
    requires Inv(s, t) && Legal(s, t, ms)
    ensures 0 <= AwakeTime(s, t, ms) <= EndTime(t, ms) - t
    decreases |ms|
  {
    if ms != [] {
      StepKeeps(s, t, ms[0]);
      AwakeTimeWithin(Step(s, ms[0]).0, ms[0].at, ms[1..]);
    }
  }

  /**
   In any stretch `during` of any run, at most `rate` items plus `rate` for
   every second of it that was not spent paused go out.
   */
  lemma RateBound<T>(rate: nat, start: int, before: seq<Moment<T>>, during: seq<Moment<T>>)
    requires rate > 0 && during != []
    requires Legal(New<T>(rate, start), start, before + during)
    ensures var s := Final(New(rate, start), before);
            var opens := during[0].at;
            var awake := AwakeTime(s, opens, during);
            && 1000 * |Sent(s, during)| <= 1000 * rate + rate * awake
            && 0 <= awake <= EndTime(opens, during) - opens
  {
    var s0 := New<T>(rate, start);
    LegalJoins(s0, start, before, during);
    RunKeeps(s0, start, before);
    var s := Final(s0, before);
    var opens := during[0].at;
    RunSpends(s, opens, during);
    AwakeTimeWithin(s, opens, during);
  }

  // ----- the bound is met ------------------------------------------------------------------

  lemma {:induction false} PushLays<T>(lanes: seq<seq<T>>, x: T, j: nat, k: nat)
    requires j < |lanes| && k <= |lanes|
    ensures |Laid(Push(lanes, x, j), k)| == |Laid(lanes, k)| + (if k <= j then 1 else 0)
    decreases |lanes| - k
  {
    if k < |lanes| { PushLays(lanes, x, j, k + 1); }
  }

  /** `n` items were enqueued at time zero on a new sender: the bucket went first, then the queue filled. */
  predicate AfterBurst<T>(s: Sender<T>, rate: nat, n: nat) {
    && rate > 0 && s.rate == rate && |s.lanes| == LaneCount && !s.paused && s.lastRefill == 0
    && s.tokens == 1000 * (rate - Min(n, rate)) && |Laid(s.lanes, 0)| == n - Min(n, rate)
    && s.timer == if n <= rate then None else Some(Wait(rate, 0))
  }

  lemma BurstStep<T>(s: Sender<T>, rate: nat, n: nat, x: T)
    requires AfterBurst(s, rate, n)
    ensures AfterBurst(Step(s, Moment(0, Enqueue(x, 3))).0, rate, n + 1)
    ensures |Step(s, Moment(0, Enqueue(x, 3))).1| == if n < rate then 1 else 0
  {
    var s1 := s.(lanes := Push(s.lanes, x, 3));
    PushLays(s.lanes, x, 3, 0);
    DrainCuts(s1);
    var s2 := Drain(s1).0;
    LaidSize(s2.lanes, 0);
    assert s2.lanes[0..] == s2.lanes;
  }

  function Burst<T>(n: nat, x: T): seq<Moment<T>> {
    if n == 0 then [] else Burst(n - 1, x) + [Moment(0, Enqueue(x, 3))]
  }

  lemma {:induction false} BurstRuns<T>(rate: nat, n: nat, x: T)
    requires rate > 0
    ensures Legal(New(rate, 0), 0, Burst(n, x)) && EndTime(0, Burst(n, x)) == 0
    ensures AfterBurst(Final(New(rate, 0), Burst(n, x)), rate, n)
    ensures |Sent(New(rate, 0), Burst(n, x))| == Min(n, rate)
  {
    if n == 0 {
      LaidSkips(New<T>(rate, 0).lanes, 0, 4);
    } else {
      BurstRuns(rate, n - 1, x);
      BurstGoesOn(rate, n - 1, x);
    }
  }

  lemma BurstGoesOn<T>(rate: nat, n: nat, x: T)
    requires rate > 0
    requires Legal(New(rate, 0), 0, Burst(n, x)) && EndTime(0, Burst(n, x)) == 0
    requires AfterBurst(Final(New(rate, 0), Burst(n, x)), rate, n)
    requires |Sent(New(rate, 0), Burst(n, x))| == Min(n, rate)
    ensures Legal(New(rate, 0), 0, Burst(n + 1, x)) && EndTime(0, Burst(n + 1, x)) == 0
    ensures AfterBurst(Final(New(rate, 0), Burst(n + 1, x)), rate, n + 1)
    ensures |Sent(New(rate, 0), Burst(n + 1, x))| == Min(n + 1, rate)
  {
    var s0, m := New<T>(rate, 0), Moment<T>.Moment(0, Enqueue(x, 3));
    assert Burst(n + 1, x) == Burst(n, x) + [m];
    RunJoins(s0, Burst(n, x), [m]);
    LegalJoins(s0, 0, Burst(n, x), [m]);
    BurstStep(Final(s0, Burst(n, x)), rate, n, x);
    OneEvent(Final(s0, Burst(n, x)), 0, m);
  }

  lemma OneEvent<T>(s: Sender<T>, t: int, m: Moment<T>)
    requires s.rate > 0 && |s.lanes| == LaneCount
    ensures Final(s, [m]) == Step(s, m).0 && Sent(s, [m]) == Step(s, m).1
    ensures t <= m.at && Enabled(s, m) ==> Legal(s, t, [m])
  {
    assert [m][1..] == [];
    assert Sent(s, [m]) == Step(s, m).1 + Sent(Step(s, m).0, []);
  }

  /**
   The rate bound is exact: a burst on a full bucket and the refill one second
   later put twice the rate on the wire within that second.
   */
  lemma BoundIsMet<T>(rate: nat, x: T)
    requires rate > 0
    ensures var ms := Burst(2 * rate, x) + [Moment(1000, Fire)];
            Legal(New(rate, 0), 0, ms) && 1000 * |Sent(New(rate, 0), ms)| == 1000 * rate + rate * 1000
  {
    var s0, fire := New<T>(rate, 0), Moment<T>.Moment(1000, Fire);
    BurstRuns(rate, 2 * rate, x);
    RunJoins(s0, Burst(2 * rate, x), [fire]);
    LegalJoins(s0, 0, Burst(2 * rate, x), [fire]);
    var s := Final(s0, Burst(2 * rate, x));
    SecondIsLongEnough(rate);
    OneEvent(s, 0, fire);
    BurstFires(s, rate);
  }

  lemma BurstFires<T>(s: Sender<T>, rate: nat)
    requires AfterBurst(s, rate, 2 * rate)
    ensures |Step(s, Moment(1000, Fire)).1| == rate
  {
    var s1 := Refill(s.(timer := None), 1000);
    assert s1.tokens == 1000 * rate;
    DrainCuts(s1);
  }

  lemma SecondIsLongEnough(rate: nat)
    requires rate > 0
    ensures Wait(rate, 0) <= 1000
  {
    Scaled(1, rate, 999);
    DivMonotone(1000 + rate - 1, 1000 * rate, rate);
    assert 1000 * rate / rate == 1000;
  }

  // ----- the timer ----------------------------------------------------------------------

  /** After every run: if anything is queued and the sender is not paused, a timer is on its way. */
  lemma NothingIsStranded<T>(rate: nat, start: int, ms: seq<Moment<T>>)
    requires rate > 0 && Legal(New<T>(rate, start), start, ms)
    ensures var s := Final(New(rate, start), ms);
            !s.paused && Size(s.lanes) > 0 ==>
              s.timer.Some? && s.timer.value <= EndTime(start, ms) + Wait(rate, 0)
  {
    RunKeeps(New<T>(rate, start), start, ms);
  }

  /** A firing sends something exactly when something is queued and a whole token is in hand. */
  lemma FiringSends<T>(s: Sender<T>, t: int, now: int)
    requires Inv(s, t) && t <= now && Enabled(s, Moment(now, Fire))
    ensures Step(s, Moment(now, Fire)).1 != [] <==> Size(s.lanes) > 0 && Credit(s, now) >= 1000
  {
    var s1 := s.(timer := None);
    RefillKeeps(s1, now);
    DrainCuts(Refill(s1, now));
    LaidSize(s.lanes, 0);
    assert s.lanes[0..] == s.lanes;
  }

  /**
   The pump of an enqueue may run when the timeout is already due but has not
   gone off. It spends the token, and the late firing finds nothing to spend.
   */
  lemma FiringMaySendNothing()
    ensures var s1 := Step(New<char>(1, 0), Moment(0, Enqueue('a', 3))).0;
            var s2 := Step(s1, Moment(0, Enqueue('b', 3))).0;
            var s3 := Step(s2, Moment(1000, Enqueue('c', 3))).0;
            Enabled(s3, Moment(1000, Fire)) && Size(s3.lanes) == 1 && Step(s3, Moment(1000, Fire)).1 == []
  {
    LateOne();
    LateTwo();
    LateThree();
    LateFiring();
    LastLaneSize(['c']);
  }

  function LateAfterOne(): Sender<char> { Sender(1, [[], [], [], []], 0, 0, None, false) }

  function LateAfterTwo(): Sender<char> { Sender(1, [[], [], [], ['b']], 0, 0, Some(1000), false) }

  function LateAfterThree(): Sender<char> { Sender(1, [[], [], [], ['c']], 0, 1000, Some(1000), false) }

  lemma LateOne()
    ensures Step(New<char>(1, 0), Moment(0, Enqueue('a', 3))).0 == LateAfterOne()
  {
    var s0 := New<char>(1, 0);
    LastLaneSize<char>([]);
    assert s0.lanes[3] + ['a'] == ['a'] + [];
    assert Push(s0.lanes, 'a', 3) == [[], [], [], ['a'] + []];
    DrainsOne(s0.(lanes := Push(s0.lanes, 'a', 3)), 'a', []);
  }

  lemma LateTwo()
    ensures Step(LateAfterOne(), Moment(0, Enqueue('b', 3))).0 == LateAfterTwo()
  {
    var s1 := LateAfterOne();
    LastLaneSize(['b']);
    assert s1.lanes[3] + ['b'] == ['b'];
    assert Push(s1.lanes, 'b', 3) == [[], [], [], ['b']];
  }

  lemma LateThree()
    ensures Step(LateAfterTwo(), Moment(1000, Enqueue('c', 3))).0 == LateAfterThree()
  {
    var s2 := LateAfterTwo();
    LastLaneSize(['c']);
    assert s2.lanes[3] + ['c'] == ['b'] + ['c'];
    assert Push(s2.lanes, 'c', 3) == [[], [], [], ['b'] + ['c']];
    var r := Refill(s2.(lanes := Push(s2.lanes, 'c', 3)), 1000);
    DrainsOne(r, 'b', ['c']);
  }

  lemma LateFiring()
    ensures Step(LateAfterThree(), Moment(1000, Fire)).1 == []
  {
  }

  lemma DrainsOne<T>(s: Sender<T>, x: T, rest: seq<T>)
    requires s.lanes == [[], [], [], [x] + rest] && s.tokens == 1000
    ensures Drain(s) == (s.(lanes := [[], [], [], rest], tokens := 0), [Ticket(3, x)])
  {
    assert s.lanes[3] != [] && ([x] + rest)[1..] == rest;
    assert FirstBusy(s.lanes, 3) == 3;
    assert FirstBusy(s.lanes, 2) == 3;
    assert FirstBusy(s.lanes, 1) == 3;
    assert s.lanes[3 := rest] == [[], [], [], rest];
    assert Dequeue(s.lanes) == (Some(Ticket(3, x)), [[], [], [], rest]);
    assert Drain(s.(lanes := [[], [], [], rest], tokens := 0)).1 == [];
    assert [Ticket(3, x)] + [] == [Ticket(3, x)];
  }

  lemma LastLaneSize<T>(lane: seq<T>)
    ensures Size([[], [], [], lane]) == |lane|
  {
    var one: seq<seq<T>> := [lane];
    var two: seq<seq<T>> := [[], lane];
    var three: seq<seq<T>> := [[], [], lane];
    var four: seq<seq<T>> := [[], [], [], lane];
    assert four[1..] == three && three[1..] == two && two[1..] == one && one[1..] == [];
    assert Size(one) == |lane| && Size(two) == Size(one) && Size(three) == Size(two);
  }

  /** By the time the timer is due, a token will have been earned, if none is spent before. */
  predicate Funded<T>(s: Sender<T>) {
    s.timer.Some? && s.tokens + (Max(s.timer.value, s.lastRefill) - s.lastRefill) * s.rate >= 1000
  }

  /** The event starts a new timeout. */
  predicate Arms<T>(s: Sender<T>, m: Moment<T>)
    requires s.rate > 0 && |s.lanes| == LaneCount
  {
    && Step(s, m).0.timer.Some?
    && (s.timer.None? || m.event.Fire? || m.event.ClearTransient?)
  }

  lemma PumpFunds<T>(s: Sender<T>, now: int)
    requires s.rate > 0 && 0 <= s.tokens <= 1000 * s.rate && s.lastRefill <= now && s.timer.None?
    ensures Pump(s, now).0.timer.Some? ==> Funded(Pump(s, now).0)
  {
    var s1 := Pump(s, now).0;
    if s1.timer.Some? {
      RefillKeeps(s, now);
      DrainCuts(Refill(s, now));
      WaitBounds(s.rate, s1.tokens);
    }
  }

  lemma ArmsFunded<T>(s: Sender<T>, t: int, m: Moment<T>)
    requires Inv(s, t) && t <= m.at && Enabled(s, m) && Arms(s, m)
    ensures Funded(Step(s, m).0)
  {
    match m.event
    case Enqueue(item, lane) => PumpFunds(s.(lanes := Push(s.lanes, item, lane)), m.at);
    case Fire => PumpFunds(s.(timer := None), m.at);
    case Pause =>
    case Resume =>
      if s.paused { PumpFunds(s.(paused := false, lastRefill := m.at), m.at); }
    case Clear =>
    case ClearTransient => PumpFunds(s.(lanes := ClearExcept(s.lanes, Noise), timer := None), m.at);
  }

  /** A refill before the due time only moves the funds forward. */
  lemma RefillFunds<T>(s: Sender<T>, now: int)
    requires s.rate > 0 && 0 <= s.tokens <= 1000 * s.rate && s.lastRefill <= now && Funded(s)
    ensures Funded(Refill(s, now))
    ensures s.timer.value <= now ==> Refill(s, now).tokens >= 1000
  {
    var due := Max(s.timer.value, s.lastRefill);
    if due <= now {
      Scaled(due - s.lastRefill, now - s.lastRefill, s.rate);
      Earns(s.rate, 0);
    } else {
      Distributes(s.rate, now - s.lastRefill, due - now);
      Earns(s.rate, due - now);
      Scaled(1, due - now, s.rate);
    }
  }

  /** An event that neither spends nor touches the timer leaves it funded. */
  lemma IdleKeepsFunded<T>(s: Sender<T>, t: int, m: Moment<T>)
    requires Inv(s, t) && t <= m.at && Funded(s)
    requires m.event.Enqueue? || m.event.Resume?
    requires Step(s, m).1 == []
    ensures Funded(Step(s, m).0) && Step(s, m).0.timer == s.timer
  {
    if m.event.Enqueue? { RefillFunds(s, m.at); }
  }

  lemma {:induction false} IdleRunKeepsFunded<T>(s: Sender<T>, t: int, ms: seq<Moment<T>>)
    requires Inv(s, t) && Legal(s, t, ms) && Funded(s)
    requires forall i :: 0 <= i < |ms| ==> ms[i].event.Enqueue? || ms[i].event.Resume?
    requires Sent(s, ms) == []
    ensures Funded(Final(s, ms)) && Final(s, ms).timer == s.timer
    decreases |ms|
  {
    if ms != [] {
      assert Step(s, ms[0]).1 == [] && Sent(Step(s, ms[0]).0, ms[1..]) == [];
      StepKeeps(s, t, ms[0]);
      IdleKeepsFunded(s, t, ms[0]);
      IdleRunKeepsFunded(Step(s, ms[0]).0, ms[0].at, ms[1..]);
    }
  }

  /** A timer is only armed for a queue that has something left. */
  lemma ArmsBusy<T>(s: Sender<T>, t: int, m: Moment<T>)
    requires Inv(s, t) && t <= m.at && Enabled(s, m) && Arms(s, m)
    ensures Laid(Step(s, m).0.lanes, 0) != []
  {
    StepKeeps(s, t, m);
    LaidSize(Step(s, m).0.lanes, 0);
    assert Step(s, m).0.lanes[0..] == Step(s, m).0.lanes;
  }

  lemma IdleKeepsBusy<T>(s: Sender<T>, t: int, m: Moment<T>)
    requires Inv(s, t) && t <= m.at && Laid(s.lanes, 0) != [] && s.timer.Some?
    requires m.event.Enqueue? || m.event.Resume?
    requires Step(s, m).1 == []
    ensures Laid(Step(s, m).0.lanes, 0) != []
  {
    if m.event.Enqueue? {
      var s1 := s.(lanes := Push(s.lanes, m.event.item, m.event.lane));
      PushLays(s.lanes, m.event.item, m.event.lane, 0);
      PumpCuts(s1, m.at, 0);
    }
  }

  lemma {:induction false} IdleRunKeepsBusy<T>(s: Sender<T>, t: int, ms: seq<Moment<T>>)
    requires Inv(s, t) && Legal(s, t, ms) && Funded(s) && Laid(s.lanes, 0) != []
    requires forall i :: 0 <= i < |ms| ==> ms[i].event.Enqueue? || ms[i].event.Resume?
    requires Sent(s, ms) == []
    ensures Laid(Final(s, ms).lanes, 0) != []
    decreases |ms|
  {
    if ms != [] {
      assert Step(s, ms[0]).1 == [] && Sent(Step(s, ms[0]).0, ms[1..]) == [];
      StepKeeps(s, t, ms[0]);
      IdleKeepsFunded(s, t, ms[0]);
      IdleKeepsBusy(s, t, ms[0]);
      IdleRunKeepsBusy(Step(s, ms[0]).0, ms[0].at, ms[1..]);
    }
  }

  /**
   From the event that armed the timer to the end of its firing, at least one
   item is sent.
   */
  lemma TimerCycleSends<T>(s: Sender<T>, t: int, arm: Moment<T>, between: seq<Moment<T>>, now: int)
    requires Inv(s, t) && Legal(s, t, [arm] + between + [Moment(now, Fire)])
    requires Arms(s, arm)
    requires forall i :: 0 <= i < |between| ==> between[i].event.Enqueue? || between[i].event.Resume?
    ensures Sent(Step(s, arm).0, between + [Moment(now, Fire)]) != []
  {
    var fire: Moment<T> := Moment(now, Fire);
    var s1 := Step(s, arm).0;
    LegalJoins(s, t, [arm] + between, [fire]);
    LegalJoins(s, t, [arm], between);
    RunJoins(s, [arm], between);
    RunJoins(s1, between, [fire]);
    assert [arm][1..] == [];
    assert Final(s, [arm]) == s1;
    var s2 := Final(s1, between);
    StepKeeps(s, t, arm);
    RunKeeps(s1, arm.at, between);
    if Sent(s1, between) == [] {
      ArmsFunded(s, t, arm);
      ArmsBusy(s, t, arm);
      IdleRunKeepsBusy(s1, arm.at, between);
      LaidSize(s2.lanes, 0);
      assert s2.lanes[0..] == s2.lanes;
      IdleRunKeepsFunded(s1, arm.at, between);
      RefillFunds(s2, now);
      RefillKeeps(s2, now);
      FiringSends(s2, EndTime(arm.at, between), now);
      assert Sent(s2, [fire]) == Step(s2, fire).1 + Sent(Step(s2, fire).0, [fire][1..]);
    }
  }

  // ----- conservation -------------------------------------------------------------------

  /** The items of one lane, in order. */
  function OnLane<T>(ts: seq<Ticket<T>>, k: nat): seq<T> {
    if ts == [] then []
    else (if ts[0].lane == k then [ts[0].item] else []) + OnLane(ts[1..], k)
  }

  lemma {:induction false} OnLaneJoins<T>(a: seq<Ticket<T>>, b: seq<Ticket<T>>, k: nat)
    ensures OnLane(a + b, k) == OnLane(a, k) + OnLane(b, k)
  {
    if a == [] {
      assert a + b == b;
    } else {
      assert (a + b)[0] == a[0] && (a + b)[1..] == a[1..] + b;
      OnLaneJoins(a[1..], b, k);
      var head := if a[0].lane == k then [a[0].item] else [];
      assert head + (OnLane(a[1..], k) + OnLane(b, k)) == (head + OnLane(a[1..], k)) + OnLane(b, k);
    }
  }

  lemma {:induction false} OnLaneTag<T>(s: seq<T>, j: nat, k: nat)
    ensures OnLane(Tag(s, j), k) == if j == k then s else []
  {
    if s != [] {
      assert Tag(s, j)[1..] == Tag(s[1..], j);
      OnLaneTag(s[1..], j, k);
    }
  }

  lemma EmptyEnds<T>(s: seq<T>)
    ensures s + [] == s && [] + s == s
  {
  }

  lemma OnLaneFirst<T>(lanes: seq<seq<T>>, from: nat, k: nat)
    requires from < |lanes| && k < |lanes|
    ensures OnLane(Laid(lanes, from), k) == (if from == k then lanes[k] else []) + OnLane(Laid(lanes, from + 1), k)
  {
    LaidTags(lanes, from);
    OnLaneJoins(Tag(lanes[from], from), Laid(lanes, from + 1), k);
    OnLaneTag(lanes[from], from, k);
  }

  lemma {:induction false} OnLaneAbove<T>(lanes: seq<seq<T>>, from: nat, k: nat)
    requires k < from <= |lanes|
    ensures OnLane(Laid(lanes, from), k) == []
    decreases |lanes| - from
  {
    if from < |lanes| {
      var rest := OnLane(Laid(lanes, from + 1), k);
      OnLaneFirst(lanes, from, k);
      EmptyEnds(rest);
      assert OnLane(Laid(lanes, from), k) == rest;
      OnLaneAbove(lanes, from + 1, k);
    }
  }

  lemma {:induction false} OnLaneLaid<T>(lanes: seq<seq<T>>, from: nat, k: nat)
    requires from <= k < |lanes|
    ensures OnLane(Laid(lanes, from), k) == lanes[k]
    decreases k - from
  {
    OnLaneFirst(lanes, from, k);
    EmptyEnds(lanes[k]);
    if from < k {
      OnLaneLaid(lanes, from + 1, k);
    } else {
      OnLaneAbove(lanes, from + 1, k);
    }
  }

  function ClearsLane<T>(m: Moment<T>, k: nat): bool {
    m.event.Clear? || (m.event.ClearTransient? && k != Noise)
  }

  function EnqueuedNow<T>(m: Moment<T>, k: nat): seq<T> {
    if m.event.Enqueue? && m.event.lane == k then [m.event.item] else []
  }

  /** Everything the run enqueues on one lane. */
  function Enqueued<T>(ms: seq<Moment<T>>, k: nat): seq<T> {
    if ms == [] then [] else EnqueuedNow(ms[0], k) + Enqueued(ms[1..], k)
  }

  /** Everything the run's clears throw away from one lane. */
  function Dropped<T>(s: Sender<T>, ms: seq<Moment<T>>, k: nat): seq<T>
    requires s.rate > 0 && |s.lanes| == LaneCount && k < LaneCount
    decreases |ms|
  {
    if ms == [] then []
    else (if ClearsLane(ms[0], k) then s.lanes[k] else []) + Dropped(Step(s, ms[0]).0, ms[1..], k)
  }

  /** A pump takes a prefix off the lanes laid end to end, so a prefix off each lane. */
  lemma PumpCuts<T>(s: Sender<T>, now: int, k: nat)
    requires s.rate > 0 && |s.lanes| == LaneCount && k < LaneCount
    requires 0 <= s.tokens <= 1000 * s.rate && s.lastRefill <= now
    ensures Laid(s.lanes, 0) == Pump(s, now).1 + Laid(Pump(s, now).0.lanes, 0)
    ensures s.lanes[k] == OnLane(Pump(s, now).1, k) + Pump(s, now).0.lanes[k]
  {
    if !s.paused {
      RefillKeeps(s, now);
      DrainCuts(Refill(s, now));
    }
    var after := Pump(s, now).0.lanes;
    OnLaneJoins(Pump(s, now).1, Laid(after, 0), k);
    OnLaneLaid(s.lanes, 0, k);
    OnLaneLaid(after, 0, k);
  }

  lemma StepLane<T>(s: Sender<T>, t: int, m: Moment<T>, k: nat)
    requires Inv(s, t) && t <= m.at && k < LaneCount
    ensures OnLane(Step(s, m).1, k) + Step(s, m).0.lanes[k]
            == if ClearsLane(m, k) then [] else s.lanes[k] + EnqueuedNow(m, k)
  {
    match m.event
    case Enqueue(item, lane) => PumpCuts(s.(lanes := Push(s.lanes, item, lane)), m.at, k);
    case Fire => PumpCuts(s.(timer := None), m.at, k);
    case Pause =>
    case Resume =>
      if s.paused { PumpCuts(s.(paused := false, lastRefill := m.at), m.at, k); }
    case Clear =>
    case ClearTransient => PumpCuts(s.(lanes := ClearExcept(s.lanes, Noise), timer := None), m.at, k);
  }

  /** One step's part of the balance, and the rest of the run's. */
  lemma SentSplits<T>(s: Sender<T>, ms: seq<Moment<T>>, k: nat)
    requires s.rate > 0 && |s.lanes| == LaneCount && ms != []
    ensures Final(s, ms) == Final(Step(s, ms[0]).0, ms[1..])
    ensures OnLane(Sent(s, ms), k) == OnLane(Step(s, ms[0]).1, k) + OnLane(Sent(Step(s, ms[0]).0, ms[1..]), k)
  {
    OnLaneJoins(Step(s, ms[0]).1, Sent(Step(s, ms[0]).0, ms[1..]), k);
  }

  /** A lane that no event clears: what was sent, then what is queued, is what was enqueued, in order. */
  lemma {:induction false} LaneIsFifo<T>(s: Sender<T>, t: int, ms: seq<Moment<T>>, k: nat)
    requires Inv(s, t) && Legal(s, t, ms) && k < LaneCount
    requires forall i :: 0 <= i < |ms| ==> !ClearsLane(ms[i], k)
    ensures OnLane(Sent(s, ms), k) + Final(s, ms).lanes[k] == s.lanes[k] + Enqueued(ms, k)
    decreases |ms|
  {
    if ms != [] {
      var s1 := Step(s, ms[0]).0;
      StepKeeps(s, t, ms[0]);
      StepLane(s, t, ms[0], k);
      SentSplits(s, ms, k);
      LaneIsFifo(s1, ms[0].at, ms[1..], k);
      FifoGlue(OnLane(Step(s, ms[0]).1, k), s1.lanes[k], s.lanes[k], EnqueuedNow(ms[0], k),
               OnLane(Sent(s1, ms[1..]), k), Final(s1, ms[1..]).lanes[k], Enqueued(ms[1..], k));
    }
  }

  lemma FifoGlue<T>(sent: seq<T>, after: seq<T>, lane: seq<T>, enq: seq<T>, sent2: seq<T>, end: seq<T>, enq2: seq<T>)
    requires sent + after == lane + enq && sent2 + end == after + enq2
    ensures (sent + sent2) + end == lane + (enq + enq2)
  {
    assert (sent + sent2) + end == sent + (sent2 + end);
    JoinsAssociate(sent, after, lane, enq, enq2);
  }

  /** Handshake frames survive every event but `clear`: none is lost, repeated or reordered. */
  lemma NoiseIsConserved<T>(rate: nat, start: int, ms: seq<Moment<T>>)
    requires rate > 0 && Legal(New<T>(rate, start), start, ms)
    requires forall i :: 0 <= i < |ms| ==> !ms[i].event.Clear?
    ensures var s0 := New<T>(rate, start);
            OnLane(Sent(s0, ms), Noise) + Final(s0, ms).lanes[Noise] == Enqueued(ms, Noise)
  {
    LaneIsFifo(New<T>(rate, start), start, ms, Noise);
  }

  /** `a` is `b` with some elements left out. */
  predicate Subsequence<T(==)>(a: seq<T>, b: seq<T>) {
    a == [] ||
    (b != [] && (if a[0] == b[0] then Subsequence(a[1..], b[1..]) || Subsequence(a, b[1..]) else Subsequence(a, b[1..])))
  }

  lemma {:induction false} PrefixIsSubsequence<T>(p: seq<T>, a: seq<T>, b: seq<T>)
    requires Subsequence(a, b)
    ensures Subsequence(p + a, p + b)
  {
    if p == [] {
      assert p + a == a && p + b == b;
    } else {
      assert (p + a)[1..] == p[1..] + a && (p + b)[1..] == p[1..] + b;
      PrefixIsSubsequence(p[1..], a, b);
    }
  }

  lemma {:induction false} SkipIsSubsequence<T>(p: seq<T>, a: seq<T>, b: seq<T>)
    requires Subsequence(a, b)
    ensures Subsequence(a, p + b)
  {
    if p == [] {
      assert p + b == b;
    } else {
      assert (p + b)[1..] == p[1..] + b;
      SkipIsSubsequence(p[1..], a, b);
    }
  }

  /** With clears too, each lane stays in order: what is sent and queued skips only dropped items. */
  lemma {:induction false} LaneKeepsOrder<T>(s: Sender<T>, t: int, ms: seq<Moment<T>>, k: nat)
    requires Inv(s, t) && Legal(s, t, ms) && k < LaneCount
    ensures Subsequence(OnLane(Sent(s, ms), k) + Final(s, ms).lanes[k], s.lanes[k] + Enqueued(ms, k))
    decreases |ms|
  {
    if ms == [] {
      PrefixIsSubsequence(s.lanes[k], [], []);
      assert s.lanes[k] + [] == s.lanes[k] && [] + s.lanes[k] == s.lanes[k];
    } else {
      var s1 := Step(s, ms[0]).0;
      StepKeeps(s, t, ms[0]);
      StepLane(s, t, ms[0], k);
      SentSplits(s, ms, k);
      LaneKeepsOrder(s1, ms[0].at, ms[1..], k);
      OrderGlue(OnLane(Step(s, ms[0]).1, k), s1.lanes[k], s.lanes[k], EnqueuedNow(ms[0], k),
                OnLane(Sent(s1, ms[1..]), k), Final(s1, ms[1..]).lanes[k], Enqueued(ms[1..], k), ClearsLane(ms[0], k));
    }
  }

  lemma OrderGlue<T>(sent: seq<T>, after: seq<T>, lane: seq<T>, enq: seq<T>,
                     sent2: seq<T>, end: seq<T>, enq2: seq<T>, cleared: bool)
    requires sent + after == if cleared then [] else lane + enq
    requires Subsequence(sent2 + end, after + enq2) && (cleared ==> enq == [])
    ensures Subsequence((sent + sent2) + end, lane + (enq + enq2))
  {
    assert (sent + sent2) + end == sent + (sent2 + end);
    if cleared {
      EmptyJoin(sent, after);
      SkipIsSubsequence(lane, sent2 + end, enq2);
      assert after + enq2 == enq2 && enq + enq2 == enq2 && sent + (sent2 + end) == sent2 + end;
    } else {
      PrefixIsSubsequence(sent, sent2 + end, after + enq2);
      JoinsAssociate(sent, after, lane, enq, enq2);
    }
  }

  lemma JoinsAssociate<T>(a: seq<T>, b: seq<T>, c: seq<T>, d: seq<T>, e: seq<T>)
    requires a + b == c + d
    ensures a + (b + e) == c + (d + e)
  {
    assert a + (b + e) == (a + b) + e;
    assert c + (d + e) == (c + d) + e;
  }

  lemma EmptyJoin<T>(a: seq<T>, b: seq<T>)
    requires a + b == []
    ensures a == [] && b == []
  {
    assert |a + b| == |a| + |b|;
  }

  /** Every enqueued item is, exactly once, sent or still queued or thrown away by a clear. */
  lemma {:induction false} EveryItemIsAccountedFor<T>(s: Sender<T>, t: int, ms: seq<Moment<T>>, k: nat)
    requires Inv(s, t) && Legal(s, t, ms) && k < LaneCount
    ensures multiset(OnLane(Sent(s, ms), k)) + multiset(Final(s, ms).lanes[k]) + multiset(Dropped(s, ms, k))
            == multiset(s.lanes[k]) + multiset(Enqueued(ms, k))
    decreases |ms|
  {
    if ms != [] {
      var s1 := Step(s, ms[0]).0;
      StepKeeps(s, t, ms[0]);
      StepLane(s, t, ms[0], k);
      SentSplits(s, ms, k);
      EveryItemIsAccountedFor(s1, ms[0].at, ms[1..], k);
      var dropped := if ClearsLane(ms[0], k) then s.lanes[k] else [];
      AccountGlue(OnLane(Step(s, ms[0]).1, k), s1.lanes[k], s.lanes[k], EnqueuedNow(ms[0], k), dropped,
                  OnLane(Sent(s1, ms[1..]), k), Final(s1, ms[1..]).lanes[k], Dropped(s1, ms[1..], k), Enqueued(ms[1..], k));
    }
  }

  lemma AccountGlue<T>(sent: seq<T>, after: seq<T>, lane: seq<T>, enq: seq<T>, dropped: seq<T>,
                       sent2: seq<T>, end: seq<T>, dropped2: seq<T>, enq2: seq<T>)
    requires (sent + after == lane + enq && dropped == []) || (sent + after == [] && dropped == lane && enq == [])
    requires multiset(sent2) + multiset(end) + multiset(dropped2) == multiset(after) + multiset(enq2)
    ensures multiset(sent + sent2) + multiset(end) + multiset(dropped + dropped2) == multiset(lane) + multiset(enq + enq2)
  {
    assert multiset(sent + sent2) == multiset(sent) + multiset(sent2);
    assert multiset(enq + enq2) == multiset(enq) + multiset(enq2);
    assert multiset(dropped + dropped2) == multiset(dropped) + multiset(dropped2);
    if dropped == [] && sent + after == lane + enq {
      assert multiset(sent + after) == multiset(sent) + multiset(after);
      assert multiset(lane + enq) == multiset(lane) + multiset(enq);
      assert multiset(dropped) == multiset{};
      BagGlue(multiset(sent), multiset(after), multiset(lane), multiset(enq),
              multiset(sent2), multiset(end), multiset(dropped2), multiset(enq2));
    } else {
      EmptyJoin(sent, after);
      assert multiset(sent) == multiset{} == multiset(after) == multiset(enq);
    }
  }

  lemma BagGlue<T>(a: multiset<T>, f: multiset<T>, l: multiset<T>, q: multiset<T>,
                   a2: multiset<T>, e: multiset<T>, d2: multiset<T>, q2: multiset<T>)
    requires a + f == l + q && a2 + e + d2 == f + q2
    ensures a + a2 + e + d2 == l + (q + q2)
  {
    assert a + a2 + e + d2 == a + (a2 + e + d2);
    assert a + (f + q2) == (a + f) + q2;
  }

  // ----- a pause ------------------------------------------------------------------------

  /** What lane `k` holds after a run that sends nothing: a clear empties it, an item joins its end. */
  function Piled<T>(lane: seq<T>, ms: seq<Moment<T>>, k: nat): seq<T>
    decreases |ms|
  {
    if ms == [] then lane
    else Piled(if ClearsLane(ms[0], k) then [] else lane + EnqueuedNow(ms[0], k), ms[1..], k)
  }

  lemma PausedStep<T>(s: Sender<T>, t: int, m: Moment<T>)
    requires Inv(s, t) && s.paused && t <= m.at && Enabled(s, m) && !m.event.Resume?
    ensures Step(s, m).1 == []
    ensures var s1 := Step(s, m).0;
            && s1.paused && s1.timer.None? && s1.tokens == s.tokens && |s1.lanes| == LaneCount
            && forall k :: 0 <= k < LaneCount ==> s1.lanes[k] == if ClearsLane(m, k) then [] else s.lanes[k] + EnqueuedNow(m, k)
  {
  }

  lemma {:induction false} PausedRun<T>(s: Sender<T>, t: int, ms: seq<Moment<T>>, k: nat)
    requires Inv(s, t) && Legal(s, t, ms) && s.paused && k < LaneCount
    requires forall i :: 0 <= i < |ms| ==> !ms[i].event.Resume?
    ensures Sent(s, ms) == [] && Final(s, ms).paused && Final(s, ms).timer.None? && Final(s, ms).tokens == s.tokens
    ensures Final(s, ms).lanes[k] == Piled(s.lanes[k], ms, k)
    decreases |ms|
  {
    if ms != [] {
      StepKeeps(s, t, ms[0]);
      PausedStep(s, t, ms[0]);
      PausedRun(Step(s, ms[0]).0, ms[0].at, ms[1..], k);
    }
  }

  /**
   From a pause up to the next resume, in any run, nothing is sent, no timer is
   set and no token is earned or spent; each lane holds what it held, less what a
   clear took, and behind it what was enqueued, in order.
   */
  lemma PausedSendsNothing<T>(rate: nat, start: int, before: seq<Moment<T>>, pause: Moment<T>, during: seq<Moment<T>>, k: nat)
    requires rate > 0 && pause.event.Pause? && Legal(New<T>(rate, start), start, before + ([pause] + during))
    requires forall i :: 0 <= i < |during| ==> !during[i].event.Resume?
    requires k < LaneCount
    ensures var s := Final(New<T>(rate, start), before);
            var s1 := Step(s, pause).0;
            var s2 := Final(s1, during);
            && Step(s, pause).1 == [] && Sent(s1, during) == []
            && s2.paused && s2.timer.None? && s2.tokens == s.tokens
            && s2.lanes[k] == Piled(s.lanes[k], during, k)
  {
    var s0 := New<T>(rate, start);
    LegalJoins(s0, start, before, [pause] + during);
    RunKeeps(s0, start, before);
    var s := Final(s0, before);
    assert ([pause] + during)[1..] == during;
    StepKeeps(s, EndTime(start, before), pause);
    PausedRun(Step(s, pause).0, pause.at, during, k);
  }

  // ----- after a clear ------------------------------------------------------------------

  lemma {:induction false} IdleRun<T>(s: Sender<T>, t: int, ms: seq<Moment<T>>)
    requires Inv(s, t) && Legal(s, t, ms) && s.lanes == NoLanes() && s.timer.None?
    requires forall i :: 0 <= i < |ms| ==> !ms[i].event.Enqueue?
    ensures Sent(s, ms) == [] && (forall i :: 0 <= i < |ms| ==> !ms[i].event.Fire?)
    ensures Final(s, ms).lanes == NoLanes() && Final(s, ms).timer.None?
    decreases |ms|
  {
    if ms != [] {
      StepKeeps(s, t, ms[0]);
      IdleStep(s, t, ms[0]);
      IdleRun(Step(s, ms[0]).0, ms[0].at, ms[1..]);
    }
  }

  lemma IdleStep<T>(s: Sender<T>, t: int, m: Moment<T>)
    requires Inv(s, t) && t <= m.at && Enabled(s, m) && s.lanes == NoLanes() && s.timer.None? && !m.event.Enqueue?
    ensures !m.event.Fire? && Step(s, m).1 == [] && Step(s, m).0.lanes == NoLanes() && Step(s, m).0.timer.None?
  {
    if m.event.Resume? && s.paused {
      EmptyPump(s.(paused := false, tokens := Min(s.tokens, 1000 * s.rate), lastRefill := m.at), m.at);
    } else if m.event.ClearTransient? {
      assert ClearExcept(s.lanes, Noise) == NoLanes<T>();
      EmptyPump(s.(lanes := NoLanes(), timer := None), m.at);
    }
  }

  lemma EmptyPump<T>(s: Sender<T>, now: int)
    requires s.rate > 0 && s.lanes == NoLanes() && s.timer.None?
    ensures Pump(s, now).1 == [] && Pump(s, now).0.lanes == NoLanes() && Pump(s, now).0.timer.None?
  {
    var none := NoLanes<T>();
    assert FirstBusy(none, 0) == 4;
    assert Size(none) == 0 by {
      assert none[1..] == [[], [], []] && none[1..][1..] == [[], []] && none[1..][1..][1..] == [[]];
    }
  }

  /** From a clear up to the next enqueue, in any run, nothing is queued or sent, and no timer is pending or fires. */
  lemma ClearedIsIdle<T>(rate: nat, start: int, before: seq<Moment<T>>, clear: Moment<T>, during: seq<Moment<T>>)
    requires rate > 0 && clear.event.Clear? && Legal(New<T>(rate, start), start, before + ([clear] + during))
    requires forall i :: 0 <= i < |during| ==> !during[i].event.Enqueue?
    ensures var s1 := Step(Final(New<T>(rate, start), before), clear).0;
            && Step(Final(New<T>(rate, start), before), clear).1 == [] && Sent(s1, during) == []
            && (forall i :: 0 <= i < |during| ==> !during[i].event.Fire?)
            && Final(s1, during).lanes == NoLanes() && Final(s1, during).timer.None?
  {
    var s0 := New<T>(rate, start);
    LegalJoins(s0, start, before, [clear] + during);
    RunKeeps(s0, start, before);
    IdleAfter(Final(s0, before), EndTime(start, before), clear, during);
  }

  lemma IdleAfter<T>(s: Sender<T>, t: int, clear: Moment<T>, during: seq<Moment<T>>)
    requires Inv(s, t) && clear.event.Clear? && Legal(s, t, [clear] + during)
    requires forall i :: 0 <= i < |during| ==> !during[i].event.Enqueue?
    ensures var s1 := Step(s, clear).0;
            && Step(s, clear).1 == [] && Sent(s1, during) == []
            && (forall i :: 0 <= i < |during| ==> !during[i].event.Fire?)
            && Final(s1, during).lanes == NoLanes() && Final(s1, during).timer.None?
  {
    LegalRest(s, t, clear, during);
    ClearStep(s, t, clear);
    IdleRun(Step(s, clear).0, clear.at, during);
  }

  lemma ClearStep<T>(s: Sender<T>, t: int, clear: Moment<T>)
    requires Inv(s, t) && clear.event.Clear? && t <= clear.at
    ensures var (s1, sent) := Step(s, clear);
            sent == [] && Inv(s1, clear.at) && s1.lanes == NoLanes() && s1.timer.None?
  {
    StepKeeps(s, t, clear);
  }

  lemma LegalRest<T>(s: Sender<T>, t: int, m: Moment<T>, ms: seq<Moment<T>>)
    requires s.rate > 0 && |s.lanes| == LaneCount && Legal(s, t, [m] + ms)
    ensures t <= m.at && Enabled(s, m) && Legal(Step(s, m).0, m.at, ms)
  {
    assert ([m] + ms)[0] == m && ([m] + ms)[1..] == ms;
  }

  // ----- priority -----------------------------------------------------------------------

  lemma {:induction false} LaidSorted<T>(lanes: seq<seq<T>>, k: nat)
    requires k <= |lanes|
    ensures forall i, j :: 0 <= i < j < |Laid(lanes, k)| ==> Laid(lanes, k)[i].lane <= Laid(lanes, k)[j].lane
    ensures forall i :: 0 <= i < |Laid(lanes, k)| ==> k <= Laid(lanes, k)[i].lane
    decreases |lanes| - k
  {
    if k < |lanes| { LaidSorted(lanes, k + 1); }
  }

  lemma {:induction false} LaidHolds<T>(lanes: seq<seq<T>>, k: nat, j: nat) returns (i: nat)
    requires k <= j < |lanes| && lanes[j] != []
    ensures i < |Laid(lanes, k)| && Laid(lanes, k)[i].lane == j
    decreases |lanes| - k
  {
    if k == j {
      i := 0;
    } else {
      i := LaidHolds(lanes, k + 1, j);
      i := |lanes[k]| + i;
    }
  }

  /** When an item of a lane goes out, every lower lane has been emptied first. */
  lemma LowestLaneFirst<T>(s: Sender<T>, now: int, i: nat, lower: nat)
    requires s.rate > 0 && |s.lanes| == LaneCount && 0 <= s.tokens <= 1000 * s.rate && s.lastRefill <= now
    requires i < |Pump(s, now).1| && lower < Pump(s, now).1[i].lane && lower < LaneCount
    ensures Pump(s, now).0.lanes[lower] == []
    ensures OnLane(Pump(s, now).1[..i], lower) == s.lanes[lower]
  {
    PumpCuts(s, now, lower);
    LaidSorted(s.lanes, 0);
    SortedCut(Laid(s.lanes, 0), Pump(s, now).1, Pump(s, now).0.lanes, i, lower);
  }

  lemma SortedCut<T>(all: seq<Ticket<T>>, sent: seq<Ticket<T>>, after: seq<seq<T>>, i: nat, lower: nat)
    requires all == sent + Laid(after, 0)
    requires forall i, j :: 0 <= i < j < |all| ==> all[i].lane <= all[j].lane
    requires i < |sent| && lower < sent[i].lane && lower < |after|
    ensures after[lower] == []
    ensures OnLane(sent[..i], lower) == OnLane(sent, lower)
  {
    assert all[i] == sent[i];
    if after[lower] != [] {
      var j := LaidHolds(after, 0, lower);
      Later(all, i, |sent| + j);
    }
    forall j | i <= j < |sent| ensures sent[j].lane != lower { assert all[j] == sent[j]; }
    NotOnLane(sent[i..], lower);
    assert sent[..i] + sent[i..] == sent;
    OnLaneJoins(sent[..i], sent[i..], lower);
  }

  /** Nothing behind a ticket comes from a lower lane. */
  lemma Later<T>(all: seq<Ticket<T>>, i: nat, j: nat)
    requires forall i, j :: 0 <= i < j < |all| ==> all[i].lane <= all[j].lane
    requires i < j < |all|
    ensures all[j].lane >= all[i].lane
  {
  }

  lemma {:induction false} NotOnLane<T>(ts: seq<Ticket<T>>, k: nat)
    requires forall j :: 0 <= j < |ts| ==> ts[j].lane != k
    ensures OnLane(ts, k) == []
  {
    if ts != [] { NotOnLane(ts[1..], k); }
  }
}
