/**
 The paced, prioritised outbound queue for relay signalling, on values.

 Tokens are counted in thousandths, so that a whole rate per second earns
 exactly `rate` of them in a millisecond and no fraction is ever rounded.
 */
module SendQueue {
  import opened Common

  const LaneCount := 4
  const Noise := 0

  /** The handshake lane is 0; a lower lane drains first. */
  type Lane = k: nat | k < LaneCount

  /** An item together with the lane it waited in. */
  datatype Ticket<T> = Ticket(lane: nat, item: T)

  // ----- the lanes -------------------------------------------------------------------

  function NoLanes<T>(): seq<seq<T>> { [[], [], [], []] }

  function Size<T>(lanes: seq<seq<T>>): nat {
    if lanes == [] then 0 else |lanes[0]| + Size(lanes[1..])
  }

  function Push<T>(lanes: seq<seq<T>>, item: T, k: nat): (r: seq<seq<T>>)
    requires k < |lanes|
  {
    lanes[k := lanes[k] + [item]]
  }

  /** The lowest lane from `k` on that is not empty, or `|lanes|`. */
  function FirstBusy<T>(lanes: seq<seq<T>>, k: nat): (r: nat)
    requires k <= |lanes|
    ensures k <= r <= |lanes|
    ensures forall i :: k <= i < r ==> lanes[i] == []
    ensures r < |lanes| ==> lanes[r] != []
    decreases |lanes| - k
  {
    if k == |lanes| || lanes[k] != [] then k else FirstBusy(lanes, k + 1)
  }

  function Dequeue<T>(lanes: seq<seq<T>>): (Option<Ticket<T>>, seq<seq<T>>) {
    var k := FirstBusy(lanes, 0);
    if k == |lanes| then (None, lanes)
    else (Some(Ticket(k, lanes[k][0])), lanes[k := lanes[k][1..]])
  }

  function ClearExcept<T>(lanes: seq<seq<T>>, keep: nat): seq<seq<T>> {
    seq(|lanes|, i requires 0 <= i < |lanes| => if i == keep then lanes[i] else [])
  }

  /** The lanes laid end to end: the order in which an undisturbed queue drains. */
  function Laid<T>(lanes: seq<seq<T>>, k: nat): seq<Ticket<T>>
    requires k <= |lanes|
    decreases |lanes| - k
  {
    if k == |lanes| then []
    else seq(|lanes[k]|, i requires 0 <= i < |lanes[k]| => Ticket(k, lanes[k][i])) + Laid(lanes, k + 1)
  }

  function ItemOf<T>(t: Option<Ticket<T>>): Option<T> {
    if t.None? then None else Some(t.value.item)
  }

  function Items<T>(ts: seq<Ticket<T>>): seq<T> {
    seq(|ts|, i requires 0 <= i < |ts| => ts[i].item)
  }

  lemma ItemsJoin<T>(a: seq<Ticket<T>>, b: seq<Ticket<T>>)
    ensures Items(a + b) == Items(a) + Items(b)
    ensures Items<T>([]) == []
  {
  }

  // ----- the sender --------------------------------------------------------------------

  /** `timer` holds the time the pending timeout is due. */
  datatype Sender<T> = Sender(rate: nat, lanes: seq<seq<T>>, tokens: int, lastRefill: int,
                              timer: Option<int>, paused: bool)

  function New<T>(rate: nat, now: int): Sender<T> {
    Sender(rate, NoLanes(), 1000 * rate, now, None, false)
  }

  function Refill<T>(s: Sender<T>, now: int): Sender<T> {
    if now <= s.lastRefill then s
    else s.(tokens := Min(1000 * s.rate, s.tokens + (now - s.lastRefill) * s.rate), lastRefill := now)
  }

  /** The sending loop: it ends when less than one token is left or the lanes are empty. */
  function Drain<T>(s: Sender<T>): (r: (Sender<T>, seq<Ticket<T>>))
    ensures r.0 == s.(lanes := r.0.lanes, tokens := s.tokens - 1000 * |r.1|)
    ensures |r.0.lanes| == |s.lanes|
    decreases s.tokens
  {
    if s.tokens < 1000 then (s, [])
    else
      var (next, rest) := Dequeue(s.lanes);
      if next.None? then (s, [])
      else
        var (s2, sent) := Drain(s.(lanes := rest, tokens := s.tokens - 1000));
        (s2, [next.value] + sent)
  }

  /** One turn of the loop: the item at the head goes out before what the rest of the loop sends. */
  lemma DrainTakes<T>(s: Sender<T>, sent: seq<T>)
    requires s.tokens >= 1000 && Dequeue(s.lanes).0.Some?
    ensures var (next, rest) := Dequeue(s.lanes);
            var s1 := s.(lanes := rest, tokens := s.tokens - 1000);
            Drain(s).0 == Drain(s1).0
            && sent + Items(Drain(s).1) == (sent + [next.value.item]) + Items(Drain(s1).1)
  {
    var (next, rest) := Dequeue(s.lanes);
    var later := Drain(s.(lanes := rest, tokens := s.tokens - 1000)).1;
    ItemsJoin([next.value], later);
    assert Items([next.value]) == [next.value.item];
    assert sent + ([next.value.item] + Items(later)) == (sent + [next.value.item]) + Items(later);
  }

  /** The whole milliseconds until one token has been earned, rounded up. */
  function Wait(rate: nat, tokens: int): int
    requires rate > 0
  {
    Max((1000 - tokens + rate - 1) / rate, 1)
  }

  /** The loop leaves early, without arming a timer, when it runs out of items. */
  function Pump<T>(s: Sender<T>, now: int): (Sender<T>, seq<Ticket<T>>)
    requires s.rate > 0
  {
    if s.paused then (s, [])
    else
      var (s1, sent) := Drain(Refill(s, now));
      if s1.tokens < 1000 && Size(s1.lanes) > 0 && s1.timer.None?
      then (s1.(timer := Some(now + Wait(s1.rate, s1.tokens))), sent)
      else (s1, sent)
  }

  datatype Event<T> =
    | Enqueue(item: T, lane: Lane)
    | Fire
    | Pause
    | Resume
    | Clear
    | ClearTransient

  datatype Moment<T> = Moment(at: int, event: Event<T>)

  /** A timeout fires at its due time or later, and only while it is pending. */
  predicate Enabled<T>(s: Sender<T>, m: Moment<T>) {
    m.event.Fire? ==> s.timer.Some? && s.timer.value <= m.at
  }

  function Step<T>(s: Sender<T>, m: Moment<T>): (Sender<T>, seq<Ticket<T>>)
    requires s.rate > 0 && |s.lanes| == LaneCount
  {
    match m.event
    case Enqueue(item, lane) => Pump(s.(lanes := Push(s.lanes, item, lane)), m.at)
    case Fire => Pump(s.(timer := None), m.at)
    case Pause => (s.(paused := true, timer := None), [])
    case Resume =>
      if !s.paused then (s, [])
      else Pump(s.(paused := false, tokens := Min(s.tokens, 1000 * s.rate), lastRefill := m.at), m.at)
    case Clear => (s.(lanes := NoLanes(), timer := None), [])
    case ClearTransient => Pump(s.(lanes := ClearExcept(s.lanes, Noise), timer := None), m.at)
  }

  /** What the send callback sees of a step: the items without their lanes. */
  function Delivered<T>(r: (Sender<T>, seq<Ticket<T>>)): (Sender<T>, seq<T>) { (r.0, Items(r.1)) }
}
