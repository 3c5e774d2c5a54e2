/** The queue and its pacer as objects updated in place, each method doing what `SendQueue` says. */
module SendQueueClass {
  import opened Common
  import Spec = SendQueue

  class PriorityQueue<T(0)> {
    var lanes: seq<seq<T>>

    constructor ()
      ensures lanes == Spec.NoLanes()
    {
      lanes := [[], [], [], []];
    }

    method Enqueue(item: T, priority: Spec.Lane)
      requires |lanes| == Spec.LaneCount
      modifies this
      ensures lanes == Spec.Push(old(lanes), item, priority)
    {
      lanes := lanes[priority := lanes[priority] + [item]];
    }

    method Dequeue() returns (next: Option<T>)
      modifies this
      ensures lanes == Spec.Dequeue(old(lanes)).1
      ensures next == Spec.ItemOf(Spec.Dequeue(old(lanes)).0)
    {
      for k := 0 to |lanes|
        invariant lanes == old(lanes)
        invariant Spec.FirstBusy(lanes, 0) == Spec.FirstBusy(lanes, k)
      {
        if |lanes[k]| > 0 {
          next := Some(lanes[k][0]);
          lanes := lanes[k := lanes[k][1..]];
          return;
        }
      }
      next := None;
    }

    method Size() returns (total: nat)
      ensures total == Spec.Size(lanes)
    {
      total := 0;
      for k := 0 to |lanes|
        invariant total + Spec.Size(lanes[k..]) == Spec.Size(lanes)
      {
        assert lanes[k..][0] == lanes[k] && lanes[k..][1..] == lanes[k + 1..];
        total := total + |lanes[k]|;
      }
    }

    method Clear()
      requires |lanes| == Spec.LaneCount
      modifies this
      ensures lanes == Spec.NoLanes()
    {
      for k := 0 to |lanes|
        invariant |lanes| == Spec.LaneCount
        invariant forall i :: 0 <= i < k ==> lanes[i] == []
      {
        lanes := lanes[k := []];
      }
    }

    method ClearExcept(keep: Spec.Lane)
      modifies this
      ensures lanes == Spec.ClearExcept(old(lanes), keep)
    {
      for k := 0 to |lanes|
        invariant |lanes| == |old(lanes)|
        invariant forall i :: 0 <= i < k ==> lanes[i] == if i == keep then old(lanes)[i] else []
        invariant forall i :: k <= i < |lanes| ==> lanes[i] == old(lanes)[i]
      {
        if k != keep { lanes := lanes[k := []]; }
      }
    }
  }

  /** Every method returns the items it handed to the send callback, in order. */
  class PacedSender<T(0)> {
    const ratePerSecond: nat
    const queue: PriorityQueue<T>
    var tokens: int
    var lastRefill: int
    var timer: Option<int>
    var paused: bool

    ghost function View(): Spec.Sender<T>
      reads this, queue
    {
      Spec.Sender(ratePerSecond, queue.lanes, tokens, lastRefill, timer, paused)
    }

    constructor (ratePerSecond: nat, now: int)
      ensures View() == Spec.New(ratePerSecond, now) && fresh(queue)
    {
      this.ratePerSecond := ratePerSecond;
      queue := new PriorityQueue<T>();
      tokens, lastRefill, timer, paused := 1000 * ratePerSecond, now, None, false;
    }

    method Refill(now: int)
      modifies this
      ensures View() == Spec.Refill(old(View()), now)
    {
      var elapsed := now - lastRefill;
      if elapsed <= 0 { return; }
      tokens := Min(1000 * ratePerSecond, tokens + elapsed * ratePerSecond);
      lastRefill := now;
    }

    method Pump(now: int) returns (sent: seq<T>)
      requires ratePerSecond > 0
      modifies this, queue
      ensures View() == Spec.Pump(old(View()), now).0
      ensures sent == Spec.Items(Spec.Pump(old(View()), now).1)
    {
      if paused {
        Spec.ItemsJoin<T>([], []);
        return [];
      }
      Refill(now);
      sent := SendWhilePaid();
      if tokens >= 1000 { return; }
      var left := queue.Size();
      if left > 0 && timer.None? {
        var waitMs := (1000 - tokens + ratePerSecond - 1) / ratePerSecond;
        timer := Some(now + Max(waitMs, 1));
      }
    }

    /** The sending loop of a pump; it stops with tokens left when the lanes run empty. */
    method SendWhilePaid() returns (sent: seq<T>)
      modifies this, queue
      ensures View() == Spec.Drain(old(View())).0
      ensures sent == Spec.Items(Spec.Drain(old(View())).1)
    {
      sent := [];
      ghost var begun := View();
      while tokens >= 1000
        invariant Spec.Drain(View()).0 == Spec.Drain(begun).0
        invariant sent + Spec.Items(Spec.Drain(View()).1) == Spec.Items(Spec.Drain(begun).1)
        decreases tokens
      {
        ghost var was := View();
        var next := queue.Dequeue();
        if next.None? {
          Spec.ItemsJoin<T>([], []);
          return;
        }
        tokens := tokens - 1000;
        Spec.DrainTakes(was, sent);
        sent := sent + [next.value];
      }
      Spec.ItemsJoin<T>([], []);
    }

    method Enqueue(item: T, priority: Spec.Lane, now: int) returns (sent: seq<T>)
      requires ratePerSecond > 0 && |queue.lanes| == Spec.LaneCount
      modifies this, queue
      ensures (View(), sent) == Spec.Delivered(Spec.Step(old(View()), Spec.Moment(now, Spec.Enqueue(item, priority))))
    {
      queue.Enqueue(item, priority);
      sent := Pump(now);
    }

    /** What the pending timeout does when it goes off. */
    method OnTimer(now: int) returns (sent: seq<T>)
      requires ratePerSecond > 0 && |queue.lanes| == Spec.LaneCount
      modifies this, queue
      ensures (View(), sent) == Spec.Delivered(Spec.Step(old(View()), Spec.Moment(now, Spec.Fire)))
    {
      timer := None;
      sent := Pump(now);
    }

    method Pause(ghost now: int)
      requires ratePerSecond > 0 && |queue.lanes| == Spec.LaneCount
      modifies this
      ensures (View(), []) == Spec.Delivered(Spec.Step(old(View()), Spec.Moment(now, Spec.Pause)))
    {
      Spec.ItemsJoin<T>([], []);
      paused := true;
      timer := None;
    }

    method Resume(now: int) returns (sent: seq<T>)
      requires ratePerSecond > 0 && |queue.lanes| == Spec.LaneCount
      modifies this, queue
      ensures (View(), sent) == Spec.Delivered(Spec.Step(old(View()), Spec.Moment(now, Spec.Resume)))
    {
      Spec.ItemsJoin<T>([], []);
      if !paused { return []; }
      paused := false;
      tokens := Min(tokens, 1000 * ratePerSecond);
      lastRefill := now;
      sent := Pump(now);
    }

    method Clear(ghost now: int)
      requires ratePerSecond > 0 && |queue.lanes| == Spec.LaneCount
      modifies this, queue
      ensures (View(), []) == Spec.Delivered(Spec.Step(old(View()), Spec.Moment(now, Spec.Clear)))
    {
      Spec.ItemsJoin<T>([], []);
      queue.Clear();
      timer := None;
    }

    method ClearTransient(now: int) returns (sent: seq<T>)
      requires ratePerSecond > 0 && |queue.lanes| == Spec.LaneCount
      modifies this, queue
      ensures (View(), sent) == Spec.Delivered(Spec.Step(old(View()), Spec.Moment(now, Spec.ClearTransient)))
    {
      queue.ClearExcept(Spec.Noise);
      timer := None;
      sent := Pump(now);
    }
  }
}
