/** The limiters with their counter maps updated in place. */
module RateLimitClass {
  import opened Common
  import opened OrderedMap
  import Spec = RateLimit

  const SweepThreshold := 10000

  class RateLimiter {
    const windowMs: nat
    const max: nat
    var counters: Spec.Counters

    constructor (windowMs: nat, max: nat)
      ensures this.windowMs == windowMs && this.max == max && counters == Empty()
    {
      this.windowMs, this.max, counters := windowMs, max, OMap([], map[]);
    }

    /** Drops every counter whose window began more than `age` ago. */
    method DropOlder(age: nat, now: int)
      requires counters.Valid()
      modifies this
      ensures counters == Spec.Sweep(old(counters), age, now)
    {
      IterationSifts(counters, Spec.Current(age, now));
      var i := 0;
      while i < |counters.keys|
        invariant counters.Valid()
        invariant Iterate(counters, i, Spec.Current(age, now)) == Iterate(old(counters), 0, Spec.Current(age, now))
        decreases |counters.keys| - i
      {
        var k := counters.keys[i];
        if now - counters.vals[k].windowStart > age {
          DeleteAt(counters, i);
          counters := counters.Delete(k);
        } else {
          assert counters.Set(k, counters.vals[k]) == counters;
          i := i + 1;
        }
      }
    }

    /** Counts one request; true lets it through. */
    method Count(key: Spec.Key, now: int) returns (allowed: bool)
      requires counters.Valid()
      modifies this
      ensures counters.Valid()
      ensures var c := Spec.Request(old(counters), key, windowMs, now);
              counters == old(counters).Set(key, c) && (allowed <==> c.count <= max)
    {
      var counter := if key in counters.vals then counters.vals[key] else Spec.Counter(0, now);
      if now - counter.windowStart > windowMs {
        counter := Spec.Counter(1, now);
      } else {
        counter := counter.(count := counter.count + 1);
      }
      SetValid(counters, key, counter);
      counters := counters.Set(key, counter);
      allowed := counter.count <= max;
    }

    /** The HTTP middleware: a full map is swept on the way; `None` is a request the limiter skips. */
    method RateLimit(key: Option<Spec.Key>, now: int) returns (allowed: bool)
      requires counters.Valid()
      modifies this
      ensures key.None? ==> allowed && counters == old(counters)
      ensures key.Some? ==>
                var c := Spec.Request(old(counters), key.value, windowMs, now);
                var m := old(counters).Set(key.value, c);
                m.Valid() && (allowed <==> c.count <= max)
                && counters == if |m.keys| > SweepThreshold then Spec.Sweep(m, windowMs, now) else m
    {
      if key.None? { return true; }
      allowed := Count(key.value, now);
      if |counters.keys| > SweepThreshold { DropOlder(windowMs, now); }
    }
  }
}
