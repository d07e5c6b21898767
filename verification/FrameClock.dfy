/**
  Predicting the next presentation time of an output, in whole nanoseconds.
 */
module FrameClocks {
  import opened Options

  type Interval = n: nat | n > 0 witness 1

  /** The sampled time, moved past the last presentation after an early VBlank. */
  function Adjusted(now: nat, last: nat, interval: Interval): nat {
    if now > last then now
    else if now + interval < last then last + interval
    else now + interval
  }

  /** The end of the refresh interval that is running `d` after a presentation. */
  function SlotEnd(d: nat, interval: Interval): nat {
    (d / interval + 1) * interval
  }

  function NextTime(last: Option<nat>, interval: Option<Interval>, vrr: bool, now: nat): nat {
    if interval.None? || last.None? then now
    else
      var adjusted := Adjusted(now, last.value, interval.value);
      var toNext := SlotEnd(adjusted - last.value, interval.value);
      if vrr && toNext > interval.value then adjusted else last.value + toNext
  }

  class FrameClock {
    var lastPresentationTime: Option<nat>
    const refreshInterval: Option<Interval>
    var vrr: bool

    constructor (refreshInterval: Option<Interval>, vrr: bool)
      ensures lastPresentationTime == None && this.refreshInterval == refreshInterval && this.vrr == vrr
    {
      this.lastPresentationTime := None;
      this.refreshInterval := refreshInterval;
      this.vrr := vrr;
    }

    method SetVrr(vrr: bool)
      modifies this
      ensures this.vrr == vrr
      ensures lastPresentationTime == if vrr == old(this.vrr) then old(lastPresentationTime) else None
    {
      if this.vrr == vrr {
        return;
      }
      this.vrr := vrr;
      lastPresentationTime := None;
    }

    method Presented(presentationTime: nat)
      modifies `lastPresentationTime
      ensures lastPresentationTime == if presentationTime == 0 then old(lastPresentationTime) else Some(presentationTime)
    {
      if presentationTime == 0 {
        return;
      }
      lastPresentationTime := Some(presentationTime);
    }

    /** `sampled` is what the monotonic clock said. */
    method NextPresentationTime(sampled: nat) returns (time: nat)
      ensures time == NextTime(lastPresentationTime, refreshInterval, vrr, sampled)
      ensures time >= sampled
      ensures lastPresentationTime.Some? && refreshInterval.Some? ==> time > lastPresentationTime.value
      ensures lastPresentationTime.None? || refreshInterval.None? ==> time == sampled
    {
      var now: nat := sampled;
      if refreshInterval.None? || lastPresentationTime.None? {
        return now;
      }
      var interval, last := refreshInterval.value, lastPresentationTime.value;
      if now <= last {
        now := now + interval;
        if now < last {
          now := last + interval;
        }
      }
      SlotEndIsAbove(now - last, interval);
      var toNext := SlotEnd(now - last, interval);
      if vrr && toNext > interval {
        return now;
      } else {
        return last + toNext;
      }
    }
  }

  /** `SlotEnd` is the first multiple of the interval strictly above `d`. */
  lemma SlotEndIsFirst(d: nat, interval: Interval)
    ensures d < SlotEnd(d, interval) <= d + interval
    ensures forall k: nat | d < k * interval :: SlotEnd(d, interval) <= k * interval
    ensures d < interval ==> SlotEnd(d, interval) == interval
    ensures d >= interval ==> SlotEnd(d, interval) >= 2 * interval
    ensures d == interval ==> SlotEnd(d, interval) == 2 * interval
  {
    var q := d / interval;
    assert d == q * interval + d % interval;
    assert SlotEnd(d, interval) == q * interval + interval;
    forall k: nat | d < k * interval ensures SlotEnd(d, interval) <= k * interval {
      MultiplesAreSpaced(k, q, interval);
    }
    MultiplesAreSpaced(1, q, interval);
    MultiplesAreSpaced(q, 0, interval);
  }

  lemma SlotEndIsAbove(d: nat, interval: Interval)
    ensures d < SlotEnd(d, interval)
  {
    SlotEndIsFirst(d, interval);
  }

  /** A larger multiple is larger by at least the interval. */
  lemma {:induction false} MultiplesAreSpaced(k: nat, q: nat, interval: Interval)
    ensures if k > q then k * interval >= q * interval + interval else k * interval <= q * interval
    decreases k + q
  {
    if k > q + 1 {
      MultiplesAreSpaced(k - 1, q, interval);
      assert k * interval == (k - 1) * interval + interval;
    } else if k == q + 1 {
      assert k * interval == q * interval + interval;
    } else if k < q {
      MultiplesAreSpaced(k, q - 1, interval);
      assert q * interval == (q - 1) * interval + interval;
    }
  }

  /**
    The target is after the last presentation and not before the sampled time. After the last
    presentation it is the first whole interval later than the sampled time, or with variable refresh
    the sampled time itself as soon as that is a whole interval late.
   */
  lemma NextTimeIsSoundSlot(last: nat, interval: Interval, vrr: bool, now: nat)
    ensures var time := NextTime(Some(last), Some(interval), vrr, now);
      && last < time && now <= time
      && (!vrr ==> exists k: nat :: time == last + k * interval)
      && (now > last && (!vrr || now < last + interval) ==>
            && now < time <= now + interval
            && (exists k: nat :: time == last + k * interval)
            && forall k: nat | now < last + k * interval :: time <= last + k * interval)
      && (now >= last + interval && vrr ==> time == now)
      && (now <= last && vrr ==> time == last + interval)
  {
    var d := Adjusted(now, last, interval) - last;
    SlotEndIsFirst(d, interval);
    assert SlotEnd(d, interval) == (d / interval + 1) * interval;
  }

  /** Nothing is predicted before anything was presented, or without a refresh rate. */
  lemma NothingToPredict(last: Option<nat>, interval: Option<Interval>, vrr: bool, now: nat)
    ensures last.None? || interval.None? ==> NextTime(last, interval, vrr, now) == now
  {
  }

  /** The sampled time is on the last presentation, or more than an interval before it. */
  predicate IsTwoAhead(now: nat, last: nat, interval: Interval) {
    now == last || now + interval < last
  }

  /** The sampled time is within one interval of the last presentation, but not on it. */
  predicate IsOneAhead(now: nat, last: nat, interval: Interval) {
    now != last && last <= now + interval && now < last + interval
  }

  lemma AheadSlots(now: nat, last: nat, interval: Interval)
    ensures var time := NextTime(Some(last), Some(interval), false, now);
      if IsTwoAhead(now, last, interval) then time == last + 2 * interval
      else if IsOneAhead(now, last, interval) then time == last + interval
      else now >= last + interval && time >= last + 2 * interval
  {
    SlotEndIsFirst(Adjusted(now, last, interval) - last, interval);
  }

  lemma LaterSlots(a: nat, b: nat, last: nat, interval: Interval)
    requires last + interval <= a <= b
    ensures NextTime(Some(last), Some(interval), false, a) <= NextTime(Some(last), Some(interval), false, b)
  {
    SlotEndIsFirst(a - last, interval);
    SlotEndIsFirst(b - last, interval);
    assert a - last < ((b - last) / interval + 1) * interval;
  }

  /**
    Sampling later gives a later target, except when the earlier sample skipped a slot (it fell on
    the last presentation or far before it) and the later one did not.
   */
  lemma MonotoneIff(a: nat, b: nat, last: nat, interval: Interval)
    requires a <= b
    ensures NextTime(Some(last), Some(interval), false, a) <= NextTime(Some(last), Some(interval), false, b)
      <==> !(IsTwoAhead(a, last, interval) && IsOneAhead(b, last, interval))
  {
    AheadSlots(a, last, interval);
    AheadSlots(b, last, interval);
    if a >= last + interval {
      LaterSlots(a, b, last, interval);
    }
  }

  /** With variable refresh there is no such exception. */
  lemma MonotoneUnderVrr(a: nat, b: nat, last: nat, interval: Interval)
    requires a <= b
    ensures NextTime(Some(last), Some(interval), true, a) <= NextTime(Some(last), Some(interval), true, b)
  {
    SlotEndIsFirst(Adjusted(a, last, interval) - last, interval);
    SlotEndIsFirst(Adjusted(b, last, interval) - last, interval);
  }

  /** The slot that is skipped: a sample on the last presentation and one a nanosecond after it. */
  lemma NotMonotone()
    ensures NextTime(Some(100), Some(10), false, 100) > NextTime(Some(100), Some(10), false, 101)
  {
  }
}
