/** Polling with exponential backoff (`frontend/src/hooks/usePolling.ts`). The refs are
    fields; `armed` stands for the timers the environment still has to fire. */
module Polling {
  import opened Text

  function Min(a: real, b: real): real {
    if a < b then a else b
  }

  function Power(b: real, k: nat): real {
    if k == 0 then 1.0 else b * Power(b, k - 1)
  }

  /** The interval after `k` failures in a row: the base, multiplied up to the ceiling. */
  function Backoff(interval: real, multiplier: real, ceiling: real, k: nat): real {
    if k == 0 then interval else Min(interval * Power(multiplier, k), ceiling)
  }

  lemma Scaled(a: real, b: real, m: real)
    requires a <= b && 0.0 <= m
    ensures a * m <= b * m
  {
  }

  lemma {:induction false} PowerAtLeastOne(m: real, k: nat)
    requires m >= 1.0
    ensures Power(m, k) >= 1.0
  {
    if k > 0 {
      PowerAtLeastOne(m, k - 1);
      Scaled(1.0, Power(m, k - 1), m);
    }
  }

  function NextInterval(current: real, multiplier: real, ceiling: real): real {
    Min(current * multiplier, ceiling)
  }

  /** One more failure: multiplying the capped interval and capping again is the next step. */
  lemma BackoffStep(current: real, interval: real, multiplier: real, ceiling: real, k: nat)
    requires interval >= 0.0 && ceiling >= 0.0 && multiplier >= 1.0
    requires current == Backoff(interval, multiplier, ceiling, k)
    ensures NextInterval(current, multiplier, ceiling) == Backoff(interval, multiplier, ceiling, k + 1)
  {
    var raw := interval * Power(multiplier, k);
    Associate(interval, Power(multiplier, k), multiplier);
    if k > 0 && ceiling <= raw {
      Scaled(1.0, multiplier, ceiling);
      Scaled(ceiling, raw, multiplier);
    }
  }

  lemma Associate(a: real, b: real, c: real)
    ensures a * b * c == a * (c * b)
  {
  }

  lemma BackoffStart(interval: real, multiplier: real, ceiling: real)
    ensures Backoff(interval, multiplier, ceiling, 0) == interval
  {
  }

  lemma BackoffLengthens(interval: real, multiplier: real, ceiling: real, k: nat)
    requires 0.0 <= interval <= ceiling && multiplier >= 1.0
    ensures Backoff(interval, multiplier, ceiling, k) <= Backoff(interval, multiplier, ceiling, k + 1) <= ceiling
  {
    var now := Backoff(interval, multiplier, ceiling, k);
    BackoffStep(now, interval, multiplier, ceiling, k);
    PowerAtLeastOne(multiplier, k);
    Scaled(1.0, Power(multiplier, k), interval);
    Scaled(1.0, multiplier, now);
  }

  /** Backing off never shortens the wait if and only if the base interval does not exceed
      the ceiling: the first failure caps it, the base itself is not capped. */
  lemma BackoffMonotoneIff(interval: real, multiplier: real, ceiling: real)
    requires interval >= 0.0 && ceiling >= 0.0 && multiplier >= 1.0
    ensures (forall k: nat ::
               Backoff(interval, multiplier, ceiling, k) <= Backoff(interval, multiplier, ceiling, k + 1))
       <==> interval <= ceiling
  {
    if interval <= ceiling {
      forall k: nat
        ensures Backoff(interval, multiplier, ceiling, k) <= Backoff(interval, multiplier, ceiling, k + 1)
      {
        BackoffLengthens(interval, multiplier, ceiling, k);
      }
    } else {
      assert Backoff(interval, multiplier, ceiling, 0 + 1) <= ceiling < Backoff(interval, multiplier, ceiling, 0);
    }
  }

  class PollingHook {
    const interval: real
    const maxInterval: real
    const backoffMultiplier: real

    var currentInterval: real
    var timeout: Option<nat>
    var mounted: bool
    var nextTimer: nat
    /** How long the timer set last waits. */
    var delay: real
    /** The timers that have been set and neither fired nor cleared. */
    ghost var armed: set<nat>
    /** Failures of timed polls since the last success or trigger, and whether a trigger
        has been used at all. */
    ghost var failures: nat
    ghost var triggered: bool

    /** Parameters under which a failure can only lengthen the wait. */
    predicate Sensible() {
      interval >= 0.0 && maxInterval >= 0.0 && backoffMultiplier >= 1.0
    }

    /** One of the intervals that backing off leads through. */
    ghost predicate OnSchedule(x: real) {
      exists k: nat :: x == Backoff(interval, backoffMultiplier, maxInterval, k)
    }

    ghost predicate Valid()
      reads this
    {
      && (forall t | t in armed :: timeout == Some(t))
      && (timeout.Some? ==> timeout.value < nextTimer)
      && (Sensible() ==> OnSchedule(currentInterval))
      && (Sensible() && !triggered ==> currentInterval == Backoff(interval, backoffMultiplier, maxInterval, failures))
    }

    constructor (interval: real, maxInterval: real, backoffMultiplier: real)
      ensures Valid() && armed == {} && currentInterval == interval && !triggered && failures == 0
    {
      this.interval, this.maxInterval, this.backoffMultiplier := interval, maxInterval, backoffMultiplier;
      currentInterval, timeout, mounted, nextTimer, delay := interval, None, true, 0, interval;
      armed, failures, triggered := {}, 0, false;
      new;
      assert currentInterval == Backoff(interval, backoffMultiplier, maxInterval, 0);
    }

    /** No interleaving of the methods below leaves two timers to fire. */
    lemma AtMostOneArmed()
      requires Valid()
      ensures |armed| <= 1
    {
      if t :| t in armed {
        assert armed == {t};
      }
    }

    method ClearTimer()
      requires Valid()
      modifies this`timeout, this`armed
      ensures Valid() && timeout.None? && armed == {}
    {
      if timeout.Some? {
        armed := armed - {timeout.value};
        timeout := None;
      }
    }

    method ScheduleNext()
      requires Valid()
      modifies this`timeout, this`armed, this`nextTimer, this`delay
      ensures Valid() && timeout.Some? && armed == {timeout.value} && delay == currentInterval
    {
      ClearTimer();
      timeout, delay := Some(nextTimer), currentInterval;
      armed := armed + {nextTimer};
      nextTimer := nextTimer + 1;
    }

    /** An armed timer fires; the callback is now in flight. */
    ghost method Fire(t: nat)
      requires Valid() && t in armed
      modifies this`armed
      ensures Valid() && armed == {}
    {
      armed := armed - {t};
    }

    /** A callback started by a timer settles, whatever happened meanwhile. */
    method TimedPollSettles(ok: bool)
      requires Valid()
      modifies this
      ensures Valid() && mounted == old(mounted) && triggered == old(triggered)
      ensures currentInterval
           == if ok then interval
              else if old(currentInterval) * backoffMultiplier < maxInterval
              then old(currentInterval) * backoffMultiplier else maxInterval
      ensures failures == if ok then 0 else old(failures) + 1
      ensures if mounted then timeout.Some? && armed == {timeout.value} && delay == currentInterval
              else armed == old(armed)
    {
      BackoffStart(interval, backoffMultiplier, maxInterval);
      hide Backoff, Power;
      if ok {
        currentInterval := interval;
        failures := 0;
      } else {
        if Sensible() {
          ghost var k: nat :| currentInterval == Backoff(interval, backoffMultiplier, maxInterval, k);
          BackoffStep(currentInterval, interval, backoffMultiplier, maxInterval, k);
          if !triggered {
            BackoffStep(currentInterval, interval, backoffMultiplier, maxInterval, failures);
          }
          assert OnSchedule(NextInterval(currentInterval, backoffMultiplier, maxInterval));
        }
        currentInterval := NextInterval(currentInterval, backoffMultiplier, maxInterval);
        failures := failures + 1;
      }
      if mounted {
        ScheduleNext();
      }
    }

    /** `trigger` up to the point where its callback is in flight. If the callback throws
        at once, this is all that happens: no timer is left. */
    method Trigger()
      requires Valid()
      modifies this
      ensures Valid() && mounted == old(mounted) && triggered
      ensures currentInterval == interval && timeout.None? && armed == {}
    {
      currentInterval := interval;
      triggered := true;
      assert currentInterval == Backoff(interval, backoffMultiplier, maxInterval, 0);
      ClearTimer();
    }

    method TriggeredPollSettles(ok: bool)
      requires Valid() && triggered
      modifies this
      ensures Valid() && mounted == old(mounted) && triggered
      ensures currentInterval
           == if ok then interval
              else if interval * backoffMultiplier < maxInterval then interval * backoffMultiplier else maxInterval
      ensures if mounted then timeout.Some? && armed == {timeout.value} && delay == currentInterval
              else armed == old(armed)
    {
      if Sensible() {
        BackoffStep(interval, interval, backoffMultiplier, maxInterval, 0);
      }
      currentInterval := if ok then interval else NextInterval(interval, backoffMultiplier, maxInterval);
      assert Sensible() ==> currentInterval == Backoff(interval, backoffMultiplier, maxInterval, if ok then 0 else 1);
      if mounted {
        ScheduleNext();
      }
    }

    method EffectSetup(enabled: bool)
      requires Valid()
      modifies this`timeout, this`armed, this`nextTimer, this`delay, this`mounted
      ensures Valid() && mounted
      ensures if enabled then timeout.Some? && armed == {timeout.value} && delay == currentInterval
              else armed == old(armed)
    {
      mounted := true;
      if enabled {
        ScheduleNext();
      }
    }

    method EffectCleanup()
      requires Valid()
      modifies this`timeout, this`armed, this`mounted
      ensures Valid() && !mounted && armed == {}
    {
      mounted := false;
      ClearTimer();
    }
  }
}
