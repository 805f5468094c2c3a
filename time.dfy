/** The one-shot and repeating countdown timer of the time module. Durations
    are whole nanoseconds, as `std::time::Duration` stores them. */
module Time {

  /** `Duration::from_millis`. */
  function FromMillis(ms: nat): (d: nat)
    ensures d == ms * 1_000_000
  {
    ms * 1_000_000
  }

  /** `Duration::saturating_sub`. */
  function SaturatingSub(a: nat, b: nat): (r: nat)
    ensures r == 0 <==> a <= b
    ensures b < a ==> r + b == a
  {
    if a <= b then 0 else a - b
  }

  class Timer {
    var duration: nat
    var elapsed: nat
    var repeating: bool
    var finished: bool

    /** A repeating timer is never finished. */
    ghost predicate Valid()
      reads this
    {
      repeating ==> !finished
    }

    /** `Timer::new`: a one-shot timer. */
    constructor New(d: nat)
      ensures Valid()
      ensures duration == d && elapsed == 0 && !repeating && !finished
    {
      duration, elapsed, repeating, finished := d, 0, false, false;
    }

    /** `Timer::repeating`. */
    constructor Repeating(d: nat)
      ensures Valid()
      ensures duration == d && elapsed == 0 && repeating && !finished
    {
      duration, elapsed, repeating, finished := d, 0, true, false;
    }

    /** `tick`: a finished one-shot timer ignores the tick; otherwise the delta
        is added and the timer fires when it reaches its duration, a one-shot
        timer then finishing and a repeating one subtracting the duration once. */
    method Tick(delta: nat) returns (fired: bool)
      requires Valid()
      modifies this
      ensures Valid()
      ensures duration == old(duration) && repeating == old(repeating)
      ensures old(finished) && !repeating ==> !fired && elapsed == old(elapsed) && finished
      ensures !(old(finished) && !repeating) ==> (fired <==> old(elapsed) + delta >= duration)
      ensures !(old(finished) && !repeating) && !fired ==> elapsed == old(elapsed) + delta && finished == old(finished)
      ensures fired && repeating ==> elapsed == old(elapsed) + delta - duration && !finished
      ensures fired && !repeating ==> elapsed == old(elapsed) + delta && finished
    {
      if finished && !repeating {
        return false;
      }
      elapsed := elapsed + delta;
      if elapsed >= duration {
        if repeating {
          elapsed := elapsed - duration;
        } else {
          finished := true;
        }
        fired := true;
      } else {
        fired := false;
      }
    }

    /** `is_finished`. */
    function IsFinished(): (b: bool)
      reads this
      ensures Valid() && repeating ==> !b
    {
      finished
    }

    /** `reset`. */
    method Reset()
      modifies this
      ensures duration == old(duration) && repeating == old(repeating)
      ensures elapsed == 0 && !finished && Valid()
    {
      elapsed := 0;
      finished := false;
    }

    /** `remaining`: what is left of the duration, never below zero. */
    function Remaining(): (r: nat)
      reads this
      ensures r == 0 <==> elapsed >= duration
      ensures elapsed < duration ==> r + elapsed == duration
    {
      SaturatingSub(duration, elapsed)
    }
  }

  /** A one-shot timer finishes exactly when the total of its ticks reaches its
      duration, and stays finished; every tick before that reports false, the
      one that reaches it true. */
  method OneShotScenario()
  {
    var t := new Timer.New(FromMillis(100));
    var f1 := t.Tick(FromMillis(50));
    assert !f1 && !t.IsFinished();
    assert t.Remaining() == FromMillis(50);
    var f2 := t.Tick(FromMillis(60));
    assert f2 && t.IsFinished();
    var f3 := t.Tick(FromMillis(500));
    assert !f3 && t.IsFinished();
    t.Reset();
    assert !t.IsFinished() && t.Remaining() == FromMillis(100);
  }

  /** A repeating timer rolls over instead of finishing. */
  method RepeatingScenario()
  {
    var t := new Timer.Repeating(FromMillis(100));
    var f := t.Tick(FromMillis(150));
    assert f && !t.IsFinished();
    assert t.Remaining() == FromMillis(50) < FromMillis(60);
    var big := t.Tick(FromMillis(300));
    assert big && t.elapsed == FromMillis(250);
  }
}
