/**
  Durations and the countdown timer the engine depends on (src/timing.rs).
*/
module Timing {

  /** A `u32`. */
  type U32 = x: int | 0 <= x < 0x1_0000_0000

  datatype Second = Second(value: U32)

  datatype Millisecond = Millisecond(value: U32)

  /** The largest number of seconds whose value in milliseconds still fits a `u32`. */
  const MAX_CONVERTIBLE_SECONDS: nat := 4294967

  /**
    `From<Second> for Millisecond`: multiplies by 1000 in `u32`. The product only fits
    for durations up to MAX_CONVERTIBLE_SECONDS, hence the precondition.
    The result is the unique whole number of milliseconds that is `s` seconds.
  */
  function ToMillisecond(s: Second): (m: Millisecond)
    requires s.value <= MAX_CONVERTIBLE_SECONDS
    ensures m.value % 1000 == 0 && m.value / 1000 == s.value
  {
    Millisecond(s.value * 1000)
  }

  /** The precondition of ToMillisecond is exact: one second more and the product leaves `u32`. */
  lemma ConversionOverflowsPastBound(s: Second)
    requires s.value > MAX_CONVERTIBLE_SECONDS
    ensures s.value * 1000 >= 0x1_0000_0000
  {
  }

  /** The conversion is strictly monotone, in both directions. */
  lemma ToMillisecondStrictlyMonotone(a: Second, b: Second)
    requires a.value <= MAX_CONVERTIBLE_SECONDS && b.value <= MAX_CONVERTIBLE_SECONDS
    ensures a.value < b.value <==> ToMillisecond(a).value < ToMillisecond(b).value
  {
  }

  /**
    A fake `LongTimer`. Each call of `Wait` stands for one millisecond of the fake clock:
    after `Start(d)` the first `d.value` polls report not-ready and every later poll reports ready.
    `starts` records every duration the timer was started with.
  */
  class CountdownTimer {
    var armed: bool
    var remaining: nat
    var starts: seq<Millisecond>

    constructor ()
      ensures !armed && remaining == 0 && starts == []
    {
      armed, remaining, starts := false, 0, [];
    }

    /** `LongTimer::start`. */
    method Start(duration: Millisecond)
      modifies this
      ensures armed && remaining == duration.value && starts == old(starts) + [duration]
    {
      armed := true;
      remaining := duration.value;
      starts := starts + [duration];
    }

    /**
      `LongTimer::wait`: ready exactly when the started duration has elapsed. Its behaviour
      before any `start` is undefined, hence the precondition.
    */
    method Wait() returns (ready: bool)
      requires armed
      modifies this
      ensures ready <==> old(remaining) == 0
      ensures remaining == if ready then 0 else old(remaining) - 1
      ensures armed && starts == old(starts)
    {
      ready := remaining == 0;
      if !ready {
        remaining := remaining - 1;
      }
    }
  }

  /**
    `nb::block!(timer.wait())`: polls until the timer reports ready. `polls` counts the calls
    of `Wait`: the started duration's not-ready answers, then the one ready answer.
  */
  method BlockOn(timer: CountdownTimer) returns (polls: nat)
    requires timer.armed
    modifies timer
    ensures timer.armed && timer.remaining == 0 && timer.starts == old(timer.starts)
    ensures polls == old(timer.remaining) + 1
  {
    polls := 0;
    var ready := false;
    while !ready
      invariant timer.armed && timer.starts == old(timer.starts)
      invariant ready ==> timer.remaining == 0 && polls == old(timer.remaining) + 1
      invariant !ready ==> polls + timer.remaining == old(timer.remaining)
      decreases timer.remaining, !ready
    {
      ready := timer.Wait();
      polls := polls + 1;
    }
  }
}
