/** The shooter-platformer's cooldown and frame-timing primitive (`Timer` in
    04-shooter-platformer/src/timer.h). A timer has a cycle length fixed when it is made,
    the time elapsed in the current cycle, and a sticky flag that records that a cycle has
    completed at least once. Stepping keeps the overshoot past the end of a cycle instead of
    discarding it. */
module Timers {

  /** The value a timer holds. */
  datatype TimerState = TimerState(duration: real, time: real, timeout: bool)

  /** `Timer(length)`: the elapsed time starts at zero. C++ leaves `timeout` uninitialised,
      so whatever the flag happens to hold is the caller's `unset`. */
  function NewTimer(length: real, unset: bool): TimerState {
    TimerState(length, 0.0, unset)
  }

  /** What one `step` produces: the timer afterwards and the value the call returns. */
  datatype Stepped = Stepped(timer: TimerState, fired: bool)

  /** `step(deltaTime)`: add `deltaTime` first; once the cycle is complete, take exactly one
      `duration` off (keeping the overshoot), set `timeout` and report it. */
  function Advance(t: TimerState, deltaTime: real): (r: Stepped)
    ensures r.timer.duration == t.duration
    ensures r.fired <==> t.time + deltaTime >= t.duration
    // no time is lost: what was added is either still there or went into one whole cycle
    ensures r.timer.time + (if r.fired then t.duration else 0.0) == t.time + deltaTime
    // the flag is sticky: it is set by a completed cycle and never cleared by a step
    ensures r.timer.timeout == (t.timeout || r.fired)
  {
    var time := t.time + deltaTime;
    if time >= t.duration then
      Stepped(TimerState(t.duration, time - t.duration, true), true)
    else
      Stepped(t.(time := time), false)
  }

  /** `reset()`. */
  function Cleared(t: TimerState): (r: TimerState)
    ensures r.duration == t.duration && r.time == 0.0 && !r.timeout
  {
    t.(time := 0.0, timeout := false)
  }

  /** Elapsed time lies within one cycle. */
  predicate InCycle(t: TimerState) {
    0.0 <= t.time < t.duration
  }

  /** A step no longer than one cycle keeps the elapsed time within the cycle. */
  lemma StepStaysInCycle(t: TimerState, deltaTime: real)
    requires InCycle(t) && 0.0 <= deltaTime <= t.duration
    ensures InCycle(Advance(t, deltaTime).timer)
  {
  }

  /** A step longer than a cycle with room to spare leaves the timer past its end, because
      only one `duration` is taken off. */
  lemma LongStepLeavesCycle(t: TimerState, deltaTime: real)
    requires 0.0 <= t.time && t.duration > 0.0 && deltaTime >= 2.0 * t.duration
    ensures Advance(t, deltaTime).fired
    ensures Advance(t, deltaTime).timer.time >= t.duration
  {
  }

  /** A concrete instance: a 1-second timer stepped by 2.5 seconds is at 1.5 seconds. */
  lemma OvershootExample()
    ensures Advance(TimerState(1.0, 0.0, false), 2.5) == Stepped(TimerState(1.0, 1.5, true), true)
  {
  }

  function Sum(deltas: seq<real>): real {
    if deltas == [] then 0.0 else Sum(deltas[..|deltas| - 1]) + deltas[|deltas| - 1]
  }

  /** The timer after a sequence of steps, with the number of steps that reported a
      completed cycle. */
  datatype Run = Run(timer: TimerState, timeouts: nat)

  function StepAll(t: TimerState, deltas: seq<real>): Run {
    if deltas == [] then Run(t, 0)
    else
      var before := StepAll(t, deltas[..|deltas| - 1]);
      var s := Advance(before.timer, deltas[|deltas| - 1]);
      Run(s.timer, before.timeouts + if s.fired then 1 else 0)
  }

  predicate StepsWithinCycle(duration: real, deltas: seq<real>) {
    forall i :: 0 <= i < |deltas| ==> 0.0 <= deltas[i] <= duration
  }

  /** `n` whole cycles of length `d`, added up one at a time. */
  function Cycles(n: nat, d: real): real {
    if n == 0 then 0.0 else Cycles(n - 1, d) + d
  }

  lemma {:induction false} CyclesIsProduct(n: nat, d: real)
    ensures Cycles(n, d) == n as real * d
  {
    if n > 0 {
      CyclesIsProduct(n - 1, d);
    }
  }

  /** Over any sequence of steps each no longer than a cycle, the timer stays within a
      cycle and every bit of added time is accounted for: what is left plus one `duration`
      per reported timeout is the starting time plus the total of the steps. */
  lemma {:induction false} StepAllAccounts(t: TimerState, deltas: seq<real>)
    requires InCycle(t) && StepsWithinCycle(t.duration, deltas)
    ensures StepAll(t, deltas).timer.duration == t.duration
    ensures InCycle(StepAll(t, deltas).timer)
    ensures StepAll(t, deltas).timer.time + Cycles(StepAll(t, deltas).timeouts, t.duration)
            == t.time + Sum(deltas)
  {
    if deltas != [] {
      var init := deltas[..|deltas| - 1];
      assert StepsWithinCycle(t.duration, init) by {
        forall i | 0 <= i < |init| ensures 0.0 <= init[i] <= t.duration {
          assert init[i] == deltas[i];
        }
      }
      StepAllAccounts(t, init);
      StepStaysInCycle(StepAll(t, init).timer, deltas[|deltas| - 1]);
    }
  }

  /** From a fresh timer, the number of timeouts reported is the number of whole cycles in
      the total time stepped. */
  lemma {:induction false} TimeoutsCountWholeCycles(t: TimerState, deltas: seq<real>)
    requires t.time == 0.0 && t.duration > 0.0 && StepsWithinCycle(t.duration, deltas)
    ensures StepAll(t, deltas).timeouts == (Sum(deltas) / t.duration).Floor
  {
    var r := StepAll(t, deltas);
    StepAllAccounts(t, deltas);
    assert InCycle(t);
    CyclesIsProduct(r.timeouts, t.duration);
    FloorOfQuotient(Sum(deltas), t.duration, r.timeouts, r.timer.time);
  }

  /** If `total` is `n` whole cycles of length `d` and a remainder shorter than a cycle,
      then `n` is the floor of `total / d`. */
  lemma {:induction false} FloorOfQuotient(total: real, d: real, n: nat, rest: real)
    requires d > 0.0 && 0.0 <= rest < d && rest + n as real * d == total
    ensures (total / d).Floor == n
  {
    var q := rest / d;
    assert q * d == rest;
    if q >= 1.0 {
      assert false;
    }
    assert total / d == n as real + q;
  }

  /** The imperative timer of timer.h. `duration` is a constant: no method can change it. */
  class Timer {
    const duration: real
    var time: real
    var timeout: bool

    /** The timer's current value. */
    function Value(): TimerState
      reads this
    {
      TimerState(duration, time, timeout)
    }

    constructor (length: real)
      ensures duration == length && time == 0.0
    {
      duration := length;
      time := 0.0;
      timeout := *;
    }

    method Step(deltaTime: real) returns (fired: bool)
      modifies this
      ensures Stepped(Value(), fired) == Advance(old(Value()), deltaTime)
    {
      time := time + deltaTime;
      if time >= duration {
        timeout := true;
        time := time - duration;
        return true;
      }
      return false;
    }

    /** `isTimeout()`: whether a step has ever completed a cycle since the last reset. */
    function IsTimeout(): (timedOut: bool)
      reads this
      ensures timedOut == Value().timeout
    {
      timeout
    }

    /** `getTime()`: the time elapsed in the current cycle. */
    function GetTime(): (t: real)
      reads this
      ensures t == Value().time
    {
      time
    }

    /** `getDuration()`: the cycle length, the same for the timer's whole life. */
    function GetDuration(): (d: real)
      reads this
      ensures d == Value().duration
    {
      duration
    }

    method Reset()
      modifies this
      ensures Value() == Cleared(old(Value()))
      ensures GetTime() == 0.0 && !IsTimeout()
    {
      time := 0.0;
      timeout := false;
    }
  }
}
