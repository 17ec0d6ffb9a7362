/** The shooter-platformer's sprite-strip animation (`Animation` in
    04-shooter-platformer/src/animation.h): a number of frames played over one timer cycle.
    The frame shown is the fraction of the cycle elapsed, scaled by the number of frames and
    truncated. */
module Animations {
  import opened Timers
  import opened CMath

  /** The value an animation holds: its own timer and its frame count. */
  datatype AnimationState = AnimationState(timer: TimerState, frameCount: int)

  /** `Animation()`: no frames and a zero-length timer. `unset` is whatever the copied
      timer's uninitialised `timeout` holds. */
  function EmptyAnimation(unset: bool): AnimationState {
    AnimationState(NewTimer(0.0, unset), 0)
  }

  /** `Animation(frameCount, duration)`. */
  function NewAnimation(frameCount: int, duration: real, unset: bool): AnimationState {
    AnimationState(NewTimer(duration, unset), frameCount)
  }

  /** `getLength()`: the length of one cycle, which is the cycle length of the
      animation's timer. */
  function Length(a: AnimationState): (l: real)
    ensures l == a.timer.duration
  {
    a.timer.duration
  }

  /** Where frame `k` starts within the cycle: each of the `frameCount` frames gets an
      equal share of the cycle. */
  function SliceStart(duration: real, frameCount: int, k: int): real
    requires frameCount > 0
  {
    k as real * duration / frameCount as real
  }

  /** `currentFrame()`. The division needs a non-zero cycle length. While the timer is
      within its cycle, the result is a valid frame index, and it is the frame whose slice
      of the cycle contains the elapsed time. */
  function FrameOf(a: AnimationState): (f: int)
    requires a.timer.duration != 0.0
    ensures InCycle(a.timer) && a.frameCount > 0 ==> 0 <= f < a.frameCount
    ensures InCycle(a.timer) && a.frameCount > 0 ==>
      SliceStart(a.timer.duration, a.frameCount, f) <= a.timer.time
      < SliceStart(a.timer.duration, a.frameCount, f + 1)
  {
    var x := a.timer.time / a.timer.duration * a.frameCount as real;
    var f := Trunc(x);
    if InCycle(a.timer) && a.frameCount > 0 then
      FrameSlice(a.timer.time, a.timer.duration, a.frameCount, x, f);
      f
    else
      f
  }

  /** The arithmetic behind the two facts about `FrameOf`. */
  lemma {:induction false} FrameSlice(time: real, duration: real, n: int, x: real, f: int)
    requires 0.0 <= time < duration && n > 0
    requires x == time / duration * n as real
    requires f as real <= x < f as real + 1.0 && 0 <= f
    ensures 0 <= f < n
    ensures SliceStart(duration, n, f) <= time < SliceStart(duration, n, f + 1)
  {
    var y := time / duration;
    BelowOne(time, duration);
    assert y * duration == time;
    if f >= n {
      Scale(y, 1.0, n as real);
      assert false;
    }
    Between(time, duration, n as real, x, f as real, (f + 1) as real);
  }

  lemma BelowOne(a: real, d: real)
    requires 0.0 <= a < d
    ensures 0.0 <= a / d < 1.0
  {
    var q := a / d;
    assert q * d == a;
    if q >= 1.0 {
      assert false;
    }
  }

  lemma Between(time: real, d: real, n: real, x: real, lo: real, hi: real)
    requires d > 0.0 && n > 0.0 && x == time / d * n && lo <= x < hi
    ensures lo * d / n <= time < hi * d / n
  {
    var y := time / d;
    assert y * d == time;
    assert x == y * n;
    Scale(lo, x, d / n);
    Scale(x, hi, d / n);
    assert x * (d / n) == time;
  }

  /** Multiplying by a positive factor keeps a strict or non-strict order. */
  lemma Scale(a: real, b: real, c: real)
    requires c > 0.0 && a <= b
    ensures a * c <= b * c
    ensures a < b ==> a * c < b * c
  {
    assert (b - a) * c >= 0.0;
    if a < b {
      assert (b - a) * c > 0.0;
    }
  }

  /** `step(deltaTime)`: only the timer moves. */
  function StepAnimation(a: AnimationState, deltaTime: real): (r: AnimationState)
    ensures r.frameCount == a.frameCount && Length(r) == Length(a)
  {
    a.(timer := Advance(a.timer, deltaTime).timer)
  }

  /** A fresh animation of positive length stepped by exactly one cycle is back at its
      first frame. */
  lemma WrapReturnsToFirstFrame(a: AnimationState, unset: bool)
    requires a.timer.time == 0.0 && a.timer.duration > 0.0
    ensures StepAnimation(a, a.timer.duration).timer.time == 0.0
    ensures FrameOf(StepAnimation(a, a.timer.duration)) == 0
  {
  }

  /** A step longer than a cycle leaves the timer past its end, where `currentFrame()` is
      no longer a valid index: a 4-frame, 1-second animation stepped by 2.5 seconds from
      the start reports frame 6. */
  lemma OvershootFrameOutOfRange()
    ensures FrameOf(StepAnimation(NewAnimation(4, 1.0, false), 2.5)) == 6
  {
    var a := StepAnimation(NewAnimation(4, 1.0, false), 2.5);
    assert a.timer.time == 1.5;
    assert a.timer.time / a.timer.duration * 4.0 == 6.0;
  }

  /** The animation record holds a timer object of its own, which `Step` advances. */
  class Animation {
    const timer: Timer
    const frameCount: int

    function Value(): AnimationState
      reads timer
    {
      AnimationState(timer.Value(), frameCount)
    }

    /** `Animation()`. Its zero cycle length rules out `CurrentFrame`. */
    constructor Empty()
      ensures fresh(timer) && Value() == EmptyAnimation(timer.timeout)
    {
      timer := new Timer(0.0);
      frameCount := 0;
    }

    constructor (frameCount: int, duration: real)
      ensures fresh(timer) && Value() == NewAnimation(frameCount, duration, timer.timeout)
    {
      timer := new Timer(duration);
      this.frameCount := frameCount;
    }

    function GetLength(): (l: real)
      reads timer
      ensures l == Length(Value())
    {
      timer.GetDuration()
    }

    function CurrentFrame(): (f: int)
      reads timer
      requires timer.duration != 0.0
      ensures f == FrameOf(Value())
      ensures InCycle(timer.Value()) && frameCount > 0 ==> 0 <= f < frameCount
    {
      Trunc(timer.GetTime() / timer.GetDuration() * frameCount as real)
    }

    method Step(deltaTime: real)
      modifies timer
      ensures Value() == StepAnimation(old(Value()), deltaTime)
    {
      var _ := timer.Step(deltaTime);
    }
  }
}
