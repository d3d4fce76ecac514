/** The tween base class (Solution/Tween.cpp) and the arithmetic its four
    subclasses share: the clock that advances a tween and stops it at its end,
    linear interpolation, and the truncating conversion to int. */
module Tweens {
  import opened Vectors
  import opened Outcomes

  /** Tween::State. */
  datatype State = Active | InActive

  /** The part of a tween every subclass shares. A subclass object holds its
      Tween in a `base` field. */
  class Tween {
    var state: State
    var progressedSeconds: real
    var deleteOnEnd: bool
    /** The id the tween manager assigned (0 until it does). */
    var id: nat

    constructor (deleteOnEnd: bool)
      ensures state == InActive && progressedSeconds == 0.0 && id == 0 && this.deleteOnEnd == deleteOnEnd
    {
      state := InActive;
      progressedSeconds := 0.0;
      this.deleteOnEnd := deleteOnEnd;
      id := 0;
    }

    function GetState(): State
      reads this
    {
      state
    }

    method Resume()
      modifies this`state
      ensures GetState() == Active
    {
      state := Active;
    }

    method Stop()
      modifies this`state
      ensures GetState() == InActive
    {
      state := InActive;
    }
  }

  /** The clock after one update: the seconds progressed and whether the end was reached. */
  datatype Tick = Tick(progressed: real, ended: bool)

  /** One update of a tween clock that runs until `end`: the step is cut short
      so that the clock lands exactly on the end, and the tween then stops. */
  function Advance(progressed: real, deltaTime: real, end: real): (t: Tick)
    ensures t.ended <==> progressed + deltaTime >= end
    ensures t.progressed <= end
    ensures t.ended ==> t.progressed == end
    ensures !t.ended ==> t.progressed == progressed + deltaTime
    ensures 0.0 <= deltaTime && progressed <= end ==> progressed <= t.progressed
  {
    if progressed + deltaTime >= end then Tick(end, true) else Tick(progressed + deltaTime, false)
  }

  /** The clock after a run of updates, stopping at the first that ends the tween. */
  function Run(progressed: real, deltas: seq<real>, end: real): (t: Tick)
    decreases |deltas|
  {
    if deltas == [] then Tick(progressed, false)
    else
      var t := Advance(progressed, deltas[0], end);
      if t.ended then t else Run(t.progressed, deltas[1..], end)
  }

  function Sum(deltas: seq<real>): real
  {
    if deltas == [] then 0.0 else deltas[0] + Sum(deltas[1..])
  }

  /** A running tween fed non-negative steps never passes its end, and it has
      ended exactly when the steps add up to the time that was left. */
  lemma {:induction false} RunEndsOnTime(progressed: real, deltas: seq<real>, end: real)
    requires progressed < end
    requires forall i | 0 <= i < |deltas| :: 0.0 <= deltas[i]
    ensures progressed <= Run(progressed, deltas, end).progressed <= end
    ensures Run(progressed, deltas, end).ended <==> progressed + Sum(deltas) >= end
    ensures Run(progressed, deltas, end).ended ==> Run(progressed, deltas, end).progressed == end
    decreases |deltas|
  {
    if deltas != [] {
      var t := Advance(progressed, deltas[0], end);
      assert Sum(deltas) == deltas[0] + Sum(deltas[1..]);
      if t.ended {
        SumNonNegative(deltas[1..]);
      } else {
        RunEndsOnTime(t.progressed, deltas[1..], end);
      }
    }
  }

  lemma {:induction false} SumNonNegative(deltas: seq<real>)
    requires forall i | 0 <= i < |deltas| :: 0.0 <= deltas[i]
    ensures 0.0 <= Sum(deltas)
  {
    if deltas != [] {
      SumNonNegative(deltas[1..]);
    }
  }

  /** start + (target - start) * fraction. */
  function Lerp(start: real, target: real, fraction: real): real
  {
    start + (target - start) * fraction
  }

  /** The product of a difference and a fraction in [0, 1] lies between 0 and the difference. */
  lemma ScaledBetween(d: real, f: real, p: real)
    requires 0.0 <= f <= 1.0 && p == d * f
    ensures Min(0.0, d) <= p <= Max(0.0, d)
  {
    if d >= 0.0 {
      assert d * f <= d * 1.0;
    } else {
      assert d * 1.0 <= d * f;
    }
  }

  /** With a fraction in [0, 1] the interpolated value lies between start and
      target, it is the start at 0 and the target at 1, and a larger fraction is
      never further from the target. */
  lemma LerpBetween(start: real, target: real, f: real, g: real)
    requires 0.0 <= f <= g <= 1.0
    ensures Min(start, target) <= Lerp(start, target, f) <= Max(start, target)
    ensures Lerp(start, target, 0.0) == start && Lerp(start, target, 1.0) == target
    ensures start <= target ==> Lerp(start, target, f) <= Lerp(start, target, g)
    ensures target <= start ==> Lerp(start, target, g) <= Lerp(start, target, f)
  {
    var d := target - start;
    ScaledBetween(d, f, d * f);
    ScaledBetween(d, g - f, d * (g - f));
    assert d * g == d * f + d * (g - f);
  }

  /** The C++ conversion of a floating value to int, which truncates toward zero. */
  function Trunc(x: real): (n: int)
    ensures 0.0 <= x ==> 0 <= n && n as real <= x < n as real + 1.0
    ensures x < 0.0 ==> n <= 0 && n as real - 1.0 < x <= n as real
  {
    if x >= 0.0 then x.Floor else -((-x).Floor)
  }

  /** start + (int)((target - start) * fraction), on unbounded ints. */
  function IntLerp(start: int, target: int, fraction: real): int
  {
    start + Trunc((target - start) as real * fraction)
  }

  /** The int interpolation never leaves [start, target], and reaches the target at fraction 1. */
  lemma IntLerpBetween(start: int, target: int, f: real)
    requires 0.0 <= f <= 1.0
    ensures start <= target ==> start <= IntLerp(start, target, f) <= target
    ensures target <= start ==> target <= IntLerp(start, target, f) <= start
    ensures IntLerp(start, target, 1.0) == target
  {
    var d := (target - start) as real;
    ScaledBetween(d, f, d * f);
    assert Trunc(d * 1.0) == target - start;
  }

  /** Componentwise interpolation of 2D and 3D vectors (glm's a + (b - a) * f). */
  function Lerp2(start: Vec2, target: Vec2, fraction: real): Vec2
  {
    Vec2(Lerp(start.x, target.x, fraction), Lerp(start.y, target.y, fraction))
  }

  function Lerp3(start: Vec3, target: Vec3, fraction: real): Vec3
  {
    Vec3(Lerp(start.x, target.x, fraction), Lerp(start.y, target.y, fraction), Lerp(start.z, target.z, fraction))
  }

  /** The share of a delayed tween that has run: (progressed - delay) / duration.
      The int and vec2 tweens only compute it once the delay has passed, and the
      clock never passes duration + delay, so the duration is positive there. */
  function DelayedFraction(progressed: real, delay: real, duration: real): (f: real)
    requires delay < progressed <= duration + delay
    ensures 0.0 < f <= 1.0
    ensures f == 1.0 <==> progressed == duration + delay
  {
    (progressed - delay) / duration
  }

  /** progressed / duration as the float and vec3 tweens compute it in double
      precision: a zero duration gives 0 / 0, which is NaN and has no real value. */
  function RatioAsWritten(progressed: real, duration: real): (r: Option<real>)
    ensures r.None? <==> duration == 0.0
  {
    if duration == 0.0 then None else Some(progressed / duration)
  }

  /** A zero-duration float or vec3 tween, once started, ends on its first update
      with the clock at 0 and writes 0 / 0: the value it leaves is not the target. */
  lemma ZeroDurationWritesNaN(deltaTime: real)
    requires 0.0 <= deltaTime
    ensures Advance(0.0, deltaTime, 0.0) == Tick(0.0, true)
    ensures RatioAsWritten(Advance(0.0, deltaTime, 0.0).progressed, 0.0).None?
  {
  }

  /** progressed / duration, where a zero-length tween counts as complete. */
  function Ratio(progressed: real, duration: real): (r: real)
    ensures duration != 0.0 ==> RatioAsWritten(progressed, duration) == Some(r)
  {
    if duration == 0.0 then 1.0 else progressed / duration
  }

  /** Once the clock reaches the duration the share is 1, whatever the duration. */
  lemma RatioAtEnd(duration: real)
    ensures Ratio(duration, duration) == 1.0
  {
    if duration != 0.0 {
      assert duration / duration == 1.0;
    }
  }

  /** While a non-negative-duration float or vec3 tween runs from its start, the ratio stays in [0, 1]. */
  lemma RatioInRange(progressed: real, duration: real)
    requires 0.0 <= progressed <= duration
    ensures 0.0 <= Ratio(progressed, duration) <= 1.0
  {
    if duration != 0.0 {
      var r := progressed / duration;
      assert r * duration == progressed;
      assert (1.0 - r) * duration == duration - progressed;
    }
  }
}
