/** The float tween (Solution/FloatTween.cpp): it moves a float from a start
    value to a target value over a duration, writing through a pointer on every
    active update. There is no delay and no setter. */
module FloatTweens {
  import opened Vectors
  import opened Outcomes
  import opened Tweens

  /** The float the tween writes through. */
  class FloatCell {
    var value: real

    constructor (value: real)
      ensures this.value == value
    {
      this.value := value;
    }
  }

  /** The value an update writes when the clock stands at `progressed`: the
      start value plus the share progressed / duration of the distance to the
      target, where a zero-length tween counts as complete. While the clock is
      within [0, duration] the value stays between start and target, and it is
      the target once the clock reaches the duration, whatever the duration. */
  function WrittenValue(startValue: real, targetValue: real, progressed: real, duration: real): (v: real)
    ensures 0.0 <= progressed <= duration ==> Min(startValue, targetValue) <= v <= Max(startValue, targetValue)
    ensures progressed == duration ==> v == targetValue
  {
    var r := Ratio(progressed, duration);
    RatioAtEnd(duration);
    LerpBetween(startValue, targetValue, 0.0, 0.0);
    if 0.0 <= progressed <= duration then
      RatioInRange(progressed, duration);
      LerpBetween(startValue, targetValue, r, r);
      Lerp(startValue, targetValue, r)
    else
      Lerp(startValue, targetValue, r)
  }

  class FloatTween {
    /** The Tween part of the object: state, progressed seconds, deleteOnEnd and id. */
    const base: Tween
    const valueToTween: FloatCell?
    const startValue: real
    const targetValue: real
    const duration: real

    /** The cell the tween writes, if any. */
    function Targets(): set<FloatCell>
    {
      if valueToTween == null then {} else {valueToTween}
    }

    /** An inactive tween that writes through `valueToTween`. */
    constructor (valueToTween: FloatCell?, startValue: real, targetValue: real, tweenDuration: real, deleteOnEnd: bool)
      ensures fresh(base) && base.state == InActive && base.progressedSeconds == 0.0
      ensures base.deleteOnEnd == deleteOnEnd && base.id == 0
      ensures this.valueToTween == valueToTween
      ensures this.startValue == startValue && this.targetValue == targetValue && duration == tweenDuration
    {
      base := new Tween(deleteOnEnd);
      this.valueToTween := valueToTween;
      this.startValue := startValue;
      this.targetValue := targetValue;
      duration := tweenDuration;
    }

    /** Whether the tween has somewhere to write. */
    predicate HasSink()
    {
      valueToTween != null
    }

    /** An inactive tween is left alone. An active tween with a null pointer is
        stopped and throws. Otherwise the clock advances by deltaTime, cut short
        at the duration, where the tween stops, and the interpolated value is
        written. */
    method Update(deltaTime: real) returns (r: Outcome)
      modifies base`state, base`progressedSeconds, Targets()`value
      ensures old(base.state) == InActive ==>
        && r == Done && base.state == InActive && base.progressedSeconds == old(base.progressedSeconds)
        && unchanged(Targets())
      ensures old(base.state) == Active && !HasSink() ==>
        && r == Thrown(NullTweenTarget) && base.state == InActive
        && base.progressedSeconds == old(base.progressedSeconds)
      ensures old(base.state) == Active && HasSink() ==>
        var t := Advance(old(base.progressedSeconds), deltaTime, duration);
        && r == Done
        && base.progressedSeconds == t.progressed
        && (base.state == InActive <==> t.ended)
        && valueToTween.value == WrittenValue(startValue, targetValue, t.progressed, duration)
    {
      if base.state == InActive {
        return Done;
      }
      if valueToTween == null {
        base.Stop();
        return Thrown(NullTweenTarget);
      }
      var differenceSinceLastUpdate := deltaTime;
      if base.progressedSeconds + deltaTime >= duration {
        base.Stop();
        differenceSinceLastUpdate := duration - base.progressedSeconds;
      }
      base.progressedSeconds := base.progressedSeconds + differenceSinceLastUpdate;
      valueToTween.value := startValue + (targetValue - startValue) * Ratio(base.progressedSeconds, duration);
      r := Done;
    }

    /** Writes the start value, resets the clock and activates the tween. */
    method Start()
      requires HasSink()
      modifies base`state, base`progressedSeconds, Targets()`value
      ensures base.state == Active && base.progressedSeconds == 0.0
      ensures valueToTween.value == startValue
    {
      valueToTween.value := startValue;
      base.progressedSeconds := 0.0;
      base.state := Active;
    }
  }
}
