/** The vec3 tween (Solution/Vec3Tween.cpp): it moves a 3D vector from a start
    value to a target value over a duration, writing its three components
    through a pointer on every active update. There is no delay and no setter. */
module Vec3Tweens {
  import opened Vectors
  import opened Outcomes
  import opened Tweens

  /** The vec3 the tween writes through. */
  class Vec3Cell {
    var value: Vec3

    constructor (value: Vec3)
      ensures this.value == value
    {
      this.value := value;
    }
  }

  /** The value an update writes when the clock stands at `progressed`: in each
      component, the start plus the share progressed / duration of the distance
      to the target, where a zero-length tween counts as complete. While the
      clock is within [0, duration] every component stays between its start and
      target, and the value is the target once the clock reaches the duration. */
  function WrittenValue(startValue: Vec3, targetValue: Vec3, progressed: real, duration: real): (v: Vec3)
    ensures 0.0 <= progressed <= duration ==>
      && Min(startValue.x, targetValue.x) <= v.x <= Max(startValue.x, targetValue.x)
      && Min(startValue.y, targetValue.y) <= v.y <= Max(startValue.y, targetValue.y)
      && Min(startValue.z, targetValue.z) <= v.z <= Max(startValue.z, targetValue.z)
    ensures progressed == duration ==> v == targetValue
  {
    var r := Ratio(progressed, duration);
    RatioAtEnd(duration);
    if 0.0 <= progressed <= duration then
      RatioInRange(progressed, duration);
      LerpBetween(startValue.x, targetValue.x, r, r);
      LerpBetween(startValue.y, targetValue.y, r, r);
      LerpBetween(startValue.z, targetValue.z, r, r);
      Lerp3(startValue, targetValue, r)
    else
      Lerp3(startValue, targetValue, r)
  }

  class Vec3Tween {
    /** The Tween part of the object: state, progressed seconds, deleteOnEnd and id. */
    const base: Tween
    const valueToTween: Vec3Cell?
    const startValue: Vec3
    const targetValue: Vec3
    const duration: real

    /** The cell the tween writes, if any. */
    function Targets(): set<Vec3Cell>
    {
      if valueToTween == null then {} else {valueToTween}
    }

    /** An inactive tween that writes through `valueToTween`. */
    constructor (valueToTween: Vec3Cell?, startValue: Vec3, targetValue: Vec3, tweenDuration: real, deleteOnEnd: bool)
      ensures fresh(base) && base.state == InActive && base.progressedSeconds == 0.0
      ensures base.deleteOnEnd == deleteOnEnd && base.id == 0
      ensures this.valueToTween == valueToTween
      ensures this.startValue == startValue && this.targetValue == targetValue && duration == tweenDuration
    {
      base := new Tween(deleteOnEnd);
      this.valueToTween := valueToTween;
      this.startValue := startValue;
      this.targetValue := targetValue;
      duration := tweenDuration;
    }

    /** Whether the tween has somewhere to write. */
    predicate HasSink()
    {
      valueToTween != null
    }

    /** An inactive tween is left alone. An active tween with a null pointer is
        stopped and throws. Otherwise the clock advances by deltaTime, cut short
        at the duration, where the tween stops, and x, y and z are written one
        after the other with the same share. */
    method Update(deltaTime: real) returns (r: Outcome)
      modifies base`state, base`progressedSeconds, Targets()`value
      ensures old(base.state) == InActive ==>
        && r == Done && base.state == InActive && base.progressedSeconds == old(base.progressedSeconds)
        && unchanged(Targets())
      ensures old(base.state) == Active && !HasSink() ==>
        && r == Thrown(NullTweenTarget) && base.state == InActive
        && base.progressedSeconds == old(base.progressedSeconds)
      ensures old(base.state) == Active && HasSink() ==>
        var t := Advance(old(base.progressedSeconds), deltaTime, duration);
        && r == Done
        && base.progressedSeconds == t.progressed
        && (base.state == InActive <==> t.ended)
        && valueToTween.value == WrittenValue(startValue, targetValue, t.progressed, duration)
    {
      if base.state == InActive {
        return Done;
      }
      if valueToTween == null {
        base.Stop();
        return Thrown(NullTweenTarget);
      }
      var differenceSinceLastUpdate := deltaTime;
      if base.progressedSeconds + deltaTime >= duration {
        base.Stop();
        differenceSinceLastUpdate := duration - base.progressedSeconds;
      }
      base.progressedSeconds := base.progressedSeconds + differenceSinceLastUpdate;
      var ratio := Ratio(base.progressedSeconds, duration);
      valueToTween.value := valueToTween.value.(x := startValue.x + (targetValue.x - startValue.x) * ratio);
      valueToTween.value := valueToTween.value.(y := startValue.y + (targetValue.y - startValue.y) * ratio);
      valueToTween.value := valueToTween.value.(z := startValue.z + (targetValue.z - startValue.z) * ratio);
      r := Done;
    }

    /** Writes the start value, resets the clock and activates the tween. */
    method Start()
      requires HasSink()
      modifies base`state, base`progressedSeconds, Targets()`value
      ensures base.state == Active && base.progressedSeconds == 0.0
      ensures valueToTween.value == startValue
    {
      valueToTween.value := startValue;
      base.progressedSeconds := 0.0;
      base.state := Active;
    }
  }
}
