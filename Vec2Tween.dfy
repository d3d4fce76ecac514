/** The vec2 tween (Solution/Vec2Tween.cpp): after an optional delay it moves a
    2D vector from a start value to a target value over a duration, writing each
    new value either through a pointer or to a setter callback. */
module Vec2Tweens {
  import opened Vectors
  import opened Outcomes
  import opened Tweens

  /** The vec2 a pointer-mode tween writes through. */
  class Vec2Cell {
    var value: Vec2

    constructor (value: Vec2)
      ensures this.value == value
    {
      this.value := value;
    }
  }

  /** The value an update writes once the clock stands at `progressed`: nothing
      while the delay runs, then the start value plus the share of the distance
      to the target that has run, in each component. No component leaves the
      range between its start and target, and the value is the target once the
      clock reaches duration + delay. */
  function WrittenValue(startValue: Vec2, targetValue: Vec2, progressed: real, delay: real, duration: real): (v: Option<Vec2>)
    requires progressed <= duration + delay
    ensures v.Some? <==> delay < progressed
    ensures v.Some? ==> Min(startValue.x, targetValue.x) <= v.value.x <= Max(startValue.x, targetValue.x)
    ensures v.Some? ==> Min(startValue.y, targetValue.y) <= v.value.y <= Max(startValue.y, targetValue.y)
    ensures v.Some? && progressed == duration + delay ==> v.value == targetValue
  {
    if delay < progressed then
      var f := DelayedFraction(progressed, delay, duration);
      LerpBetween(startValue.x, targetValue.x, f, f);
      LerpBetween(startValue.y, targetValue.y, f, f);
      Some(Lerp2(startValue, targetValue, f))
    else
      None
  }

  /** A zero-duration tween stops with its clock at the delay, and an update
      writes only once the clock is past the delay: the update that ends the
      tween writes nothing, so the target is never written. */
  lemma ZeroDurationEndsUnwritten(startValue: Vec2, targetValue: Vec2, progressed: real, deltaTime: real, delay: real)
    requires progressed + deltaTime >= delay
    ensures var t := Advance(progressed, deltaTime, 0.0 + delay);
      && t.ended && t.progressed == delay
      && WrittenValue(startValue, targetValue, t.progressed, delay, 0.0) == None
  {
  }

  class Vec2Tween {
    /** The Tween part of the object: state, progressed seconds, deleteOnEnd and id. */
    const base: Tween
    /** Whether values go to the setter callback rather than through the pointer. */
    const useSetter: bool
    const valueToTween: Vec2Cell?
    const startValue: Vec2
    const targetValue: Vec2
    const duration: real
    const delay: real
    /** The values handed to the setter callback, which is foreign code, in call order. */
    var setterCalls: seq<Vec2>

    /** The cell a pointer-mode tween writes, if any. */
    function Targets(): set<Vec2Cell>
    {
      if useSetter || valueToTween == null then {} else {valueToTween}
    }

    /** The pointer constructor: an inactive tween that writes through `valueToTween`. */
    constructor WithPointer(valueToTween: Vec2Cell?, startValue: Vec2, targetValue: Vec2,
                            tweenDuration: real, tweenDelay: real, deleteOnEnd: bool)
      ensures fresh(base) && base.state == InActive && base.progressedSeconds == 0.0
      ensures base.deleteOnEnd == deleteOnEnd && base.id == 0
      ensures !useSetter && this.valueToTween == valueToTween
      ensures this.startValue == startValue && this.targetValue == targetValue
      ensures duration == tweenDuration && delay == tweenDelay && setterCalls == []
    {
      base := new Tween(deleteOnEnd);
      useSetter := false;
      this.valueToTween := valueToTween;
      this.startValue := startValue;
      this.targetValue := targetValue;
      duration := tweenDuration;
      delay := tweenDelay;
      setterCalls := [];
    }

    /** The setter constructor: an inactive tween that hands its values to a
        callback; its pointer is null. */
    constructor WithSetter(startValue: Vec2, targetValue: Vec2, tweenDuration: real, tweenDelay: real, deleteOnEnd: bool)
      ensures fresh(base) && base.state == InActive && base.progressedSeconds == 0.0
      ensures base.deleteOnEnd == deleteOnEnd && base.id == 0
      ensures useSetter && valueToTween == null
      ensures this.startValue == startValue && this.targetValue == targetValue
      ensures duration == tweenDuration && delay == tweenDelay && setterCalls == []
    {
      base := new Tween(deleteOnEnd);
      useSetter := true;
      valueToTween := null;
      this.startValue := startValue;
      this.targetValue := targetValue;
      duration := tweenDuration;
      delay := tweenDelay;
      setterCalls := [];
    }

    /** Whether the tween has somewhere to write. */
    predicate HasSink()
    {
      useSetter || valueToTween != null
    }

    /** An inactive tween is left alone. An active pointer-mode tween with a null
        pointer is stopped and throws. Otherwise the clock advances by deltaTime,
        cut short at duration + delay, where the tween stops; once the delay has
        passed the interpolated value goes to exactly one sink. */
    method Update(deltaTime: real) returns (r: Outcome)
      modifies base`state, base`progressedSeconds, Targets()`value, this`setterCalls
      ensures old(base.state) == InActive ==>
        && r == Done && base.state == InActive && base.progressedSeconds == old(base.progressedSeconds)
        && unchanged(Targets()) && setterCalls == old(setterCalls)
      ensures old(base.state) == Active && !HasSink() ==>
        && r == Thrown(NullTweenTarget) && base.state == InActive
        && base.progressedSeconds == old(base.progressedSeconds) && setterCalls == old(setterCalls)
      ensures old(base.state) == Active && HasSink() ==>
        var t := Advance(old(base.progressedSeconds), deltaTime, duration + delay);
        var v := WrittenValue(startValue, targetValue, t.progressed, delay, duration);
        && r == Done
        && base.progressedSeconds == t.progressed
        && (base.state == InActive <==> t.ended)
        && (v.None? ==> unchanged(Targets()) && setterCalls == old(setterCalls))
        && (v.Some? && useSetter ==> setterCalls == old(setterCalls) + [v.value])
        && (v.Some? && !useSetter ==> valueToTween.value == v.value && setterCalls == old(setterCalls))
    {
      if base.state == InActive {
        return Done;
      }
      if !useSetter && valueToTween == null {
        base.Stop();
        return Thrown(NullTweenTarget);
      }
      var differenceSinceLastUpdate := deltaTime;
      if base.progressedSeconds + deltaTime >= duration + delay {
        base.Stop();
        differenceSinceLastUpdate := (duration + delay) - base.progressedSeconds;
      }
      base.progressedSeconds := base.progressedSeconds + differenceSinceLastUpdate;
      if base.progressedSeconds > delay {
        var timeSinceStart := base.progressedSeconds - delay;
        var newValue := startValue.Plus(targetValue.Minus(startValue).Scale(timeSinceStart / duration));
        if !useSetter {
          valueToTween.value := newValue;
        } else {
          setterCalls := setterCalls + [newValue];
        }
      }
      r := Done;
    }

    /** Writes the start value to the sink, resets the clock and activates the
        tween. A pointer-mode tween must have a pointer to write through. */
    method Start()
      requires HasSink()
      modifies base`state, base`progressedSeconds, Targets()`value, this`setterCalls
      ensures base.state == Active && base.progressedSeconds == 0.0
      ensures useSetter ==> setterCalls == old(setterCalls) + [startValue]
      ensures !useSetter ==> valueToTween.value == startValue && setterCalls == old(setterCalls)
    {
      if !useSetter {
        valueToTween.value := startValue;
      } else {
        setterCalls := setterCalls + [startValue];
      }
      base.progressedSeconds := 0.0;
      base.state := Active;
    }
  }
}
