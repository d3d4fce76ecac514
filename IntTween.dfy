/** The int tween (Solution/IntTween.cpp): after an optional delay it moves an
    int from a start value to a target value over a duration, writing each new
    value either through a pointer or to a setter callback. */
module IntTweens {
  import opened Outcomes
  import opened Tweens

  /** The int a pointer-mode tween writes through. */
  class IntCell {
    var value: int

    constructor (value: int)
      ensures this.value == value
    {
      this.value := value;
    }
  }

  /** The value an update writes once the clock stands at `progressed`: nothing
      while the delay runs, then the start value plus the truncated share of the
      distance to the target. The value never leaves [start, target] and it is
      the target once the clock reaches duration + delay. */
  function WrittenValue(startValue: int, targetValue: int, progressed: real, delay: real, duration: real): (v: Option<int>)
    requires progressed <= duration + delay
    ensures v.Some? <==> delay < progressed
    ensures v.Some? && startValue <= targetValue ==> startValue <= v.value <= targetValue
    ensures v.Some? && targetValue <= startValue ==> targetValue <= v.value <= startValue
    ensures v.Some? && progressed == duration + delay ==> v.value == targetValue
  {
    if delay < progressed then
      var f := DelayedFraction(progressed, delay, duration);
      IntLerpBetween(startValue, targetValue, f);
      Some(IntLerp(startValue, targetValue, f))
    else
      None
  }

  /** A zero-duration tween stops with its clock at the delay, and an update
      writes only once the clock is past the delay: the update that ends the
      tween writes nothing, so the target is never written. */
  lemma ZeroDurationEndsUnwritten(startValue: int, targetValue: int, progressed: real, deltaTime: real, delay: real)
    requires progressed + deltaTime >= delay
    ensures var t := Advance(progressed, deltaTime, 0.0 + delay);
      && t.ended && t.progressed == delay
      && WrittenValue(startValue, targetValue, t.progressed, delay, 0.0) == None
  {
  }

  class IntTween {
    /** The Tween part of the object: state, progressed seconds, deleteOnEnd and id. */
    const base: Tween
    /** Whether values go to the setter callback rather than through the pointer. */
    const useSetter: bool
    const valueToTween: IntCell?
    const startValue: int
    const targetValue: int
    const duration: real
    const delay: real
    /** The values handed to the setter callback, which is foreign code, in call order. */
    var setterCalls: seq<int>

    /** The cell a pointer-mode tween writes, if any. */
    function Targets(): set<IntCell>
    {
      if useSetter || valueToTween == null then {} else {valueToTween}
    }

    /** The pointer constructor: an inactive tween that writes through `valueToTween`. */
    constructor WithPointer(valueToTween: IntCell?, startValue: int, targetValue: int,
                            tweenDuration: real, tweenDelay: real, deleteOnEnd: bool)
      ensures fresh(base) && base.state == InActive && base.progressedSeconds == 0.0
      ensures base.deleteOnEnd == deleteOnEnd && base.id == 0
      ensures !useSetter && this.valueToTween == valueToTween
      ensures this.startValue == startValue && this.targetValue == targetValue
      ensures duration == tweenDuration && delay == tweenDelay && setterCalls == []
    {
      base := new Tween(deleteOnEnd);
      useSetter := false;
      this.valueToTween := valueToTween;
      this.startValue := startValue;
      this.targetValue := targetValue;
      duration := tweenDuration;
      delay := tweenDelay;
      setterCalls := [];
    }

    /** The setter constructor: an inactive tween that hands its values to a
        callback; its pointer is null. */
    constructor WithSetter(startValue: int, targetValue: int, tweenDuration: real, tweenDelay: real, deleteOnEnd: bool)
      ensures fresh(base) && base.state == InActive && base.progressedSeconds == 0.0
      ensures base.deleteOnEnd == deleteOnEnd && base.id == 0
      ensures useSetter && valueToTween == null
      ensures this.startValue == startValue && this.targetValue == targetValue
      ensures duration == tweenDuration && delay == tweenDelay && setterCalls == []
    {
      base := new Tween(deleteOnEnd);
      useSetter := true;
      valueToTween := null;
      this.startValue := startValue;
      this.targetValue := targetValue;
      duration := tweenDuration;
      delay := tweenDelay;
      setterCalls := [];
    }

    /** Whether the tween has somewhere to write. */
    predicate HasSink()
    {
      useSetter || valueToTween != null
    }

    /** An inactive tween is left alone. An active pointer-mode tween with a null
        pointer is stopped and throws. Otherwise the clock advances by deltaTime,
        cut short at duration + delay, where the tween stops; once the delay has
        passed the interpolated value goes to exactly one sink. */
    method Update(deltaTime: real) returns (r: Outcome)
      modifies base`state, base`progressedSeconds, Targets()`value, this`setterCalls
      ensures old(base.state) == InActive ==>
        && r == Done && base.state == InActive && base.progressedSeconds == old(base.progressedSeconds)
        && unchanged(Targets()) && setterCalls == old(setterCalls)
      ensures old(base.state) == Active && !HasSink() ==>
        && r == Thrown(NullTweenTarget) && base.state == InActive
        && base.progressedSeconds == old(base.progressedSeconds) && setterCalls == old(setterCalls)
      ensures old(base.state) == Active && HasSink() ==>
        var t := Advance(old(base.progressedSeconds), deltaTime, duration + delay);
        var v := WrittenValue(startValue, targetValue, t.progressed, delay, duration);
        && r == Done
        && base.progressedSeconds == t.progressed
        && (base.state == InActive <==> t.ended)
        && (v.None? ==> unchanged(Targets()) && setterCalls == old(setterCalls))
        && (v.Some? && useSetter ==> setterCalls == old(setterCalls) + [v.value])
        && (v.Some? && !useSetter ==> valueToTween.value == v.value && setterCalls == old(setterCalls))
    {
      if base.state == InActive {
        return Done;
      }
      if !useSetter && valueToTween == null {
        base.Stop();
        return Thrown(NullTweenTarget);
      }
      var differenceSinceLastUpdate := deltaTime;
      if base.progressedSeconds + deltaTime >= duration + delay {
        base.Stop();
        differenceSinceLastUpdate := (duration + delay) - base.progressedSeconds;
      }
      base.progressedSeconds := base.progressedSeconds + differenceSinceLastUpdate;
      if base.progressedSeconds > delay {
        var timeSinceStart := base.progressedSeconds - delay;
        var newValue := startValue + Trunc((targetValue - startValue) as real * (timeSinceStart / duration));
        if !useSetter {
          valueToTween.value := newValue;
        } else {
          setterCalls := setterCalls + [newValue];
        }
      }
      r := Done;
    }

    /** Writes the start value to the sink, resets the clock and activates the
        tween. A pointer-mode tween must have a pointer to write through. */
    method Start()
      requires HasSink()
      modifies base`state, base`progressedSeconds, Targets()`value, this`setterCalls
      ensures base.state == Active && base.progressedSeconds == 0.0
      ensures useSetter ==> setterCalls == old(setterCalls) + [startValue]
      ensures !useSetter ==> valueToTween.value == startValue && setterCalls == old(setterCalls)
    {
      if !useSetter {
        valueToTween.value := startValue;
      } else {
        setterCalls := setterCalls + [startValue];
      }
      base.progressedSeconds := 0.0;
      base.state := Active;
    }
  }
}
