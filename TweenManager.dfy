/** The tween manager (Solution/TweenManager.cpp): it stores tweens under ids it
    issues from a counter and updates them all once per frame with the scene's
    delta time. The source stores shared pointers to the abstract Tween and
    calls its virtual Update and Start; here a TweenRef names which of the four
    kinds of tween is stored and dispatches to it. */
module TweenManagers {
  import opened Outcomes
  import opened Tweens
  import Engine
  import IntTweens
  import Vec2Tweens
  import FloatTweens
  import Vec3Tweens

  /** A pointer to a tween of one of the four kinds. */
  datatype TweenRef =
    | IntRef(i: IntTweens.IntTween)
    | Vec2Ref(v2: Vec2Tweens.Vec2Tween)
    | FloatRef(f: FloatTweens.FloatTween)
    | Vec3Ref(v3: Vec3Tweens.Vec3Tween)
  {
    /** The Tween part of the object. */
    function Base(): Tween
    {
      match this
      case IntRef(t) => t.base
      case Vec2Ref(t) => t.base
      case FloatRef(t) => t.base
      case Vec3Ref(t) => t.base
    }

    /** Everything an update or a start of the tween may change. */
    function Objects(): set<object>
    {
      match this
      case IntRef(t) => {t, t.base} + t.Targets()
      case Vec2Ref(t) => {t, t.base} + t.Targets()
      case FloatRef(t) => {t, t.base} + t.Targets()
      case Vec3Ref(t) => {t, t.base} + t.Targets()
    }

    /** Whether the tween has somewhere to write its values. */
    predicate HasSink()
    {
      match this
      case IntRef(t) => t.HasSink()
      case Vec2Ref(t) => t.HasSink()
      case FloatRef(t) => t.HasSink()
      case Vec3Ref(t) => t.HasSink()
    }

    /** The clock reading at which the tween ends: duration + delay for the
        kinds with a delay, the duration for the others. */
    function End(): real
    {
      match this
      case IntRef(t) => t.duration + t.delay
      case Vec2Ref(t) => t.duration + t.delay
      case FloatRef(t) => t.duration
      case Vec3Ref(t) => t.duration
    }
  }

  /** The virtual call tween->Update(deltaTime). An inactive tween is left alone
      and an active one without a sink stops and throws. Otherwise the clock
      advances towards End(), the tween stops exactly when it gets there, and the
      kind's interpolated value is written to its sink. */
  method UpdateTween(tween: TweenRef, deltaTime: real) returns (r: Outcome)
    modifies tween.Objects()
    ensures old(tween.Base().state) == InActive ==>
              r == Done && tween.Base().state == InActive && unchanged(tween.Objects())
    ensures old(tween.Base().state) == Active ==> (r.Thrown? <==> !tween.HasSink())
    ensures r.Thrown? ==>
      && r == Thrown(NullTweenTarget) && tween.Base().state == InActive
      && tween.Base().progressedSeconds == old(tween.Base().progressedSeconds)
    ensures r.Thrown? && tween.IntRef? ==> tween.i.setterCalls == old(tween.i.setterCalls)
    ensures r.Thrown? && tween.Vec2Ref? ==> tween.v2.setterCalls == old(tween.v2.setterCalls)
    ensures tween.Base().id == old(tween.Base().id) && tween.Base().deleteOnEnd == old(tween.Base().deleteOnEnd)
    ensures old(tween.Base().state) == Active && tween.HasSink() ==>
      var t := Advance(old(tween.Base().progressedSeconds), deltaTime, tween.End());
      && tween.Base().progressedSeconds == t.progressed
      && (tween.Base().state == InActive <==> t.ended)
    ensures old(tween.Base().state) == Active && tween.HasSink() && tween.IntRef? ==>
      var t := tween.i;
      var v := IntTweens.WrittenValue(t.startValue, t.targetValue, t.base.progressedSeconds, t.delay, t.duration);
      && (v.Some? && t.useSetter ==> t.setterCalls == old(t.setterCalls) + [v.value])
      && (v.Some? && !t.useSetter ==> t.valueToTween.value == v.value && t.setterCalls == old(t.setterCalls))
      && (v.None? ==> t.setterCalls == old(t.setterCalls) && unchanged(t.Targets()))
    ensures old(tween.Base().state) == Active && tween.HasSink() && tween.Vec2Ref? ==>
      var t := tween.v2;
      var v := Vec2Tweens.WrittenValue(t.startValue, t.targetValue, t.base.progressedSeconds, t.delay, t.duration);
      && (v.Some? && t.useSetter ==> t.setterCalls == old(t.setterCalls) + [v.value])
      && (v.Some? && !t.useSetter ==> t.valueToTween.value == v.value && t.setterCalls == old(t.setterCalls))
      && (v.None? ==> t.setterCalls == old(t.setterCalls) && unchanged(t.Targets()))
    ensures old(tween.Base().state) == Active && tween.HasSink() && tween.FloatRef? ==>
      var t := tween.f;
      t.valueToTween.value == FloatTweens.WrittenValue(t.startValue, t.targetValue, t.base.progressedSeconds, t.duration)
    ensures old(tween.Base().state) == Active && tween.HasSink() && tween.Vec3Ref? ==>
      var t := tween.v3;
      t.valueToTween.value == Vec3Tweens.WrittenValue(t.startValue, t.targetValue, t.base.progressedSeconds, t.duration)
  {
    match tween
    case IntRef(t) => r := t.Update(deltaTime);
    case Vec2Ref(t) => r := t.Update(deltaTime);
    case FloatRef(t) => r := t.Update(deltaTime);
    case Vec3Ref(t) => r := t.Update(deltaTime);
  }

  /** The virtual call tween->Start(): the start value goes to the tween's
      sink, and the tween is active with its clock at 0. */
  method StartTween(tween: TweenRef)
    requires tween.HasSink()
    modifies tween.Objects()
    ensures tween.Base().state == Active && tween.Base().progressedSeconds == 0.0
    ensures tween.Base().id == old(tween.Base().id) && tween.Base().deleteOnEnd == old(tween.Base().deleteOnEnd)
    ensures tween.IntRef? ==>
      var t := tween.i;
      && (t.useSetter ==> t.setterCalls == old(t.setterCalls) + [t.startValue])
      && (!t.useSetter ==> t.valueToTween.value == t.startValue && t.setterCalls == old(t.setterCalls))
    ensures tween.Vec2Ref? ==>
      var t := tween.v2;
      && (t.useSetter ==> t.setterCalls == old(t.setterCalls) + [t.startValue])
      && (!t.useSetter ==> t.valueToTween.value == t.startValue && t.setterCalls == old(t.setterCalls))
    ensures tween.FloatRef? ==> tween.f.valueToTween.value == tween.f.startValue
    ensures tween.Vec3Ref? ==> tween.v3.valueToTween.value == tween.v3.startValue
  {
    match tween
    case IntRef(t) => t.Start();
    case Vec2Ref(t) => t.Start();
    case FloatRef(t) => t.Start();
    case Vec3Ref(t) => t.Start();
  }

  class TweenManager {
    const parentScene: Engine.Scene
    var tweens: map<nat, TweenRef>
    var nextID: nat
    /** The ids of the tweens the last UpdateAll updated, in the order it did. */
    ghost var lastPass: seq<nat>

    /** Every stored id was issued by the counter. */
    ghost predicate Valid()
      reads this
    {
      forall id | id in tweens :: id < nextID
    }

    /** Everything the stored tweens may change when updated. */
    ghost function Footprint(): set<object>
      reads this
    {
      set id, o | id in tweens && o in tweens[id].Objects() :: o
    }

    constructor (parentScene: Engine.Scene)
      ensures Valid()
      ensures this.parentScene == parentScene && tweens == map[] && nextID == 0 && lastPass == []
    {
      this.parentScene := parentScene;
      tweens := map[];
      nextID := 0;
      lastPass := [];
    }

    /** Whether a tween is stored under `id`. An id that exists was issued. */
    predicate TweenExists(id: nat)
      reads this
      ensures TweenExists(id) && Valid() ==> id < nextID
    {
      id in tweens
    }

    /** Stores the tween under the next id, which is stamped on the tween and
        returned, and starts it when asked. An id is never handed out twice, so
        nothing already stored is replaced. Starting a pointer tween with a null
        pointer dereferences it, so that is excluded. */
    method AddTween(tweenToAdd: TweenRef, startOnAdd: bool) returns (id: nat)
      requires Valid()
      requires startOnAdd ==> tweenToAdd.HasSink()
      modifies this`tweens, this`nextID, tweenToAdd.Objects()
      ensures Valid()
      ensures id == old(nextID) && nextID == id + 1
      ensures id !in old(tweens) && tweens == old(tweens)[id := tweenToAdd] && TweenExists(id)
      ensures tweenToAdd.Base().id == id
      ensures startOnAdd ==> tweenToAdd.Base().state == Active && tweenToAdd.Base().progressedSeconds == 0.0
      ensures !startOnAdd ==>
        && tweenToAdd.Base().state == old(tweenToAdd.Base().state)
        && tweenToAdd.Base().progressedSeconds == old(tweenToAdd.Base().progressedSeconds)
        && tweenToAdd.Base().deleteOnEnd == old(tweenToAdd.Base().deleteOnEnd)
        && unchanged(tweenToAdd.Objects() - {tweenToAdd.Base()})
      ensures startOnAdd && tweenToAdd.IntRef? ==>
        var t := tweenToAdd.i;
        && (t.useSetter ==> t.setterCalls == old(t.setterCalls) + [t.startValue])
        && (!t.useSetter ==> t.valueToTween.value == t.startValue && t.setterCalls == old(t.setterCalls))
      ensures startOnAdd && tweenToAdd.Vec2Ref? ==>
        var t := tweenToAdd.v2;
        && (t.useSetter ==> t.setterCalls == old(t.setterCalls) + [t.startValue])
        && (!t.useSetter ==> t.valueToTween.value == t.startValue && t.setterCalls == old(t.setterCalls))
      ensures startOnAdd && tweenToAdd.FloatRef? ==> tweenToAdd.f.valueToTween.value == tweenToAdd.f.startValue
      ensures startOnAdd && tweenToAdd.Vec3Ref? ==> tweenToAdd.v3.valueToTween.value == tweenToAdd.v3.startValue
    {
      id := nextID;
      nextID := nextID + 1;
      tweenToAdd.Base().id := id;
      tweens := tweens[id := tweenToAdd];
      if startOnAdd {
        StartTween(tweenToAdd);
      }
    }

    /** Removes the tween stored under `id`, if there is one; the counter is kept,
        so the id is not issued again. */
    method RemoveTween(id: nat)
      requires Valid()
      modifies this`tweens
      ensures Valid()
      ensures tweens == old(tweens) - {id} && !TweenExists(id)
      ensures forall k | k != id :: TweenExists(k) == old(TweenExists(k))
    {
      if TweenExists(id) {
        tweens := tweens - {id};
      }
    }

    /** Updates every stored tween once with the scene's delta time, in
        ascending id order (the order of std::map). A tween that throws ends the
        pass; the tweens after it are not updated. Finished tweens stay stored. */
    method UpdateAll() returns (r: Outcome)
      requires Valid()
      modifies Footprint(), this`lastPass
      ensures tweens == old(tweens) && nextID == old(nextID)
      ensures forall i, j | 0 <= i < j < |lastPass| :: lastPass[i] < lastPass[j]
      ensures forall i | 0 <= i < |lastPass| :: lastPass[i] in tweens
      ensures r == Done ==> forall id | id in tweens :: id in lastPass
      ensures r.Thrown? ==>
        && r == Thrown(NullTweenTarget) && lastPass != []
        && (forall id | id in tweens && id < lastPass[|lastPass| - 1] :: id in lastPass)
    {
      var deltaTime := parentScene.deltaTime;
      lastPass := [];
      for id := 0 to nextID
        invariant forall i, j | 0 <= i < j < |lastPass| :: lastPass[i] < lastPass[j]
        invariant forall i | 0 <= i < |lastPass| :: lastPass[i] in tweens && lastPass[i] < id
        invariant forall k | k in tweens && k < id :: k in lastPass
      {
        if id in tweens {
          lastPass := lastPass + [id];
          r := UpdateTween(tweens[id], deltaTime);
          if r.Thrown? {
            return;
          }
        }
      }
      r := Done;
    }
  }
}
