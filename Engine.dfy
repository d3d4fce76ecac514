/** The object graph of the engine: entities and their component table
    (Solution/Entity.h, Solution/Entity.cpp), the scene registry (Solution/Scene.cpp),
    rigid bodies (Solution/RigidBody2D.cpp) and colliders (Solution/Collider.cpp).
    These classes point at each other (an entity at its scene, a scene at its
    entities, a body at its collider and back), so they share one module. */
module Engine {
  import opened Vectors
  import opened Outcomes
  import opened Names
  import opened Motion
  import BoxColliders

  /** Entity::ComponentType, with the members the source files use. */
  datatype ComponentType = SpriteRenderer | RectangleRenderer | EllipseRenderer | LineRenderer | BoxCollider

  /** An entity's transform: its position, the offset the rigid body moves, its
      size and its zIndex (an unsigned int in the source). */
  datatype Transform = Transform(position: Vec2, offsetPosition: Vec2, size: Vec3, zIndex: nat)

  /** Scene::EventType, without its `Length` placeholder. */
  datatype EventType = FrameStart | FrameEnd

  const EventTypeCount: nat := 2

  /** The enum member with the given index (the cast `(EventType) enumIndex`). */
  function EventTypeAt(i: nat): (t: EventType)
    requires i < EventTypeCount
  {
    if i == 0 then FrameStart else FrameEnd
  }

  /** An EventListener: its id under the scene and a handle for its callback, which is foreign code. */
  datatype EventListener = EventListener(id: nat, callback: nat)

  /** One call of Scene::UpdateEntityCollider(name, collider). */
  datatype ColliderUpdate = ColliderUpdate(entityName: string, collider: Collider?)

  /** A component stored in an entity's table: a rigid body, a collider, or any
      other component (the renderers, whose behaviour is not modelled). */
  datatype ComponentRef = Other(component: Component) | Body(body: RigidBody2D) | Shape(collider: Collider)
  {
    function Others(): set<Component> { if Other? then {component} else {} }
    function Bodies(): set<RigidBody2D> { if Body? then {body} else {} }
    function Shapes(): set<Collider> { if Shape? then {collider} else {} }

    /** The component's parent entity (Component::GetParentEntity). */
    function Parent(): Entity?
      reads Others(), Bodies(), Shapes()
    {
      match this
      case Other(c) => c.parentEntity
      case Body(b) => b.parentEntity
      case Shape(c) => c.parentEntity
    }
  }

  function EntitiesOf(e: Entity?): set<Entity> { if e == null then {} else {e} }
  function ScenesOf(s: Scene?): set<Scene> { if s == null then {} else {s} }
  function CollidersOf(c: Collider?): set<Collider> { if c == null then {} else {c} }
  function BodiesOf(b: RigidBody2D?): set<RigidBody2D> { if b == null then {} else {b} }

  /** The scene an entity belongs to, as a set that is empty when there is none. */
  function SceneSetOf(e: Entity?): set<Scene>
    reads EntitiesOf(e)
  {
    if e == null then {} else ScenesOf(e.parentScene)
  }

  /** Any component that is neither a rigid body nor a collider. */
  class Component {
    var parentEntity: Entity?

    constructor ()
      ensures parentEntity == null
    {
      parentEntity := null;
    }
  }

  class Entity {
    var isActive: bool
    var name: string
    var transform: Transform
    var parentScene: Scene?
    /** What Entity::GetHasTransparency reports; its computation is not part of this model. */
    var hasTransparency: bool
    var components: map<ComponentType, ComponentRef>

    /** A fresh entity is active, unnamed until added to a scene, and has no components. */
    constructor (transform: Transform)
      ensures isActive && name == "" && this.transform == transform
      ensures parentScene == null && !hasTransparency && components == map[]
    {
      isActive := true;
      name := "";
      this.transform := transform;
      parentScene := null;
      hasTransparency := false;
      components := map[];
    }

    predicate ComponentExists(kind: ComponentType)
      reads this
    {
      kind in components
    }

    /** The stored component of that kind, or none; never inserts. */
    function GetBaseComponent(kind: ComponentType): (r: Option<ComponentRef>)
      reads this
      ensures r.Some? <==> ComponentExists(kind)
      ensures r.Some? ==> r.value == components[kind]
    {
      if ComponentExists(kind) then Some(components[kind]) else None
    }

    /** Entity::GetComponent<T>: the same guarded lookup, so that `[]` cannot insert;
        the static cast to T is not modelled. */
    function GetComponent(kind: ComponentType): (r: Option<ComponentRef>)
      reads this
      ensures r.None? <==> !ComponentExists(kind)
      ensures r.Some? ==> r.value == components[kind]
    {
      if ComponentExists(kind) then Some(components[kind]) else None
    }

    function GetComponents(): map<ComponentType, ComponentRef>
      reads this
    {
      components
    }

    /** Sets the component's parent to this entity in every case, and inserts it
        only if no component of that kind is present. */
    method AddComponent(kind: ComponentType, component: ComponentRef)
      modifies this`components
      modifies component.Others()`parentEntity, component.Bodies()`parentEntity, component.Shapes()`parentEntity
      ensures component.Parent() == this
      ensures ComponentExists(kind)
      ensures old(ComponentExists(kind)) ==> components == old(components)
      ensures !old(ComponentExists(kind)) ==> components == old(components)[kind := component]
    {
      match component {
        case Other(c) => c.parentEntity := this;
        case Body(b) => b.parentEntity := this;
        case Shape(c) => c.parentEntity := this;
      }
      if !ComponentExists(kind) {
        components := components[kind := component];
      }
    }

    /** Removes the component of that kind, if there is one; every other entry stays. */
    method RemoveComponent(kind: ComponentType)
      modifies this`components
      ensures components == old(components) - {kind}
      ensures !ComponentExists(kind)
    {
      var compToRemove := GetBaseComponent(kind);
      if compToRemove.Some? {
        components := components - {kind};
      }
    }
  }

  /** Every listener id is below `bound` and the ids rise strictly along the vector. */
  ghost predicate IdsIncreasing(s: seq<EventListener>, bound: nat)
  {
    && (forall i | 0 <= i < |s| :: s[i].id < bound)
    && (forall i, j | 0 <= i < j < |s| :: s[i].id < s[j].id)
  }

  /** The listeners of `s` whose id is not `id`, in their original order. */
  function Without(s: seq<EventListener>, id: nat): (r: seq<EventListener>)
    ensures |r| <= |s|
  {
    if s == [] then []
    else if s[0].id == id then Without(s[1..], id)
    else [s[0]] + Without(s[1..], id)
  }

  /** Without keeps exactly the listeners whose id differs, in order. */
  lemma {:induction false} WithoutSpec(s: seq<EventListener>, id: nat)
    ensures forall x :: x in Without(s, id) <==> x in s && x.id != id
  {
    if s != [] {
      WithoutSpec(s[1..], id);
      assert s == [s[0]] + s[1..];
    }
  }

  /** Removing a listener that is absent changes nothing. */
  lemma {:induction false} WithoutAbsent(s: seq<EventListener>, id: nat)
    requires forall j | 0 <= j < |s| :: s[j].id != id
    ensures Without(s, id) == s
  {
    if s != [] {
      WithoutAbsent(s[1..], id);
    }
  }

  /** With distinct ids, erasing the entry that holds `id` removes every listener with that id. */
  lemma {:induction false} EraseIsWithout(s: seq<EventListener>, bound: nat, i: nat, id: nat)
    requires IdsIncreasing(s, bound)
    requires i < |s| && s[i].id == id
    ensures s[..i] + s[i + 1..] == Without(s, id)
  {
    if i == 0 {
      WithoutAbsent(s[1..], id);
    } else {
      EraseIsWithout(s[1..], bound, i - 1, id);
      assert s[1..][..i - 1] + s[1..][i..] == Without(s[1..], id);
      assert s[0].id < s[i].id;
      assert s[..i] + s[i + 1..] == [s[0]] + (s[1..][..i - 1] + s[1..][i..]);
    }
  }

  /** Removal keeps the ids increasing. */
  lemma {:induction false} WithoutKeepsIncreasing(s: seq<EventListener>, bound: nat, id: nat)
    requires IdsIncreasing(s, bound)
    ensures IdsIncreasing(Without(s, id), bound)
  {
    if s != [] {
      assert IdsIncreasing(s[1..], bound);
      WithoutKeepsIncreasing(s[1..], bound, id);
      WithoutSpec(s[1..], id);
      var rest := Without(s[1..], id);
      if s[0].id != id {
        var r := [s[0]] + rest;
        assert r == Without(s, id);
        forall j | 0 < j < |r|
          ensures r[0].id < r[j].id
        {
          assert r[j] in s[1..];
        }
        forall i, j | 0 <= i < j < |r|
          ensures r[i].id < r[j].id
        {
          if i > 0 {
            assert r[i] == rest[i - 1] && r[j] == rest[j - 1];
          }
        }
        forall i | 0 <= i < |r|
          ensures r[i].id < bound
        {
          assert r[i] in s;
        }
      }
    }
  }

  class Scene {
    var opaqueEntities: map<string, Entity>
    var transparentEntities: map<string, Entity>
    var highestZIndex: nat
    /** Seconds between the last two frames; set by the frame loop from the clock. */
    var deltaTime: real
    var gravity: real
    var pixelsPerMetre: real
    var listeners: map<EventType, seq<EventListener>>
    var listenersCreated: nat
    /** The calls of Scene::UpdateEntityCollider, whose body is not part of this model. */
    ghost var colliderUpdates: seq<ColliderUpdate>

    /** No name is in both maps; every event kind has a listener vector whose ids
        were issued by the counter and rise along the vector. */
    ghost predicate Valid()
      reads this
    {
      && opaqueEntities.Keys !! transparentEntities.Keys
      && (forall t: EventType :: t in listeners)
      && (forall t: EventType | t in listeners :: IdsIncreasing(listeners[t], listenersCreated))
    }

    ghost function EntityNames(): set<string>
      reads this
    {
      opaqueEntities.Keys + transparentEntities.Keys
    }

    /** Every registered entity has a zIndex no higher than highestZIndex. */
    ghost predicate AllBelowHighest()
      reads this, opaqueEntities.Values, transparentEntities.Values
    {
      && (forall k | k in opaqueEntities :: opaqueEntities[k].transform.zIndex <= highestZIndex)
      && (forall k | k in transparentEntities :: transparentEntities[k].transform.zIndex <= highestZIndex)
    }

    /** Some registered entity has zIndex z. */
    ghost predicate HeldBySomeEntity(z: nat)
      reads this, opaqueEntities.Values, transparentEntities.Values
    {
      || (exists k | k in opaqueEntities :: opaqueEntities[k].transform.zIndex == z)
      || (exists k | k in transparentEntities :: transparentEntities[k].transform.zIndex == z)
    }

    constructor (gravity: real, pixelsPerMetre: real)
      ensures Valid()
      ensures opaqueEntities == map[] && transparentEntities == map[] && highestZIndex == 0
      ensures deltaTime == 0.0 && this.gravity == gravity && this.pixelsPerMetre == pixelsPerMetre
      ensures forall t: EventType :: listeners[t] == []
      ensures listenersCreated == 0 && colliderUpdates == []
    {
      opaqueEntities := map[];
      transparentEntities := map[];
      highestZIndex := 0;
      deltaTime := 0.0;
      this.gravity := gravity;
      this.pixelsPerMetre := pixelsPerMetre;
      listeners := map[];
      listenersCreated := 0;
      colliderUpdates := [];
      new;
      IntialiseListenerMap();
    }

    /** Gives every event kind an empty listener vector. */
    method IntialiseListenerMap()
      modifies this`listeners
      ensures forall t: EventType :: t in listeners && listeners[t] == []
    {
      for enumIndex := 0 to EventTypeCount
        invariant forall k | 0 <= k < enumIndex :: EventTypeAt(k) in listeners && listeners[EventTypeAt(k)] == []
      {
        listeners := listeners[EventTypeAt(enumIndex) := []];
      }
      forall t: EventType
        ensures t in listeners && listeners[t] == []
      {
        assert t == EventTypeAt(if t == FrameStart then 0 else 1);
      }
    }

    /** The requested name followed by the fewest "1"s that make it absent from both maps. */
    method GetValidName(inputName: string) returns (outputName: string)
      ensures outputName == FreshName(inputName, EntityNames())
    {
      outputName := inputName;
      while ItemExistsInMap(outputName, opaqueEntities) || ItemExistsInMap(outputName, transparentEntities)
        invariant FreshName(outputName, EntityNames()) == FreshName(inputName, EntityNames())
        decreases AtLeastAsLong(EntityNames(), |outputName|)
      {
        assert outputName !in AtLeastAsLong(EntityNames(), |outputName| + 1);
        outputName := outputName + "1";
      }
    }

    method AddEntity(name: string, entity: Entity?) returns (r: Outcome)
      requires Valid()
      modifies this`opaqueEntities, this`transparentEntities, this`highestZIndex
      modifies EntitiesOf(entity)`parentScene, EntitiesOf(entity)`name
      ensures Valid()
      ensures entity == null ==> r == Thrown(NullEntity) && unchanged(this)
      ensures entity != null ==>
        var key := FreshName(name, old(EntityNames()));
        && r == Done
        && entity.name == key && entity.parentScene == this
        && (entity.hasTransparency ==>
              transparentEntities == old(transparentEntities)[key := entity] && opaqueEntities == old(opaqueEntities))
        && (!entity.hasTransparency ==>
              opaqueEntities == old(opaqueEntities)[key := entity] && transparentEntities == old(transparentEntities))
        && highestZIndex == if entity.transform.zIndex > old(highestZIndex) then entity.transform.zIndex
                            else old(highestZIndex)
    {
      if entity == null {
        return Thrown(NullEntity);
      }
      entity.parentScene := this;
      var validName := GetValidName(name);
      entity.name := validName;
      if entity.transform.zIndex > highestZIndex {
        highestZIndex := entity.transform.zIndex;
      }
      if entity.hasTransparency {
        transparentEntities := transparentEntities[validName := entity];
      } else {
        opaqueEntities := opaqueEntities[validName := entity];
      }
      r := Done;
    }

    /** The zIndex of the entity registered under `name`. */
    ghost function ZIndexOf(name: string): nat
      requires name in EntityNames()
      reads this, opaqueEntities.Values, transparentEntities.Values
    {
      if name in opaqueEntities then opaqueEntities[name].transform.zIndex
      else transparentEntities[name].transform.zIndex
    }

    /** Removes `name` from the map that holds it. highestZIndex is only ever raised:
        removing the entity that held it leaves it as it was unless some entity now
        exceeds it. */
    method RemoveEntity(name: string)
      requires Valid()
      modifies this`opaqueEntities, this`transparentEntities, this`highestZIndex
      ensures Valid()
      ensures name in old(opaqueEntities) ==>
                opaqueEntities == old(opaqueEntities) - {name} && transparentEntities == old(transparentEntities)
      ensures name !in old(opaqueEntities) ==>
                opaqueEntities == old(opaqueEntities) && transparentEntities == old(transparentEntities) - {name}
      ensures name !in EntityNames()
      ensures highestZIndex >= old(highestZIndex)
      ensures !(name in old(EntityNames()) && old(ZIndexOf(name)) == old(highestZIndex)) ==>
                highestZIndex == old(highestZIndex)
      ensures name in old(EntityNames()) && old(ZIndexOf(name)) == old(highestZIndex) ==> AllBelowHighest()
      ensures highestZIndex == old(highestZIndex) || HeldBySomeEntity(highestZIndex)
    {
      if ItemExistsInMap(name, opaqueEntities) {
        var removedEntityZIndex := opaqueEntities[name].transform.zIndex;
        opaqueEntities := opaqueEntities - {name};
        if removedEntityZIndex == highestZIndex {
          UpdateHighestZIndex();
        }
      } else if ItemExistsInMap(name, transparentEntities) {
        var removedEntityZIndex := transparentEntities[name].transform.zIndex;
        transparentEntities := transparentEntities - {name};
        if removedEntityZIndex == highestZIndex {
          UpdateHighestZIndex();
        }
      }
    }

    /** Raises highestZIndex to the largest zIndex among the registered entities
        when that is larger; it never lowers it. The maps are visited in an
        arbitrary order, which cannot change the outcome. */
    method UpdateHighestZIndex()
      modifies this`highestZIndex
      ensures highestZIndex >= old(highestZIndex)
      ensures AllBelowHighest()
      ensures highestZIndex == old(highestZIndex) || HeldBySomeEntity(highestZIndex)
    {
      var pending := opaqueEntities.Keys;
      while pending != {}
        invariant pending <= opaqueEntities.Keys
        invariant highestZIndex >= old(highestZIndex)
        invariant forall k | k in opaqueEntities && k !in pending :: opaqueEntities[k].transform.zIndex <= highestZIndex
        invariant highestZIndex == old(highestZIndex) || HeldBySomeEntity(highestZIndex)
        decreases pending
      {
        var k :| k in pending;
        var iteratedEntity := opaqueEntities[k];
        if iteratedEntity.transform.zIndex > highestZIndex {
          highestZIndex := iteratedEntity.transform.zIndex;
        }
        pending := pending - {k};
      }
      pending := transparentEntities.Keys;
      while pending != {}
        invariant pending <= transparentEntities.Keys
        invariant highestZIndex >= old(highestZIndex)
        invariant forall k | k in opaqueEntities :: opaqueEntities[k].transform.zIndex <= highestZIndex
        invariant forall k | k in transparentEntities && k !in pending ::
                    transparentEntities[k].transform.zIndex <= highestZIndex
        invariant highestZIndex == old(highestZIndex) || HeldBySomeEntity(highestZIndex)
        decreases pending
      {
        var k :| k in pending;
        var iteratedEntity := transparentEntities[k];
        if iteratedEntity.transform.zIndex > highestZIndex {
          highestZIndex := iteratedEntity.transform.zIndex;
        }
        pending := pending - {k};
      }
    }

    /** The opaque entry if there is one, else the transparent entry, else none. */
    function GetEntity(name: string): (r: Option<Entity>)
      reads this
      ensures r.Some? <==> name in EntityNames()
      ensures name in opaqueEntities ==> r == Some(opaqueEntities[name])
      ensures name !in opaqueEntities && name in transparentEntities ==> r == Some(transparentEntities[name])
    {
      if ItemExistsInMap(name, opaqueEntities) then Some(opaqueEntities[name])
      else if ItemExistsInMap(name, transparentEntities) then Some(transparentEntities[name])
      else None
    }

    /** Re-files the entity under its own name in the map that matches its current
        transparency flag. */
    method UpdateEntityTransparency(entity: Entity?) returns (r: Outcome)
      requires Valid()
      modifies this`opaqueEntities, this`transparentEntities, this`highestZIndex
      modifies EntitiesOf(entity)`parentScene, EntitiesOf(entity)`name
      ensures Valid()
      ensures entity == null ==> r == Thrown(NullEntity) && unchanged(this)
      ensures entity != null && old(entity.parentScene) != this ==>
                r == Thrown(ForeignEntity) && unchanged(this) && unchanged(entity)
      ensures entity != null && old(entity.parentScene) == this ==>
        var key := old(entity.name);
        && r == Done
        && entity.name == key && entity.parentScene == this
        && (entity.hasTransparency ==>
              transparentEntities == old(transparentEntities)[key := entity] && opaqueEntities == old(opaqueEntities) - {key})
        && (!entity.hasTransparency ==>
              opaqueEntities == old(opaqueEntities)[key := entity] && transparentEntities == old(transparentEntities) - {key})
        && highestZIndex >= old(highestZIndex) && highestZIndex >= entity.transform.zIndex
        && (highestZIndex == old(highestZIndex) || HeldBySomeEntity(highestZIndex))
        && (!(key in old(EntityNames()) && old(ZIndexOf(key)) == old(highestZIndex)) ==>
              highestZIndex == if entity.transform.zIndex > old(highestZIndex) then entity.transform.zIndex
                               else old(highestZIndex))
        && (key in old(EntityNames()) && old(ZIndexOf(key)) == old(highestZIndex) ==> AllBelowHighest())
    {
      if entity == null {
        return Thrown(NullEntity);
      }
      if entity.parentScene != this {
        return Thrown(ForeignEntity);
      }
      var key := entity.name;
      RemoveEntity(key);
      ghost var removedOpaque, removedTransparent, removedHighest := opaqueEntities, transparentEntities, highestZIndex;
      assert FreshName(key, EntityNames()) == key;
      r := AddEntity(key, entity);
      if highestZIndex != old(highestZIndex) && highestZIndex != entity.transform.zIndex {
        // The maximum survived from the removal, held by an entity AddEntity left in place.
        assert highestZIndex == removedHighest;
        if exists k | k in removedOpaque :: removedOpaque[k].transform.zIndex == removedHighest {
          var k :| k in removedOpaque && removedOpaque[k].transform.zIndex == removedHighest;
          assert k in opaqueEntities && opaqueEntities[k] == removedOpaque[k];
        } else {
          var k :| k in removedTransparent && removedTransparent[k].transform.zIndex == removedHighest;
          assert k in transparentEntities && transparentEntities[k] == removedTransparent[k];
        }
      } else if highestZIndex != old(highestZIndex) {
        assert entity.hasTransparency ==> transparentEntities[key] == entity;
        assert !entity.hasTransparency ==> opaqueEntities[key] == entity;
      }
    }

    /** Records a call of Scene::UpdateEntityCollider. */
    method UpdateEntityCollider(name: string, collider: Collider?)
      modifies this`colliderUpdates
      ensures colliderUpdates == old(colliderUpdates) + [ColliderUpdate(name, collider)]
    {
      colliderUpdates := colliderUpdates + [ColliderUpdate(name, collider)];
    }

    /** Issues the next id, stamps it on the listener and appends it to its kind's vector. */
    method AddListener(kind: EventType, listenerToAdd: EventListener) returns (listenerId: nat)
      requires Valid()
      modifies this`listeners, this`listenersCreated
      ensures Valid()
      ensures listenerId == old(listenersCreated) && listenersCreated == listenerId + 1
      ensures listeners == old(listeners)[kind := old(listeners[kind]) + [listenerToAdd.(id := listenerId)]]
    {
      listenerId := listenersCreated;
      listenersCreated := listenersCreated + 1;
      var added := listenerToAdd.(id := listenerId);
      listeners := listeners[kind := listeners[kind] + [added]];
    }

    /** Linear search: the first index holding `id`, or -1. */
    method IndexOfListener(kind: EventType, id: nat) returns (index: int)
      requires Valid()
      ensures -1 <= index < |listeners[kind]|
      ensures index >= 0 ==> listeners[kind][index].id == id
      ensures index >= 0 ==> forall j | 0 <= j < index :: listeners[kind][j].id != id
      ensures index == -1 <==> forall j | 0 <= j < |listeners[kind]| :: listeners[kind][j].id != id
    {
      var listenersVector := listeners[kind];
      for i := 0 to |listenersVector|
        invariant forall j | 0 <= j < i :: listenersVector[j].id != id
      {
        if listenersVector[i].id == id {
          return i;
        }
      }
      return -1;
    }

    /** Erases the listener with that id, if any, keeping the order of the others. */
    method RemoveListener(kind: EventType, id: nat)
      requires Valid()
      modifies this`listeners
      ensures Valid()
      ensures listeners == old(listeners)[kind := Without(old(listeners[kind]), id)]
    {
      var listenerIndex := IndexOfListener(kind, id);
      ghost var before := listeners[kind];
      WithoutKeepsIncreasing(before, listenersCreated, id);
      if listenerIndex != -1 {
        EraseIsWithout(before, listenersCreated, listenerIndex, id);
        listeners := listeners[kind := listeners[kind][..listenerIndex] + listeners[kind][listenerIndex + 1..]];
      } else {
        WithoutAbsent(before, id);
      }
    }
  }

  class RigidBody2D {
    var velocity: Vec2
    var linearDrag: real
    var gravityScale: real
    var isSimulated: bool
    var isStatic: bool
    var parentEntity: Entity?
    var attachedCollider: Collider?

    constructor ()
      ensures velocity == Zero2 && linearDrag == 0.0 && gravityScale == 1.0
      ensures isSimulated && !isStatic && parentEntity == null && attachedCollider == null
    {
      velocity := Zero2;
      linearDrag := 0.0;
      gravityScale := 1.0;
      isSimulated := true;
      isStatic := false;
      parentEntity := null;
      attachedCollider := null;
    }

    function ParentSet(): set<Entity>
      reads this
    {
      EntitiesOf(parentEntity)
    }

    /** The scene of the parent entity, if both exist. */
    function SceneSet(): set<Scene>
      reads this, ParentSet()
    {
      SceneSetOf(parentEntity)
    }

    /** One integration step: velocity and the entity's offset position change,
        nothing else. Skipped bodies never throw; a simulated, dynamic body throws
        before changing anything when it is detached or its entity has no scene. */
    method Update() returns (r: Outcome)
      modifies this`velocity, ParentSet()`transform
      ensures !isSimulated || isStatic || parentEntity == null || parentEntity.parentScene == null ==>
                velocity == old(velocity) && (parentEntity != null ==> parentEntity.transform == old(parentEntity.transform))
      ensures !isSimulated || isStatic ==> r == Done
      ensures isSimulated && !isStatic && parentEntity == null ==> r == Thrown(DetachedBody)
      ensures isSimulated && !isStatic && parentEntity != null && parentEntity.parentScene == null ==>
                r == Thrown(BodyWithoutScene)
      ensures isSimulated && !isStatic && parentEntity != null && parentEntity.parentScene != null ==>
        var scene := parentEntity.parentScene;
        && r == Done
        && velocity == StepVelocity(old(velocity), linearDrag, scene.gravity, gravityScale, scene.deltaTime)
        && parentEntity.transform == old(parentEntity.transform).(offsetPosition :=
             StepOffset(old(parentEntity.transform.offsetPosition), velocity, scene.deltaTime, scene.pixelsPerMetre))
    {
      if !isSimulated || isStatic {
        return Done;
      }
      if parentEntity == null {
        return Thrown(DetachedBody);
      }
      if parentEntity.parentScene == null {
        return Thrown(BodyWithoutScene);
      }
      var scene := parentEntity.parentScene;
      var acceleration := Vec2(-linearDrag * velocity.x, -(scene.gravity * gravityScale) - linearDrag * velocity.y)
                            .Scale(scene.deltaTime);
      velocity := velocity.Plus(acceleration);
      var t := parentEntity.transform;
      parentEntity.transform := t.(offsetPosition :=
        t.offsetPosition.Plus(velocity.Scale(scene.deltaTime).Scale(scene.pixelsPerMetre)));
      r := Done;
    }

    function GetAttachedCollider(): Collider?
      reads this
    {
      attachedCollider
    }

    /** Links the body to the collider (or unlinks it with null) and reports the
        change to the entity's scene when there is one. A previously attached
        collider keeps its back-pointer. */
    method SetAttachedCollider(colliderToAttach: Collider?)
      modifies this`attachedCollider, CollidersOf(colliderToAttach)`attachedRigidBody, SceneSet()`colliderUpdates
      ensures GetAttachedCollider() == colliderToAttach
      ensures colliderToAttach != null ==> colliderToAttach.attachedRigidBody == this
      ensures parentEntity != null && parentEntity.parentScene != null ==>
                parentEntity.parentScene.colliderUpdates
                  == old(parentEntity.parentScene.colliderUpdates) + [ColliderUpdate(parentEntity.name, colliderToAttach)]
    {
      attachedCollider := colliderToAttach;
      if colliderToAttach != null {
        colliderToAttach.attachedRigidBody := this;
      }
      if parentEntity != null && parentEntity.parentScene != null {
        parentEntity.parentScene.UpdateEntityCollider(parentEntity.name, colliderToAttach);
      }
    }

    /** Removing the body from its entity first detaches its collider. */
    method SetParentEntity(parent: Entity?)
      modifies this`attachedCollider, this`parentEntity, SceneSet()`colliderUpdates
      ensures parentEntity == parent
      ensures parent == null ==> attachedCollider == null
      ensures parent != null ==> attachedCollider == old(attachedCollider) && unchanged(old(SceneSet()))
      ensures parent == null && old(parentEntity) != null && old(parentEntity.parentScene) != null ==>
                old(parentEntity.parentScene).colliderUpdates
                  == old(parentEntity.parentScene.colliderUpdates) + [ColliderUpdate(old(parentEntity.name), null)]
    {
      if parent == null {
        SetAttachedCollider(null);
      }
      parentEntity := parent;
    }

    /** The destructor: the attached collider no longer points back at this body. */
    method Destroy()
      modifies CollidersOf(attachedCollider)`attachedRigidBody
      ensures attachedCollider != null ==> attachedCollider.attachedRigidBody == null
    {
      if attachedCollider != null {
        attachedCollider.attachedRigidBody := null;
      }
    }
  }

  class Collider {
    var colliderType: BoxColliders.ColliderType
    var componentType: ComponentType
    /** Scale relative to the parent entity's size. */
    var size: Vec2
    /** Offset from the parent entity's position. */
    var position: Vec2
    var attachedRigidBody: RigidBody2D?
    var parentEntity: Entity?

    /** BoxCollider(position, size). */
    constructor Box(position: Vec2, size: Vec2)
      ensures colliderType == BoxColliders.BoundingBoxCollider && componentType == ComponentType.BoxCollider
      ensures this.position == position && this.size == size
      ensures attachedRigidBody == null && parentEntity == null
    {
      colliderType := BoxColliders.BoundingBoxCollider;
      componentType := ComponentType.BoxCollider;
      this.position := position;
      this.size := size;
      attachedRigidBody := null;
      parentEntity := null;
    }

    /** The collider as the geometry of BoxColliders sees it, given the parent
        entity's global placement (which the camera determines). */
    function Geometry(placement: BoxColliders.Placement): (g: BoxColliders.BoxCollider)
      reads this
      ensures g.parent.Some? <==> parentEntity != null
    {
      BoxColliders.BoxCollider(colliderType, position, size, if parentEntity == null then None else Some(placement))
    }

    function SceneSet(): set<Scene>
      reads this, EntitiesOf(parentEntity)
    {
      SceneSetOf(parentEntity)
    }

    /** BoxCollider::CheckCollision between two colliders, each seen from its
        entity's placement: a collider without an entity cannot be tested, and
        two box colliders give the same answer in either order. */
    lemma CollisionThroughEntities(other: Collider, placement: BoxColliders.Placement,
                                   otherPlacement: BoxColliders.Placement)
      ensures parentEntity == null ==>
                BoxColliders.CheckCollision(Geometry(placement), other.Geometry(otherPlacement))
                  == Fail(DetachedCollider)
      ensures colliderType == BoxColliders.BoundingBoxCollider && other.colliderType == BoxColliders.BoundingBoxCollider ==>
                BoxColliders.CheckCollision(Geometry(placement), other.Geometry(otherPlacement))
                  == BoxColliders.CheckCollision(other.Geometry(otherPlacement), Geometry(placement))
    {
      if colliderType == BoxColliders.BoundingBoxCollider && other.colliderType == BoxColliders.BoundingBoxCollider {
        BoxColliders.CollisionSymmetric(Geometry(placement), other.Geometry(otherPlacement));
      }
    }

    /** Detaching from an entity that is in a scene reports exactly one
        UpdateEntityCollider(name, null); every other case only sets the field. */
    method SetParentEntity(parent: Entity?)
      modifies this`parentEntity, SceneSet()`colliderUpdates
      ensures parentEntity == parent
      ensures parent == null && old(parentEntity) != null && old(parentEntity.parentScene) != null ==>
                old(parentEntity.parentScene).colliderUpdates
                  == old(parentEntity.parentScene.colliderUpdates) + [ColliderUpdate(old(parentEntity.name), null)]
      ensures !(parent == null && old(parentEntity) != null && old(parentEntity.parentScene) != null) ==>
                unchanged(old(SceneSet()))
    {
      if parent == null && parentEntity != null && parentEntity.parentScene != null {
        parentEntity.parentScene.UpdateEntityCollider(parentEntity.name, null);
      }
      parentEntity := parent;
    }

    function BodyScenes(): set<Scene>
      reads this, BodiesOf(attachedRigidBody),
            if attachedRigidBody == null then {} else attachedRigidBody.ParentSet()
    {
      if attachedRigidBody == null then {} else attachedRigidBody.SceneSet()
    }

    /** The destructor: the attached rigid body is told to drop its collider,
        which reports the detachment to the body's scene. */
    method Destroy()
      modifies BodiesOf(attachedRigidBody)`attachedCollider, BodyScenes()`colliderUpdates
      ensures attachedRigidBody != null ==> attachedRigidBody.attachedCollider == null
      ensures attachedRigidBody != null && attachedRigidBody.parentEntity != null
              && attachedRigidBody.parentEntity.parentScene != null ==>
                attachedRigidBody.parentEntity.parentScene.colliderUpdates
                  == old(attachedRigidBody.parentEntity.parentScene.colliderUpdates)
                     + [ColliderUpdate(attachedRigidBody.parentEntity.name, null)]
    {
      if attachedRigidBody != null {
        attachedRigidBody.SetAttachedCollider(null);
      }
    }
  }
}
