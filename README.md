# Graphics-Renderer engine core in Dafny

This project models the non-graphical core of a small C++ 2D engine built on
OpenGL and glm. It covers:

- **Scene registry.** A scene keeps its entities in two name-keyed maps, one
  for opaque and one for transparent entities. A requested name that is
  already taken gets "1"s appended until it is free. The scene tracks the
  highest zIndex it has seen and keeps per-event vectors of listeners with
  counter-issued ids. Before drawing, it sorts the transparent entities back to
  front with a Lomuto quicksort on zIndex.
- **Entities and components.** An entity holds a table of components, at most
  one per component type.
- **Rigid bodies and colliders.** A rigid body integrates velocity with
  linear drag and gravity, then moves its entity's offset position. It is
  linked both ways to a collider, and every link change is reported to the
  entity's scene.
- **Box colliders.** Their sides and corners are computed from the parent
  entity's global placement. Two boxes collide under a strict test on both
  axes.
- **Resource manager.** Shader programs and textures are stored by name, under
  the same "append 1s" rule.
- **Tweens.** Four kinds of tween move an int, a float, a vec2 or a vec3 from
  a start value to a target over a duration. The int and vec2 tweens can wait
  for a delay first and can write through a setter callback. A tween manager
  issues ids and updates every stored tween once per frame.

The files follow the source's own structure:

- **Pure code becomes functions and lemmas.** This covers the box geometry
  (`BoxCollider.dfy`), the rigid-body step (`Motion.dfy`), the naming rule
  (`Names.dfy`) and the tween arithmetic (`Tween.dfy`).
- **Objects the source updates in place become classes with `modifies`
  frames.** These are `Entity`, `Scene`, `RigidBody2D` and `Collider`
  (`Engine.dfy`), `ResourceManager` (`Resources.dfy`), the tween classes
  (`IntTween.dfy`, `Vec2Tween.dfy`, `FloatTween.dfy`, `Vec3Tween.dfy`) and
  `TweenManager` (`TweenManager.dfy`).
- **The source's loops are loops with invariants.** These are name search,
  listener search, listener-map setup, the highest-zIndex scan, the partition
  loop and the tween pass.
- **The quicksort works in place on an array of entity references**
  (`ZOrder.dfy`).

Methods that throw in the source return an `Outcome` (`Done` or
`Thrown(error)`), or a `Result` when they also return a value. Each method's
`ensures` states its new state, mostly in terms of specification functions;
the exceptions are listed under "Left out". Lemmas prove what those
functions promise:

- a fresh name is the shortest free one;
- the sort is an ascending permutation;
- the overlap test means "a common interior point";
- drag never speeds a body up;
- an interpolated value stays between start and target and ends on the target;
- the tween clock stops exactly when the steps reach the end.

The accessors `Entity.ComponentExists`, `Entity.GetComponents`,
`RigidBody2D.GetAttachedCollider` and `Tween.GetState` are modelled as plain
reads. They appear inside the contracts of the members below.

The class headers in the source lag behind the `.cpp` files:

- `Scene.h` lacks `highestZIndex`, `gravity`, `pixelsPerMetre` and
  `UpdateEntityCollider`;
- `RigidBody2D.h` lacks `isStatic` and the parent and collider pointers;
- the tween headers lack `_duration`, `_delay`, `useSetter` and the setter
  constructors.

The model follows the `.cpp` files.

## Model

| member | source | states |
|---|---|---|
| `Names.FreshName` | Solution/Scene.cpp:390-402 | The chosen name is free, is the requested name followed only by "1"s, every shorter such candidate is taken, and a free requested name is kept unchanged |
| `Engine.Entity.constructor` | Solution/Entity.cpp:3-6 | A new entity is active, unnamed, has the given transform, no scene and no components |
| `Engine.Entity.GetBaseComponent` | Solution/Entity.cpp:49-55 | A component is returned exactly when one of that type is stored, and it is the stored one; the lookup never inserts |
| `Engine.Entity.GetComponent` | Solution/Entity.h:66-74 | Same guarded lookup as GetBaseComponent: none exactly when the type is absent |
| `Engine.Entity.AddComponent` | Solution/Entity.cpp:8-20 | The component's parent becomes this entity in every case; it is inserted only when its type is absent, and an existing entry is never replaced |
| `Engine.Entity.RemoveComponent` | Solution/Entity.cpp:24-36 | Exactly the entry of that type is removed (none if absent) and every other entry stays |
| `Engine.Scene.constructor` | Solution/Scene.cpp:7-22 | A new scene has empty entity maps, highestZIndex 0, an empty listener vector for every event type and a listener counter at 0 |
| `Engine.Scene.IntialiseListenerMap` | Solution/Scene.cpp:352-363 | After the loop over the enum, every event type maps to an empty listener vector |
| `Engine.Scene.GetValidName` | Solution/Scene.cpp:390-402 | The loop returns FreshName of the requested name against the names of both maps |
| `Engine.Scene.AddEntity` | Solution/Scene.cpp:29-52 | A null entity throws and changes nothing; otherwise the entity gets this scene and a fresh name, goes into the map matching its transparency, and highestZIndex becomes the maximum of itself and the entity's zIndex; no name ends up in both maps |
| `Engine.Scene.RemoveEntity` | Solution/Scene.cpp:54-83 | The name leaves whichever map held it and the other map is untouched; highestZIndex never drops and changes only when the removed entity held it; then it bounds every remaining entity and, if it moved, some remaining entity holds it, so it is exactly the maximum of the old value and every remaining zIndex |
| `Engine.Scene.UpdateHighestZIndex` | Solution/Scene.cpp:115-139 | Afterwards highestZIndex is at least its old value and at least every registered zIndex, and if it changed some entity holds it |
| `Engine.Scene.GetEntity` | Solution/Scene.cpp:85-97 | Some entity exactly when the name is registered; the opaque entry wins, otherwise the transparent one |
| `Engine.Scene.UpdateEntityTransparency` | Solution/Scene.cpp:99-113 | Null and foreign entities throw and change nothing; otherwise the entity is re-filed under its own name in the map matching its current flag and removed from the other; highestZIndex becomes the maximum of the old value and the entity's zIndex, or, when the entity held the old maximum, the maximum over the old value and every registered zIndex |
| `Engine.Scene.UpdateEntityCollider` | Solution/RigidBody2D.cpp:89-91 | Each call is appended to the scene's log of collider updates |
| `Engine.Scene.AddListener` | Solution/Scene.cpp:296-309 | The returned id is the old counter value, the counter goes up by one, and the listener stamped with that id is appended to its type's vector only |
| `Engine.Scene.IndexOfListener` | Solution/Scene.cpp:365-381 | Returns the first index whose listener has the id, or -1 exactly when no listener has it |
| `Engine.Scene.RemoveListener` | Solution/Scene.cpp:311-322 | The type's vector becomes the old vector without the listener of that id, in order; ids stay strictly increasing |
| `Engine.WithoutSpec` | Solution/Scene.cpp:311-322 | A listener survives removal exactly when it was present and its id differs |
| `Engine.WithoutAbsent` | Solution/Scene.cpp:316-319 | Removing an id that no listener has leaves the vector unchanged |
| `Engine.EraseIsWithout` | Solution/Scene.cpp:319 | With strictly increasing ids, erasing the found index equals removing every listener with that id |
| `Engine.WithoutKeepsIncreasing` | Solution/Scene.cpp:311-322 | Removal keeps the ids strictly increasing and below the counter |
| `Engine.RigidBody2D.constructor` | Solution/RigidBody2D.h:13-23 | A new body is at rest with drag 0, gravity scale 1, simulated, dynamic and unlinked |
| `Engine.RigidBody2D.Update` | Solution/RigidBody2D.cpp:11-75 | Unsimulated or static bodies return and change nothing; a detached body or one whose entity has no scene throws before changing anything; otherwise velocity becomes Motion.StepVelocity and only the entity's offset position moves, by Motion.StepOffset |
| `Engine.RigidBody2D.SetAttachedCollider` | Solution/RigidBody2D.cpp:82-92 | The body points at the collider and a non-null collider points back; the change is reported once to the entity's scene when there is one |
| `Engine.RigidBody2D.SetParentEntity` | Solution/RigidBody2D.cpp:94-103 | The parent is set; clearing it first detaches the collider and reports that to the old scene; setting it changes nothing else |
| `Engine.RigidBody2D.Destroy` | Solution/RigidBody2D.cpp:4-9 | The attached collider no longer points back at the body |
| `Engine.Collider.Box` | Solution/BoxCollider.cpp:6-12 | A new box collider has the bounding-box type, the BoxCollider component type, the given offset and scale, and no links |
| `Engine.Collider.Geometry` | Solution/BoxCollider.cpp:86-88 | The geometric view has a parent placement exactly when the collider has a parent entity |
| `Engine.Collider.CollisionThroughEntities` | Solution/BoxCollider.cpp:14-42 | Testing a collider that has no entity throws DetachedCollider; two box colliders on entities give the same answer in either order |
| `Engine.Collider.SetParentEntity` | Solution/Collider.cpp:13-23 | Detaching from an entity that is in a scene reports (name, null) once to that scene; every other case changes only the field |
| `Engine.Collider.Destroy` | Solution/Collider.cpp:6-11 | The attached body drops its collider, and the detachment (name, null) is reported once to the body's scene when there is one |
| `BoxColliders.GetBoundingSides` | Solution/BoxCollider.cpp:80-103 | Throws exactly for a detached collider; otherwise left and bottom are entity position plus offset, and width and height are entity size times collider scale |
| `BoxColliders.GetBoundingVertices` | Solution/BoxCollider.cpp:54-78 | Throws exactly for a detached collider |
| `BoxColliders.CheckCollision` | Solution/BoxCollider.cpp:14-52 | Throws if this collider is detached, then if the other is not a bounding box, then if the other is detached; otherwise it returns the strict overlap of both pairs of sides |
| `BoxColliders.SidesOrdered` | Solution/BoxCollider.cpp:96-101 | With non-negative entity size and collider scale, left <= right and bottom <= top |
| `BoxColliders.VerticesMatchSides` | Solution/BoxCollider.cpp:70-75 | The four corners are exactly (left, bottom), (right, bottom), (left, top) and (right, top) |
| `BoxColliders.OverlapsIffCommonInteriorPoint` | Solution/BoxCollider.cpp:39-42 | For boxes of positive extent, the four strict comparisons hold exactly when some point lies strictly inside both boxes |
| `BoxColliders.CollisionSymmetric` | Solution/BoxCollider.cpp:39-42 | For two box colliders the test gives the same answer in both orders |
| `BoxColliders.TouchingIsNotColliding` | Solution/BoxCollider.cpp:39-42 | Boxes that only share an edge, on either side in x or in y, do not collide |
| `Motion.StepVelocityFactored` | Solution/RigidBody2D.cpp:62-71 | One step multiplies each velocity component by (1 - drag dt) and subtracts gravity times scale times dt from y |
| `Motion.DragDecays` | Solution/RigidBody2D.cpp:62-71 | Without gravity and with 0 <= drag dt <= 1, a step never flips or grows a component, and it strictly shrinks a non-zero component when drag dt > 0 |
| `Motion.DragNeverGrows` | Solution/RigidBody2D.cpp:62-71 | Any number of drag-only steps leaves each component no larger and of the same sign |
| `ZOrder.Swap` | Solution/Scene.cpp:148 | Exactly the two cells are exchanged and the multiset of entities is kept |
| `ZOrder.Partition` | Solution/Scene.cpp:141-155 | The last entity ends at the returned index inside the range, every entity before it has a smaller zIndex and every one after has at least its zIndex, and the array is a permutation that moves nothing outside the range |
| `ZOrder.QuicksortStep` | Solution/Scene.cpp:159-163 | A partitioned range whose two sides were sorted in place is an ascending permutation of the range |
| `ZOrder.Quicksort` | Solution/Scene.cpp:157-165 | The range v[start..end] ends up ascending in zIndex and is a permutation of itself, and cells outside it are untouched; an empty range changes nothing |
| `ZOrder.SortByZIndex` | Solution/Scene.cpp:226-227 | The whole vector ends up ascending in zIndex and holds the same entity references |
| `Resources.GetValidNameForMap` | Solution/ResourceManager.cpp:169-182 | The loop returns FreshName of the requested name against the map's keys |
| `Resources.NewTexture` | Solution/ResourceManager.cpp:129-138 | The texture has the given name, zero size, and RGBA formats exactly when alpha is asked for |
| `Resources.ResourceManager.constructor` | Solution/ResourceManager.cpp:19-20 | Both maps start empty |
| `Resources.ResourceManager.GetShader` | Solution/ResourceManager.cpp:36-44 | Some program exactly when the name is stored, and it is the stored one |
| `Resources.ResourceManager.GetTexture` | Solution/ResourceManager.cpp:59-67 | Some texture exactly when the name is stored, and it is the stored one |
| `Resources.ResourceManager.LoadShaderProgram` | Solution/ResourceManager.cpp:23-34 | The program is stored under FreshName of the name, which was not taken, so nothing is replaced and every other lookup is unchanged; every stored resource is keyed by its own name |
| `Resources.ResourceManager.LoadTexture` | Solution/ResourceManager.cpp:46-57 | An unreadable image throws and stores nothing; otherwise the texture, with the image's size and the alpha formats, is stored under a fresh name and returned |
| `Resources.ResourceManager.Clear` | Solution/ResourceManager.cpp:69-83 | Both maps become empty and the ids of every stored program and texture are released |
| `Tweens.Tween.constructor` | Solution/Tween.h:26-54 | A new tween is inactive with its clock at 0 and id 0 |
| `Tweens.Tween.Resume` | Solution/Tween.cpp:8-12 | The state becomes Active and nothing else changes, so the clock is kept |
| `Tweens.Tween.Stop` | Solution/Tween.cpp:14-18 | The state becomes InActive and nothing else changes |
| `Tweens.Advance` | Solution/IntTween.cpp:46-55 | The clock ends exactly when progressed + dt reaches the end; it is then set to the end and otherwise advanced by dt, so it never passes the end |
| `Tweens.RunEndsOnTime` | Solution/IntTween.cpp:46-55 | Over any run of non-negative steps the clock stays within [start, end], and it has ended exactly when the steps add up to the time that was left |
| `Tweens.LerpBetween` | Solution/FloatTween.cpp:44 | For fractions in [0, 1] the interpolation stays between start and target, gives start at 0 and target at 1, and is monotone in the fraction |
| `Tweens.Trunc` | Solution/IntTween.cpp:63 | The int conversion truncates toward zero |
| `Tweens.IntLerpBetween` | Solution/IntTween.cpp:63 | The truncated int interpolation never leaves [start, target] and reaches the target at fraction 1 |
| `Tweens.DelayedFraction` | Solution/IntTween.cpp:58-63 | Past the delay and within the end, the share that has run lies in (0, 1] and is 1 exactly at the end |
| `Tweens.RatioAsWritten` | Solution/FloatTween.cpp:44 | The division progressed / duration has no real value exactly when the duration is 0 |
| `Tweens.ZeroDurationWritesNaN` | Solution/FloatTween.cpp:32-44 | A started zero-duration tween ends on its first update with the clock at 0 and divides 0 by 0 |
| `Tweens.Ratio` | Solution/FloatTween.cpp:44 | Agrees with the source's division for every non-zero duration |
| `Tweens.RatioAtEnd` | Solution/FloatTween.cpp:37-44 | Once the clock has been cut to the duration, the corrected share is exactly 1 for every duration |
| `Tweens.RatioInRange` | Solution/FloatTween.cpp:41-44 | While the clock is within [0, duration] the share lies in [0, 1] |
| `IntTweens.WrittenValue` | Solution/IntTween.cpp:58-70 | Nothing is written until the clock passes the delay; a written value lies between start and target and equals the target when the clock reaches duration + delay |
| `IntTweens.ZeroDurationEndsUnwritten` | Solution/IntTween.cpp:46-63 | With duration 0 the update that ends the tween leaves the clock at the delay and writes nothing, so the target is never written |
| `IntTweens.IntTween.WithPointer` | Solution/IntTween.cpp:4-14 | An inactive pointer-mode tween with the given values |
| `IntTweens.IntTween.WithSetter` | Solution/IntTween.cpp:16-27 | An inactive setter-mode tween with a null pointer |
| `IntTweens.IntTween.Update` | Solution/IntTween.cpp:29-73 | Inactive: nothing changes. Active with a null pointer: stops and throws. Otherwise the clock follows Advance to duration + delay, the tween stops exactly when it ends, and WrittenValue goes to exactly one sink, the one useSetter selects |
| `IntTweens.IntTween.Start` | Solution/IntTween.cpp:75-85 | The start value goes to the selected sink, the clock is reset to 0 and the tween is active |
| `Vec2Tweens.WrittenValue` | Solution/Vec2Tween.cpp:58-70 | Nothing is written until the clock passes the delay; each written component lies between its start and target, and the value is the target when the clock reaches duration + delay |
| `Vec2Tweens.ZeroDurationEndsUnwritten` | Solution/Vec2Tween.cpp:46-63 | With duration 0 the update that ends the tween leaves the clock at the delay and writes nothing, so the target is never written |
| `Vec2Tweens.Vec2Tween.WithPointer` | Solution/Vec2Tween.cpp:4-14 | An inactive pointer-mode tween with the given values |
| `Vec2Tweens.Vec2Tween.WithSetter` | Solution/Vec2Tween.cpp:16-27 | An inactive setter-mode tween with a null pointer |
| `Vec2Tweens.Vec2Tween.Update` | Solution/Vec2Tween.cpp:29-71 | As the int tween: no-op when inactive, stop and throw on a null pointer, otherwise the clock follows Advance and WrittenValue goes to exactly one sink |
| `Vec2Tweens.Vec2Tween.Start` | Solution/Vec2Tween.cpp:73-83 | The start value goes to the selected sink, the clock is reset to 0 and the tween is active |
| `FloatTweens.WrittenValue` | Solution/FloatTween.cpp:44 | While the clock is within [0, duration] the value lies between start and target, and it is exactly the target once the clock reaches the duration, for every duration including 0 |
| `FloatTweens.FloatTween.constructor` | Solution/FloatTween.cpp:5-13 | An inactive tween with the given pointer and values |
| `FloatTweens.FloatTween.Update` | Solution/FloatTween.cpp:15-46 | Inactive: nothing changes. A null pointer: stops and throws. Otherwise the clock follows Advance to the duration, the tween stops exactly when it ends, and every such update writes WrittenValue |
| `FloatTweens.FloatTween.Start` | Solution/FloatTween.cpp:48-53 | The start value is written, the clock is reset to 0 and the tween is active |
| `Vec3Tweens.WrittenValue` | Solution/Vec3Tween.cpp:44-46 | Each component is interpolated with the same share; within [0, duration] each lies between its start and target, and at the duration the value is the target |
| `Vec3Tweens.Vec3Tween.constructor` | Solution/Vec3Tween.cpp:5-13 | An inactive tween with the given pointer and values |
| `Vec3Tweens.Vec3Tween.Update` | Solution/Vec3Tween.cpp:15-48 | As the float tween, with x, y and z written one after another so that the cell ends at WrittenValue |
| `Vec3Tweens.Vec3Tween.Start` | Solution/Vec3Tween.cpp:50-55 | The start value is written, the clock is reset to 0 and the tween is active |
| `TweenManagers.UpdateTween` | Solution/TweenManager.cpp:43 | The virtual Update: an inactive tween is unchanged, an active one throws exactly when it has no sink; otherwise the clock follows Advance to the kind's End(), the tween stops exactly when it ends, and the kind's WrittenValue goes to its sink, with the other sink untouched and nothing written while the delay runs; a throw keeps the setter log; the id is kept |
| `TweenManagers.StartTween` | Solution/TweenManager.cpp:22 | The virtual Start: the start value goes to the kind's sink, the tween is active with its clock at 0, and the id is kept |
| `TweenManagers.TweenManager.constructor` | Solution/TweenManager.cpp:4-7 | No tweens, and the counter at 0 |
| `TweenManagers.TweenManager.TweenExists` | Solution/TweenManager.cpp:47-51 | Holds exactly for stored ids, and every stored id was issued by the counter |
| `TweenManagers.TweenManager.AddTween` | Solution/TweenManager.cpp:9-25 | Returns the old counter, which goes up by one; that id was free, the tween is stored under it and stamped with it; when asked it is started, with the start value at its sink, and otherwise only its id changes |
| `TweenManagers.TweenManager.RemoveTween` | Solution/TweenManager.cpp:27-33 | Removes only that id (none if absent), and the counter is kept, so the id is never reissued |
| `TweenManagers.TweenManager.UpdateAll` | Solution/TweenManager.cpp:35-45 | Visits the stored ids in strictly ascending order, updating each with the scene's delta time; on success every stored id is visited, and a throw ends the pass after the failing id; no tween is removed |

## Left out

- Rendering is not modelled: the sprite, rectangle, ellipse and line renderers, shader programs, textures on the GPU, cameras and all OpenGL/GLFW calls. Renderer components are opaque `Component` objects.
- `Scene::Update` is left out apart from its quicksort call, because the rest is clock reading, event firing and drawing. `Scene::FireListener` is left out because it runs foreign callbacks.
- `Transform::GetGlobalPosition` and `GetGlobalSize` depend on the camera. They enter the collider geometry as a `Placement` parameter.
- `Entity::GetHasTransparency` is not part of this model. The entity's transparency is a plain field.
- The body of `Scene::UpdateEntityCollider` is not part of this model. Its calls are recorded in a log on the scene.
- Files, images, shader compilation and GL ids are foreign. The compiled program id, the texture id and the decoded image (or its absence) are parameters. A failure to read or compile a shader is not modelled.
- All float and double arithmetic is exact real arithmetic. Rounding, overflow to infinity and NaN are not modelled, apart from the zero-duration finding below.
- The `(float)` casts in the vec2 tween and the rigid-body step are modelled as the identity.
- Integers are unbounded:
  - `nextID`, the listener counter and zIndex do not wrap;
  - `targetValue - startValue` in the int tween cannot overflow.
- `Tween::Method` has one member, `Linear`, which is the only behaviour modelled. `deleteOnEnd` is stored but, as in the source, never acted on.
- `UIntTween.h` and `DoubleTween.h` declare tweens with no bodies in the source, so they are not part of this model.
- Setter callbacks are foreign code. Each call is recorded as the value passed.
- C++ destructors are the explicit `Destroy` methods.
- `std::shared_ptr` ownership and lifetime are not modelled. References stay valid.
- `TweenManagers.TweenManager.UpdateAll`: states the visit order and which tweens were reached, but not each tween's new state. Two ids may share one tween object or one target cell, so the updates cannot be stated independently. Each kind's `Update` contract gives the effect of one update.
- `TweenManagers.TweenManager.AddTween`, `TweenManagers.StartTween`, `IntTweens.IntTween.Start`, `Vec2Tweens.Vec2Tween.Start`, `FloatTweens.FloatTween.Start`, `Vec3Tweens.Vec3Tween.Start`: require a sink (for AddTween, when `startOnAdd` holds). Starting a pointer tween whose pointer is null dereferences null in the source.
- `IntTweens.WrittenValue`, `Vec2Tweens.WrittenValue`: the "target at the end" clause says nothing for a zero duration. The source's strict test against the delay means such a tween stops with its clock at the delay without writing, so it never writes its target. The model keeps that behaviour, which `ZeroDurationEndsUnwritten` shows in each module.
- The loop at Solution/Scene.cpp:217-224 that copies the transparent map into a vector is not modelled. `ZOrder.SortByZIndex` takes that vector as its array.
- `FloatTweens.FloatTween.Update`, `Vec3Tweens.Vec3Tween.Update`: use the corrected share (see Findings). For a zero duration the model writes the target where the source computes 0 / 0.
- `Engine.Scene.RemoveEntity`: the comment in the source speaks of finding "a lower value", but `UpdateHighestZIndex` starts from the current maximum, so it never lowers it. The model follows the code.
- `Engine.RigidBody2D.Destroy`, `Engine.Collider.Destroy`: only the link effects of the destructors are modelled: the cleared back-pointer and, for the collider, the report to the scene. Freeing the objects is not modelled.

## Findings

| source | as written | input that shows it | evidently intended | confidence | as-written member | corrected member |
|---|---|---|---|---|---|---|
| Solution/FloatTween.cpp:44 | The written value is start + (target - start) * (progressed / duration), with no guard for a zero duration (the same division is at Solution/Vec3Tween.cpp:44-46) | A float tween with duration 0, started and then updated with any deltaTime >= 0: the clock ends at 0 and the update divides 0 by 0, which is NaN, so the value becomes NaN instead of the target | A zero-length tween completes at once and writes its target | not executed | `Tweens.ZeroDurationWritesNaN` | `FloatTweens.WrittenValue` |
