/** Optional values, results and the exceptions the engine throws. */
module Outcomes {

  datatype Option<T> = None | Some(value: T)

  /** The exceptions thrown by the modelled code, one per throw site kind. */
  datatype Error =
    | NullEntity           // Scene::AddEntity / UpdateEntityTransparency given nullptr
    | ForeignEntity        // Scene::UpdateEntityTransparency on an entity of another scene
    | DetachedCollider     // BoxCollider getters on a collider without parent entity
    | UnsupportedCollider  // BoxCollider::CheckCollision against another collider type
    | DetachedBody         // RigidBody2D::Update without parent entity
    | BodyWithoutScene     // RigidBody2D::Update whose entity has no scene
    | NullTweenTarget      // a tween writing through a null pointer
    | TextureLoadFailed    // ResourceManager::LoadTexture when the image cannot be read

  /** The value of a call that returns something or throws. */
  datatype Result<T> = Ok(value: T) | Fail(error: Error)

  /** The value of a void call: it either returns or throws. */
  datatype Outcome = Done | Thrown(error: Error)
}
