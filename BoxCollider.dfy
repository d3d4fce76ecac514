/** Axis-aligned box collider geometry: the edges and corners of a box collider
    and the strict two-axis overlap test (Solution/BoxCollider.cpp).

    The parent entity's global position and size come from the camera-dependent
    Transform::GetGlobalPosition / GetGlobalSize, which are not part of this model:
    they enter as the `Placement` of a collider that is attached to an entity. */
module BoxColliders {
  import opened Vectors
  import opened Outcomes

  /** Collider::Type. The enum has the single member BoundingBoxCollider, but
      Collider::colliderType has no initialiser, so a collider that is not a
      BoxCollider may hold any other value; `Unrecognised` stands for those. */
  datatype ColliderType = BoundingBoxCollider | Unrecognised(code: int)

  /** Global position (bottom-left) and size of the entity a collider is attached to. */
  datatype Placement = Placement(position: Vec2, size: Vec2)

  /** A collider as the geometry code sees it: its type, its offset from the
      entity (`position`), its scale relative to the entity's size (`size`), and
      the placement of its parent entity, if it has one. */
  datatype BoxCollider = BoxCollider(colliderType: ColliderType, position: Vec2, size: Vec2,
                                     parent: Option<Placement>)

  /** The left, right, bottom and top edges of a box. */
  datatype Sides = Sides(left: real, right: real, bottom: real, top: real)

  /** The four corners of a box. */
  datatype Vertices = Vertices(bottomLeft: Vec2, bottomRight: Vec2, topLeft: Vec2, topRight: Vec2)

  /** BoxCollider::GetBoundingSides: throws for a detached collider; otherwise the
      box starts at the entity's position plus the collider offset and spans the
      entity's size multiplied by the collider's scale. The ensures fix the
      sides as SidesOrdered and VerticesMatchSides use them: the origin corner
      and the extent on each axis. */
  function GetBoundingSides(c: BoxCollider): (r: Result<Sides>)
    ensures c.parent.None? <==> r == Fail(DetachedCollider)
    ensures r.Ok? ==>
      var p := c.parent.value;
      && r.value.left == p.position.x + c.position.x
      && r.value.bottom == p.position.y + c.position.y
      && r.value.right - r.value.left == p.size.x * c.size.x
      && r.value.top - r.value.bottom == p.size.y * c.size.y
  {
    match c.parent
    case None => Fail(DetachedCollider)
    case Some(p) =>
      Ok(Sides(p.position.x + c.position.x,
               p.position.x + c.position.x + p.size.x * c.size.x,
               p.position.y + c.position.y,
               p.position.y + c.position.y + p.size.y * c.size.y))
  }

  /** BoxCollider::GetBoundingVertices: computed on its own from the same inputs. */
  function GetBoundingVertices(c: BoxCollider): (r: Result<Vertices>)
    ensures c.parent.None? <==> r == Fail(DetachedCollider)
  {
    match c.parent
    case None => Fail(DetachedCollider)
    case Some(p) =>
      Ok(Vertices(
        p.position.Plus(c.position),
        Vec2(p.position.x + c.position.x + p.size.x * c.size.x, p.position.y + c.position.y),
        Vec2(p.position.x + c.position.x, p.position.y + c.position.y + p.size.y * c.size.y),
        Vec2(p.position.x + c.position.x + p.size.x * c.size.x,
             p.position.y + c.position.y + p.size.y * c.size.y)))
  }

  /** The LLRR / BBTT test: every comparison is strict. */
  predicate Overlaps(a: Sides, b: Sides)
  {
    a.left < b.right && b.left < a.right && a.bottom < b.top && b.bottom < a.top
  }

  /** A point strictly inside a box. */
  predicate Inside(s: Sides, x: real, y: real)
  {
    s.left < x < s.right && s.bottom < y < s.top
  }

  /** BoxCollider::CheckCollision: this collider's sides first (throws if detached),
      then a switch on the other collider's type (throws invalid_argument unless it
      is a bounding box), then the other collider's sides (throws if detached). */
  function CheckCollision(self: BoxCollider, other: BoxCollider): (r: Result<bool>)
    ensures self.parent.None? ==> r == Fail(DetachedCollider)
    ensures self.parent.Some? && other.colliderType != BoundingBoxCollider ==> r == Fail(UnsupportedCollider)
    ensures self.parent.Some? && other.colliderType == BoundingBoxCollider && other.parent.None? ==>
              r == Fail(DetachedCollider)
    ensures r.Ok? <==> self.parent.Some? && other.parent.Some? && other.colliderType == BoundingBoxCollider
    ensures r.Ok? ==> r.value == Overlaps(GetBoundingSides(self).value, GetBoundingSides(other).value)
  {
    match GetBoundingSides(self)
    case Fail(e) => Fail(e)
    case Ok(mine) =>
      match other.colliderType
      case Unrecognised(_) => Fail(UnsupportedCollider)
      case BoundingBoxCollider =>
        match GetBoundingSides(other)
        case Fail(e) => Fail(e)
        case Ok(theirs) => Ok(Overlaps(mine, theirs))
  }

  /** With a non-negative entity size and collider scale, left <= right and bottom <= top. */
  lemma SidesOrdered(c: BoxCollider)
    requires c.parent.Some?
    requires c.parent.value.size.x >= 0.0 && c.parent.value.size.y >= 0.0
    requires c.size.x >= 0.0 && c.size.y >= 0.0
    ensures GetBoundingSides(c).Ok?
    ensures GetBoundingSides(c).value.left <= GetBoundingSides(c).value.right
    ensures GetBoundingSides(c).value.bottom <= GetBoundingSides(c).value.top
  {
    var p := c.parent.value;
    NonNegativeProduct(p.size.x, c.size.x);
    NonNegativeProduct(p.size.y, c.size.y);
  }

  lemma NonNegativeProduct(a: real, b: real)
    requires a >= 0.0 && b >= 0.0
    ensures a * b >= 0.0
  {
  }

  /** The corners agree with the sides: BL = (L,B), BR = (R,B), TL = (L,T), TR = (R,T). */
  lemma VerticesMatchSides(c: BoxCollider)
    ensures GetBoundingVertices(c).Ok? <==> GetBoundingSides(c).Ok?
    ensures GetBoundingSides(c).Ok? ==>
      var s := GetBoundingSides(c).value;
      var v := GetBoundingVertices(c).value;
      && v.bottomLeft == Vec2(s.left, s.bottom)
      && v.bottomRight == Vec2(s.right, s.bottom)
      && v.topLeft == Vec2(s.left, s.top)
      && v.topRight == Vec2(s.right, s.top)
  {
  }

  /** A box with positive width and height. */
  predicate Proper(s: Sides)
  {
    s.left < s.right && s.bottom < s.top
  }

  /** The overlap test means what it should: two boxes of positive extent overlap
      exactly when some point lies strictly inside both of them. */
  lemma {:induction false} OverlapsIffCommonInteriorPoint(a: Sides, b: Sides)
    requires Proper(a) && Proper(b)
    ensures Overlaps(a, b) <==> exists x: real, y: real :: Inside(a, x, y) && Inside(b, x, y)
  {
    if Overlaps(a, b) {
      var x := (Max(a.left, b.left) + Min(a.right, b.right)) / 2.0;
      var y := (Max(a.bottom, b.bottom) + Min(a.top, b.top)) / 2.0;
      assert Inside(a, x, y) && Inside(b, x, y);
    }
  }

  /** Swapping the two boxes gives the same answer. */
  lemma CollisionSymmetric(a: BoxCollider, b: BoxCollider)
    requires a.colliderType == BoundingBoxCollider && b.colliderType == BoundingBoxCollider
    ensures CheckCollision(a, b) == CheckCollision(b, a)
  {
  }

  /** Boxes that only share an edge or a corner are not colliding. */
  lemma TouchingIsNotColliding(a: BoxCollider, b: BoxCollider)
    requires a.parent.Some? && b.parent.Some? && b.colliderType == BoundingBoxCollider
    requires || GetBoundingSides(a).value.right == GetBoundingSides(b).value.left
             || GetBoundingSides(b).value.right == GetBoundingSides(a).value.left
             || GetBoundingSides(a).value.top == GetBoundingSides(b).value.bottom
             || GetBoundingSides(b).value.top == GetBoundingSides(a).value.bottom
    ensures CheckCollision(a, b) == Ok(false)
  {
  }
}
