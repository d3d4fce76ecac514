/** The arithmetic of one rigid-body step (Solution/RigidBody2D.cpp:61-74):
    semi-implicit Euler with linear drag and gravity. RigidBody2D.Update in the
    Engine module is proved to perform exactly this step. */
module Motion {
  import opened Vectors

  function Abs(r: real): real { if r < 0.0 then -r else r }

  /** The acceleration of one step, already multiplied by the elapsed time. */
  function Acceleration(v: Vec2, drag: real, gravity: real, gravityScale: real, dt: real): Vec2
  {
    Vec2(-drag * v.x, -(gravity * gravityScale) - drag * v.y).Scale(dt)
  }

  /** The velocity after one step. */
  function StepVelocity(v: Vec2, drag: real, gravity: real, gravityScale: real, dt: real): Vec2
  {
    v.Plus(Acceleration(v, drag, gravity, gravityScale, dt))
  }

  /** The offset position after one step: it moves by the already-updated velocity. */
  function StepOffset(offset: Vec2, newVelocity: Vec2, dt: real, pixelsPerMetre: real): Vec2
  {
    offset.Plus(newVelocity.Scale(dt).Scale(pixelsPerMetre))
  }

  /** One step scales the velocity by (1 - drag dt) and subtracts gravity dt from y. */
  lemma StepVelocityFactored(v: Vec2, drag: real, gravity: real, gravityScale: real, dt: real)
    ensures StepVelocity(v, drag, gravity, gravityScale, dt).x == v.x * (1.0 - drag * dt)
    ensures StepVelocity(v, drag, gravity, gravityScale, dt).y
            == v.y * (1.0 - drag * dt) - gravity * gravityScale * dt
  {
  }

  /** Drag alone opposes the velocity: with no gravity and 0 <= drag dt <= 1 each
      component keeps its sign and does not grow, and it strictly shrinks when
      drag dt > 0 and the component is non-zero. */
  lemma DragDecays(v: Vec2, drag: real, gravity: real, dt: real)
    requires 0.0 <= drag * dt <= 1.0
    ensures var w := StepVelocity(v, drag, gravity, 0.0, dt);
      && w.x * v.x >= 0.0 && w.y * v.y >= 0.0
      && Abs(w.x) <= Abs(v.x) && Abs(w.y) <= Abs(v.y)
      && (drag * dt > 0.0 && v.x != 0.0 ==> Abs(w.x) < Abs(v.x))
      && (drag * dt > 0.0 && v.y != 0.0 ==> Abs(w.y) < Abs(v.y))
  {
    var w := StepVelocity(v, drag, gravity, 0.0, dt);
    var f := 1.0 - drag * dt;
    StepVelocityFactored(v, drag, gravity, 0.0, dt);
    assert w.y == v.y * f by {
      assert gravity * 0.0 * dt == 0.0;
    }
    ShrinkBy(v.x, f, w.x);
    ShrinkBy(v.y, f, w.y);
  }

  /** Multiplying by a factor in [0, 1] keeps the sign and does not grow the magnitude. */
  lemma ShrinkBy(a: real, f: real, p: real)
    requires 0.0 <= f <= 1.0 && p == a * f
    ensures p * a >= 0.0
    ensures Abs(p) <= Abs(a)
    ensures f < 1.0 && a != 0.0 ==> Abs(p) < Abs(a)
  {
    var b := Abs(a);
    var q := b * f;
    assert q >= 0.0;
    assert b - q == b * (1.0 - f);
    assert 1.0 - f >= 0.0;
    assert b * (1.0 - f) >= 0.0 * (1.0 - f);
    assert b * (1.0 - f) >= 0.0;
    if f < 1.0 && b > 0.0 {
      assert b * (1.0 - f) > 0.0;
    }
    if a >= 0.0 {
      assert p == q;
      assert p * a == q * b;
    } else {
      assert p == -q;
      assert p * a == q * b;
    }
    assert q * b >= 0.0;
    assert Abs(p) == q;
  }

  /** The velocity after n steps with the same parameters. */
  function Steps(v: Vec2, drag: real, gravity: real, gravityScale: real, dt: real, n: nat): Vec2
  {
    if n == 0 then v else StepVelocity(Steps(v, drag, gravity, gravityScale, dt, n - 1), drag, gravity, gravityScale, dt)
  }

  /** A velocity that has neither grown nor flipped sign relative to `v`. */
  predicate Within(w: Vec2, v: Vec2)
  {
    Abs(w.x) <= Abs(v.x) && Abs(w.y) <= Abs(v.y) && w.x * v.x >= 0.0 && w.y * v.y >= 0.0
  }

  /** Repeated drag-only steps never increase either velocity component, and never flip its sign. */
  lemma {:induction false} DragNeverGrows(v: Vec2, drag: real, gravity: real, dt: real, n: nat)
    requires 0.0 <= drag * dt <= 1.0
    ensures Within(Steps(v, drag, gravity, 0.0, dt, n), v)
  {
    if n == 0 {
      assert v.x * v.x >= 0.0 && v.y * v.y >= 0.0;
    } else {
      var u := Steps(v, drag, gravity, 0.0, dt, n - 1);
      var w := StepVelocity(u, drag, gravity, 0.0, dt);
      assert Steps(v, drag, gravity, 0.0, dt, n) == w;
      DragNeverGrows(v, drag, gravity, dt, n - 1);
      DragDecays(u, drag, gravity, dt);
      WithinTransitive(v, u, w);
    }
  }

  lemma WithinTransitive(a: Vec2, b: Vec2, c: Vec2)
    requires Within(b, a) && Within(c, b)
    ensures Within(c, a)
  {
    SameSign(a.x, b.x, c.x);
    SameSign(a.y, b.y, c.y);
  }

  /** Sign agreement carries over through a middle value whose magnitude is bounded. */
  lemma SameSign(a: real, b: real, c: real)
    requires b * a >= 0.0 && c * b >= 0.0 && Abs(c) <= Abs(b) && Abs(b) <= Abs(a)
    ensures c * a >= 0.0
  {
    if b == 0.0 {
      assert c == 0.0;
    } else if b > 0.0 {
      assert a > 0.0 && c >= 0.0;
    } else {
      assert a < 0.0 && c <= 0.0;
    }
  }
}
