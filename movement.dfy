/**
 * The velocity-composition rule shared by the client's prediction
 * (client/character_update/character_update.cpp) and the server's physics
 * step (server/main.cpp): input acceleration, friction, ground handling and
 * jump, then gravity. Arithmetic is over the reals; float rounding is not
 * modelled.
 */
module Movement {
  import opened Vectors

  /** Per-call damping factor. */
  const Friction: real := 0.983
  /** Jump impulse per unit of time, along the character's up vector. */
  const JumpImpulse: real := 1200.0
  /** The movement acceleration both client and server pass in. */
  const MovementAcceleration: real := 15.0

  /** Velocity after grounding: vertical component cleared, jump impulse if requested. */
  function Grounded(v: Vec3, jump: bool, up: Vec3, dt: real): Vec3 {
    var flat := v.(y := 0.0);
    if jump then Add(flat, Scale(up, JumpImpulse * dt)) else flat
  }

  /**
   * The new velocity of a character with velocity `v`, input direction `dir`,
   * ground state `onGround` and up vector `up`, after a step of `dt`.
   */
  function NextVelocity(v: Vec3, dir: Vec3, accel: real, dt: real, onGround: bool, jump: bool,
                        up: Vec3, gravity: Vec3): (r: Vec3)
    ensures var impulse := if onGround && jump then JumpImpulse * dt else 0.0;
      && r.x == (v.x + dir.x * (accel * dt)) * Friction + up.x * impulse + gravity.x * dt
      && r.z == (v.z + dir.z * (accel * dt)) * Friction + up.z * impulse + gravity.z * dt
      && r.y == (if onGround then up.y * impulse else (v.y + dir.y * (accel * dt)) * Friction) + gravity.y * dt
  {
    var damped := Scale(Add(v, Scale(dir, accel * dt)), Friction);
    Add(if onGround then Grounded(damped, jump, up, dt) else damped, Scale(gravity, dt))
  }

  /**
   * The step-by-step update both sources perform on their local
   * `updated_velocity`.
   */
  method ComposeVelocity(v: Vec3, dir: Vec3, accel: real, dt: real, onGround: bool, jump: bool,
                         up: Vec3, gravity: Vec3) returns (updated: Vec3)
    ensures updated == NextVelocity(v, dir, accel, dt, onGround, jump, up, gravity)
  {
    updated := v;
    updated := Add(updated, Scale(dir, accel * dt));
    updated := Scale(updated, Friction);
    if onGround {
      updated := updated.(y := 0.0);
      if jump {
        updated := Add(updated, Scale(up, JumpImpulse * dt));
      }
    }
    updated := Add(updated, Scale(gravity, dt));
  }

  /** Gravity is added last: friction does not damp it. */
  lemma GravityUndamped(v: Vec3, dir: Vec3, accel: real, dt: real, onGround: bool, jump: bool, up: Vec3, gravity: Vec3)
    ensures NextVelocity(v, dir, accel, dt, onGround, jump, up, gravity)
         == Add(NextVelocity(v, dir, accel, dt, onGround, jump, up, Zero), Scale(gravity, dt))
  {
  }

  /** In the air the jump flag has no effect. */
  lemma AirborneIgnoresJump(v: Vec3, dir: Vec3, accel: real, dt: real, up: Vec3, gravity: Vec3)
    ensures NextVelocity(v, dir, accel, dt, false, true, up, gravity)
         == NextVelocity(v, dir, accel, dt, false, false, up, gravity)
  {
  }

  /** On the ground, jumping adds exactly 1200 * up * dt. */
  lemma GroundedJumpImpulse(v: Vec3, dir: Vec3, accel: real, dt: real, up: Vec3, gravity: Vec3)
    ensures NextVelocity(v, dir, accel, dt, true, true, up, gravity)
         == Add(NextVelocity(v, dir, accel, dt, true, false, up, gravity), Scale(up, JumpImpulse * dt))
  {
  }

  /**
   * On the ground the previous vertical velocity is forgotten, and the new
   * vertical velocity is the jump impulse (if any) plus gravity.
   */
  lemma GroundedForgetsVerticalVelocity(v: Vec3, w: real, dir: Vec3, accel: real, dt: real, jump: bool,
                                        up: Vec3, gravity: Vec3)
    ensures NextVelocity(v, dir, accel, dt, true, jump, up, gravity)
         == NextVelocity(v.(y := w), dir, accel, dt, true, jump, up, gravity)
    ensures NextVelocity(v, dir, accel, dt, true, jump, up, gravity).y
         == (if jump then up.y * (JumpImpulse * dt) else 0.0) + gravity.y * dt
  {
  }

  function Power(x: real, n: nat): real {
    if n == 0 then 1.0 else x * Power(x, n - 1)
  }

  /** The velocity after `n` airborne calls with no input and no gravity. */
  function Coast(v: Vec3, accel: real, dt: real, jump: bool, up: Vec3, n: nat): Vec3 {
    if n == 0 then v
    else NextVelocity(Coast(v, accel, dt, jump, up, n - 1), Zero, accel, dt, false, jump, up, Zero)
  }

  /** Friction is applied on every call: coasting decays geometrically by 0.983 per call. */
  lemma {:induction false} CoastDecays(v: Vec3, accel: real, dt: real, jump: bool, up: Vec3, n: nat)
    ensures Coast(v, accel, dt, jump, up, n) == Scale(v, Power(Friction, n))
  {
    if n > 0 {
      CoastDecays(v, accel, dt, jump, up, n - 1);
      var p := Power(Friction, n - 1);
      CoastUnfold(v, accel, dt, jump, up, n);
      ScaleTwice(v, p, Friction);
    }
  }

  lemma CoastUnfold(v: Vec3, accel: real, dt: real, jump: bool, up: Vec3, n: nat)
    requires n > 0
    ensures Coast(v, accel, dt, jump, up, n) == Scale(Coast(v, accel, dt, jump, up, n - 1), Friction)
  {
    CoastStep(Coast(v, accel, dt, jump, up, n - 1), accel, dt, jump, up);
  }

  /** One airborne call with no input and no gravity only applies friction. */
  lemma CoastStep(u: Vec3, accel: real, dt: real, jump: bool, up: Vec3)
    ensures NextVelocity(u, Zero, accel, dt, false, jump, up, Zero) == Scale(u, Friction)
  {
  }

  lemma ScaleTwice(v: Vec3, p: real, q: real)
    ensures Scale(Scale(v, p), q) == Scale(v, q * p)
  {
    assert v.x * p * q == v.x * (q * p);
    assert v.y * p * q == v.y * (q * p);
    assert v.z * p * q == v.z * (q * p);
  }

  /** The decay factor stays in (0, 1] and is below 1 after any call. */
  lemma {:induction false} PowerOfFrictionBounds(n: nat)
    ensures 0.0 < Power(Friction, n) <= 1.0
    ensures n > 0 ==> Power(Friction, n) < 1.0
  {
    if n > 0 {
      PowerOfFrictionBounds(n - 1);
    }
  }
}
