/**
 * physics_step_closure of server/physics/physics.cpp: the key flags give a
 * direction in the plane, which is normalised when non-zero, scaled by dt
 * and added to the position in place.
 */
module ServerPhysics {
  import opened Vectors
  import opened Snapshots

  /** The position the closure's pointer designates. */
  class Avatar {
    var position: Vec3

    constructor (position: Vec3)
      ensures this.position == position
    {
      this.position := position;
    }
  }

  /** `(float)positive - (float)negative`. */
  function Axis(positive: bool, negative: bool): (a: real)
    ensures a == 0.0 || a == 1.0 || a == -1.0
    ensures a == 0.0 <==> positive == negative
    ensures a == 1.0 <==> positive && !negative
  {
    (if positive then 1.0 else 0.0) - (if negative then 1.0 else 0.0)
  }

  /** The input vector: strafe on x, forward on y, nothing on z. */
  function InputVector(input: InputSnapshot): (v: Vec3)
    ensures v.z == 0.0
    ensures v == Zero <==> input.right == input.left && input.forward == input.backward
  {
    Vec3(Axis(input.right, input.left), Axis(input.forward, input.backward), 0.0)
  }

  /** `inverseLength` behaves as 1 / glm::length on non-zero vectors. */
  ghost predicate IsInverseLength(inverseLength: Vec3 -> real) {
    forall v :: Dot(v, v) > 0.0 ==> inverseLength(v) > 0.0 && inverseLength(v) * inverseLength(v) * Dot(v, v) == 1.0
  }

  /**
   * The step's displacement: the input vector, normalised when its length is
   * not zero (for a vector of reals, when it is not the zero vector), times dt.
   */
  function Displacement(input: InputSnapshot, dt: real, inverseLength: Vec3 -> real): (d: Vec3)
    ensures d.z == 0.0
    ensures InputVector(input) == Zero ==> d == Zero
    ensures InputVector(input) != Zero ==>
      d == Scale(InputVector(input), inverseLength(InputVector(input)) * dt)
  {
    var v := InputVector(input);
    Scale(if v != Zero then Scale(v, inverseLength(v)) else v, dt)
  }

  /** One step of the closure. */
  method PhysicsStep(input: InputSnapshot, avatar: Avatar, dt: real, inverseLength: Vec3 -> real)
    modifies avatar`position
    ensures avatar.position == Add(old(avatar.position), Displacement(input, dt, inverseLength))
  {
    var forward := Axis(input.forward, input.backward);
    var strafe := Axis(input.right, input.left);
    var input_vector := Vec3(strafe, forward, 0.0);
    assert input_vector == InputVector(input);
    if input_vector != Zero {
      input_vector := Scale(input_vector, inverseLength(input_vector));
    }
    input_vector := Scale(input_vector, dt);
    avatar.position := Add(avatar.position, input_vector);
  }

  /** Opposing keys, or none, leave the position where it is; z never moves. */
  lemma NoInputNoMotion(input: InputSnapshot, dt: real, inverseLength: Vec3 -> real)
    ensures Displacement(input, dt, inverseLength).z == 0.0
    ensures input.right == input.left && input.forward == input.backward ==>
      Displacement(input, dt, inverseLength) == Zero
  {
  }

  /** Scaling a vector by `k` scales its squared length by `k * k`. */
  lemma ScaleDot(v: Vec3, k: real)
    ensures Dot(Scale(v, k), Scale(v, k)) == k * k * Dot(v, v)
  {
    assert (v.x * k) * (v.x * k) == k * k * (v.x * v.x);
    assert (v.y * k) * (v.y * k) == k * k * (v.y * v.y);
    assert (v.z * k) * (v.z * k) == k * k * (v.z * v.z);
  }

  /** A non-zero input vector has a positive squared length. */
  lemma NonZeroInputHasLength(input: InputSnapshot)
    requires InputVector(input) != Zero
    ensures Dot(InputVector(input), InputVector(input)) > 0.0
  {
    var v := InputVector(input);
    assert v.x * v.x >= 0.0 && v.y * v.y >= 0.0 && v.z == 0.0;
    if v.x != 0.0 {
      assert v.x * v.x == 1.0;
    } else {
      assert v.y * v.y == 1.0;
    }
  }

  /** Any non-zero input moves the position by exactly dt, whatever the keys. */
  lemma UnitDisplacement(input: InputSnapshot, dt: real, inverseLength: Vec3 -> real)
    requires IsInverseLength(inverseLength)
    requires InputVector(input) != Zero
    ensures var d := Displacement(input, dt, inverseLength); Dot(d, d) == dt * dt
  {
    var v := InputVector(input);
    NonZeroInputHasLength(input);
    var k := inverseLength(v);
    var u := Scale(v, k);
    ScaleDot(v, k);
    assert Dot(u, u) == 1.0;
    ScaleDot(u, dt);
  }
}
