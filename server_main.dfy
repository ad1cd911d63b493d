/**
 * physics_step_closure of server/main.cpp: the server's copy of the
 * velocity rule, driven by the shared input snapshot, followed by one step
 * of the physics world.
 */
module ServerMain {
  import opened Vectors
  import opened Snapshots
  import opened Movement

  /** The camera and the physics character the closure captures. */
  class ServerSimulation {
    var camera: Camera
    var body: Body

    constructor (camera: Camera, body: Body)
      ensures this.camera == camera && this.body == body
    {
      this.camera := camera;
      this.body := body;
    }
  }

  /**
   * One physics step: the look direction is updated with zero deltas, the
   * velocity is composed from the input direction of that camera, set on
   * the character, and the physics world is stepped once with the same dt.
   */
  method PhysicsStep(sim: ServerSimulation, input: InputSnapshot, accel: real, dt: real, c: Controls,
                     gravity: Vec3, step: (Body, real) -> Body)
    modifies sim`camera, sim`body
    ensures sim.camera == c.turn(old(sim.camera), 0.0, 0.0)
    ensures sim.body == step(old(sim.body).(velocity := NextVelocity(
      old(sim.body).velocity, c.direction(sim.camera, input.forward, input.backward, input.right, input.left),
      accel, dt, old(sim.body).onGround, input.jump, old(sim.body).up, gravity)), dt)
  {
    sim.camera := c.turn(sim.camera, 0.0, 0.0);
    var input_vec := c.direction(sim.camera, input.forward, input.backward, input.right, input.left);
    var updated := ComposeVelocity(sim.body.velocity, input_vec, accel, dt, sim.body.onGround, input.jump,
                                   sim.body.up, gravity);
    sim.body := sim.body.(velocity := updated);
    sim.body := step(sim.body, dt);
  }

  /**
   * The server's velocity does not read the pointer: two inputs that differ
   * only in their mouse fields give the same velocity. The camera side of
   * the same fact is PhysicsStep's turn by zero deltas.
   */
  lemma MouseIgnoredByServer(c: Controls, camera: Camera, body: Body, a: InputSnapshot, b: InputSnapshot,
                             accel: real, dt: real, gravity: Vec3)
    requires a.(mouseX := b.mouseX, mouseY := b.mouseY) == b
    ensures var cam := c.turn(camera, 0.0, 0.0);
      NextVelocity(body.velocity, c.direction(cam, a.forward, a.backward, a.right, a.left), accel, dt,
                   body.onGround, a.jump, body.up, gravity)
      == NextVelocity(body.velocity, c.direction(cam, b.forward, b.backward, b.right, b.left), accel, dt,
                      body.onGround, b.jump, body.up, gravity)
  {
  }
}
