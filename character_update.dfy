/** update_player_camera_and_velocity (client/character_update/character_update.cpp). */
module CharacterUpdate {
  import opened Vectors
  import opened Snapshots
  import opened Movement
  import opened ClientState

  /**
   * Turns the camera by the sample's mouse deltas, then computes the input
   * direction from the turned camera and sets the character's new velocity.
   * The position is read but never written.
   */
  method UpdatePlayerCameraAndVelocity(world: ClientWorld, s: InputSnapshot, accel: real, dt: real,
                                       gravity: Vec3, c: Controls)
    modifies world`camera, world`mouse, world`body
    ensures world.LookState() == LookStep(c, old(world.LookState()), s)
    ensures world.body == old(world.body).(velocity := NextVelocity(
      old(world.body).velocity, c.direction(world.camera, s.forward, s.backward, s.right, s.left),
      accel, dt, old(world.body).onGround, s.jump, old(world.body).up, gravity))
  {
    var (mouse', dYaw, dPitch) := c.deltas(world.mouse, s.mouseX, s.mouseY);
    world.mouse := mouse';
    world.camera := c.turn(world.camera, dYaw, dPitch);
    var input := c.direction(world.camera, s.forward, s.backward, s.right, s.left);
    var updated := ComposeVelocity(world.body.velocity, input, accel, dt, world.body.onGround, s.jump,
                                   world.body.up, gravity);
    world.body := world.body.(velocity := updated);
  }
}
