/**
 * The records exchanged between client and server, and the collaborators
 * (mouse, camera, physics engine) whose code is not part of the model.
 */
module Snapshots {
  import opened Vectors

  /** Number of values of a uint64_t. */
  const U64Count: int := 0x1_0000_0000_0000_0000

  type U64 = x: int | 0 <= x < 0x1_0000_0000_0000_0000

  /** `uint64_t id = -1`: the client id before the server has issued one. */
  const Sentinel: U64 := 0xFFFF_FFFF_FFFF_FFFF

  /**
   * NetworkedInputSnapshot: one tick's key flags and pointer position, the
   * sender's id, the history insertion time (steady-clock ticks) and the
   * delta time the client used when it applied the sample.
   */
  datatype InputSnapshot = InputSnapshot(
    left: bool, right: bool, forward: bool, backward: bool, jump: bool,
    mouseX: real, mouseY: real,
    clientId: U64,
    insertionTime: U64,
    dtUsed: real)

  /**
   * NetworkedCharacterData: one avatar in a game-state broadcast; `watermark`
   * is the insertion time of the last input the server processed for it.
   */
  datatype CharacterData = CharacterData(
    clientId: U64,
    watermark: U64,
    position: Vec3,
    velocity: Vec3,
    yaw: real,
    pitch: real)

  /** A value-initialised NetworkedCharacterData, as `map::operator[]` inserts it. */
  const DefaultCharacterData: CharacterData := CharacterData(0, 0, Zero, Zero, 0.0, 0.0)

  /** Look angles of a Camera; the camera's other members are not modelled. */
  datatype Camera = Camera(yaw: real, pitch: real)

  /** State of a Mouse object; its members are not part of the model. */
  type Mouse

  /** Camera together with the mouse whose deltas drive it. */
  datatype Look = Look(camera: Camera, mouse: Mouse)

  /** What the physics engine reports about a character. */
  datatype Body = Body(position: Vec3, velocity: Vec3, onGround: bool, up: Vec3)

  /**
   * Collaborators whose code is not shown:
   * `deltas` is Mouse::get_yaw_pitch_deltas (it may update the mouse),
   * `turn` is Camera::update_look_direction,
   * `direction` is Camera::input_snapshot_to_input_direction(forward, backward, right, left).
   */
  datatype Controls = Controls(
    deltas: (Mouse, real, real) -> (Mouse, real, real),
    turn: (Camera, real, real) -> Camera,
    direction: (Camera, bool, bool, bool, bool) -> Vec3)

  /**
   * One look-direction update driven by a sample's pointer fields: the
   * mouse yields its deltas and the camera turns by exactly those deltas.
   * No other field of the sample is read.
   */
  function LookStep(c: Controls, look: Look, s: InputSnapshot): (r: Look)
    ensures var d := c.deltas(look.mouse, s.mouseX, s.mouseY);
      r.mouse == d.0 && r.camera == c.turn(look.camera, d.1, d.2)
  {
    var (mouse', dYaw, dPitch) := c.deltas(look.mouse, s.mouseX, s.mouseY);
    Look(c.turn(look.camera, dYaw, dPitch), mouse')
  }

  /**
   * The look state after one LookStep per sample, oldest sample first. No
   * sample leaves the look alone; a single sample is a single LookStep.
   */
  function LookAfter(c: Controls, look: Look, samples: seq<InputSnapshot>): (r: Look)
    ensures samples == [] ==> r == look
    ensures |samples| == 1 ==> r == LookStep(c, look, samples[0])
    decreases |samples|
  {
    if samples == [] then look
    else LookStep(c, LookAfter(c, look, samples[..|samples| - 1]), samples[|samples| - 1])
  }

  /** The oldest sample is applied first, and the rest to its result. */
  lemma LookAfterFirst(c: Controls, look: Look, samples: seq<InputSnapshot>)
    requires samples != []
    ensures LookAfter(c, look, samples) == LookAfter(c, LookStep(c, look, samples[0]), samples[1..])
  {
    LookAfterAppend(c, look, [samples[0]], samples[1..]);
    assert [samples[0]] + samples[1..] == samples;
  }

  /** Replaying `a` and then `b` is replaying `a + b`. */
  lemma {:induction false} LookAfterAppend(c: Controls, look: Look, a: seq<InputSnapshot>, b: seq<InputSnapshot>)
    ensures LookAfter(c, LookAfter(c, look, a), b) == LookAfter(c, look, a + b)
    decreases |b|
  {
    if b == [] {
      assert a + b == a;
    } else {
      var b' := b[..|b| - 1];
      LookAfterAppend(c, look, a, b');
      assert (a + b)[..|a + b| - 1] == a + b';
      assert (a + b)[|a + b| - 1] == b[|b| - 1];
    }
  }
}
