/**
 * The state the client's threads share by reference in
 * start_linear_order_setup: the camera and mouse, the local physics
 * character, the render map keyed by client id, and the processed-input
 * history.
 */
module ClientState {
  import opened Snapshots

  class ClientWorld {
    var camera: Camera
    var mouse: Mouse
    /** The client's own physics character. */
    var body: Body
    /** client_id_to_character_data. */
    var characterData: map<U64, CharacterData>
    /** processed_input_snapshot_history, oldest entry first. */
    var history: seq<InputSnapshot>

    constructor (camera: Camera, mouse: Mouse, body: Body)
      ensures this.camera == camera && this.mouse == mouse && this.body == body
      ensures characterData == map[] && history == []
    {
      this.camera := camera;
      this.mouse := mouse;
      this.body := body;
      characterData := map[];
      history := [];
    }

    /** The camera together with the mouse that drives it. */
    function LookState(): Look
      reads this
    {
      Look(camera, mouse)
    }
  }
}
