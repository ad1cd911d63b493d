/**
 * The client's prediction tick (update_closure) and the single-threaded
 * frame loop of start_linear_order_setup (client/main.cpp): the frame's
 * delta time, the network time budget and the sleep.
 */
module ClientMain {
  import opened Vectors
  import opened Snapshots
  import opened Movement
  import opened InputHistory
  import opened ClientState
  import opened CharacterUpdate
  import opened Client

  /**
   * update_closure. While the client has no id nothing happens. Otherwise
   * the live input is copied once; the copy turns the camera and sets the
   * velocity, the physics world steps once with the same dt, the render
   * entry for the client receives the camera angles and the new position,
   * and the copy, stamped with the time and dt, is appended to the history.
   */
  method UpdateTick(net: ClientNetwork, world: ClientWorld, live: InputSnapshot, dt: real, now: U64,
                    c: Controls, gravity: Vec3, step: (Body, real) -> Body)
    modifies world`camera, world`mouse, world`body, world`characterData, world`history
    ensures net.id == Sentinel ==>
      && world.LookState() == old(world.LookState()) && world.body == old(world.body)
      && world.characterData == old(world.characterData) && world.history == old(world.history)
    ensures net.id != Sentinel ==>
      && world.LookState() == LookStep(c, old(world.LookState()), live)
      && world.body == step(old(world.body).(velocity := NextVelocity(
           old(world.body).velocity, c.direction(world.camera, live.forward, live.backward, live.right, live.left),
           MovementAcceleration, dt, old(world.body).onGround, live.jump, old(world.body).up, gravity)), dt)
      && world.characterData == old(world.characterData)[net.id := StoredEntry(old(world.characterData), net.id)
           .(yaw := world.camera.yaw, pitch := world.camera.pitch, position := world.body.position)]
      && world.history == old(world.history) + [live.(insertionTime := now, dtUsed := dt)]
  {
    if net.id == Sentinel {
      return;
    }
    var frozen := live;
    UpdatePlayerCameraAndVelocity(world, frozen, MovementAcceleration, dt, gravity, c);
    world.body := step(world.body, dt);
    var entry := StoredEntry(world.characterData, net.id);
    entry := entry.(yaw := world.camera.yaw, pitch := world.camera.pitch);
    entry := entry.(position := world.body.position);
    world.characterData := world.characterData[net.id := entry];
    frozen := frozen.(insertionTime := now, dtUsed := dt);
    world.history := world.history + [frozen];
  }

  /** Appending a sample stamped no earlier than the last entry keeps the history time-ordered. */
  lemma StampedAppendKeepsOrder(h: seq<InputSnapshot>, s: InputSnapshot, now: U64)
    requires TimeOrdered(h)
    requires h != [] ==> h[|h| - 1].insertionTime <= now
    ensures TimeOrdered(h + [s.(insertionTime := now)])
  {
    var h' := h + [s.(insertionTime := now)];
    forall i, j | 0 <= i < j < |h'|
      ensures h'[i].insertionTime <= h'[j].insertionTime
    {
      if j == |h| && i < |h| - 1 {
        assert h[i].insertionTime <= h[|h| - 1].insertionTime;
      }
    }
  }

  /** `const uint32_t target_frame_duration_ms = 1000 / 60`, in integer arithmetic. */
  const TargetFrameMs: int := 1000 / 60

  /**
   * The network budget of a frame whose update and render took `elapsedMs`:
   * the target, less the whole milliseconds spent, when the work took less
   * than the target. The cast to uint32_t truncates, which for a
   * non-negative duration is the floor.
   */
  function NetworkBudget(elapsedMs: real): (budget: int)
    requires elapsedMs >= 0.0
    ensures 1 <= budget <= TargetFrameMs
    ensures elapsedMs >= TargetFrameMs as real ==> budget == TargetFrameMs
    ensures elapsedMs < TargetFrameMs as real ==>
      TargetFrameMs as real <= budget as real + elapsedMs < TargetFrameMs as real + 1.0
  {
    if elapsedMs < TargetFrameMs as real then TargetFrameMs - elapsedMs.Floor else TargetFrameMs
  }

  /** The sleep at the end of a frame that took `elapsedMs`; there is one only when it is positive. */
  function SleepDuration(elapsedMs: real): (sleep: real)
    ensures sleep >= 0.0
    ensures sleep > 0.0 <==> elapsedMs < TargetFrameMs as real
    ensures sleep > 0.0 ==> elapsedMs + sleep == TargetFrameMs as real
  {
    var remaining := TargetFrameMs as real - elapsedMs;
    if remaining > 0.0 then remaining else 0.0
  }

  /**
   * What the frame loop observes of one frame: the live input, the clock at
   * the top of the frame (seconds), the steady-clock stamp the tick reads,
   * and the milliseconds taken by update and render and by the whole frame.
   */
  datatype Frame = Frame(live: InputSnapshot, clock: real, stamp: U64, workMs: real, frameMs: real)

  /** The clock reading of the last frame, or the start time when there is none. */
  function LastClock(previous: real, frames: seq<Frame>): real {
    if frames == [] then previous else frames[|frames| - 1].clock
  }

  /**
   * The history entries the ticks of `frames` append: each frame's input,
   * stamped, with the frame's clock minus the previous frame's as its dt.
   */
  function StampedInputs(previous: real, frames: seq<Frame>): (h: seq<InputSnapshot>)
    ensures |h| == |frames|
    decreases |frames|
  {
    if frames == [] then []
    else
      var init := frames[..|frames| - 1];
      var f := frames[|frames| - 1];
      StampedInputs(previous, init) + [f.live.(insertionTime := f.stamp, dtUsed := f.clock - LastClock(previous, init))]
  }

  function Sum(xs: seq<real>): real
    decreases |xs|
  {
    if xs == [] then 0.0 else Sum(xs[..|xs| - 1]) + xs[|xs| - 1]
  }

  /** The dt each history entry was applied with. */
  function DtsUsed(h: seq<InputSnapshot>): (dts: seq<real>)
    ensures |dts| == |h|
    decreases |h|
  {
    if h == [] then [] else DtsUsed(h[..|h| - 1]) + [h[|h| - 1].dtUsed]
  }

  /** The dts the ticks apply add up to the clock time between the start and the last frame. */
  lemma {:induction false} TickTimeAddsUp(previous: real, frames: seq<Frame>)
    ensures Sum(DtsUsed(StampedInputs(previous, frames))) == LastClock(previous, frames) - previous
    decreases |frames|
  {
    if frames != [] {
      var init := frames[..|frames| - 1];
      TickTimeAddsUp(previous, init);
      var h := StampedInputs(previous, frames);
      assert h[..|h| - 1] == StampedInputs(previous, init);
      assert DtsUsed(h)[..|h| - 1] == DtsUsed(StampedInputs(previous, init));
    }
  }

  /**
   * The frame loop with the network step and rendering left out: each
   * frame measures its delta time, runs one tick, and computes its network
   * budget and its sleep.
   */
  method RunFrames(net: ClientNetwork, world: ClientWorld, frames: seq<Frame>, previous: real,
                   c: Controls, gravity: Vec3, step: (Body, real) -> Body)
    returns (budgets: seq<int>, sleeps: seq<real>)
    requires forall i :: 0 <= i < |frames| ==> frames[i].workMs >= 0.0
    modifies world`camera, world`mouse, world`body, world`characterData, world`history
    ensures |budgets| == |frames| && |sleeps| == |frames|
    ensures forall i :: 0 <= i < |frames| ==> 1 <= budgets[i] <= TargetFrameMs
    ensures forall i :: 0 <= i < |frames| ==> frames[i].frameMs + sleeps[i] >= TargetFrameMs as real
    ensures net.id == Sentinel ==> world.history == old(world.history)
    ensures net.id != Sentinel ==> world.history == old(world.history) + StampedInputs(previous, frames)
  {
    var previousFrameTime := previous;
    budgets, sleeps := [], [];
    ghost var h0 := world.history;
    for i := 0 to |frames|
      invariant |budgets| == i && |sleeps| == i
      invariant forall k :: 0 <= k < i ==> 1 <= budgets[k] <= TargetFrameMs
      invariant forall k :: 0 <= k < i ==> frames[k].frameMs + sleeps[k] >= TargetFrameMs as real
      invariant previousFrameTime == LastClock(previous, frames[..i])
      invariant net.id == Sentinel ==> world.history == h0
      invariant net.id != Sentinel ==> world.history == h0 + StampedInputs(previous, frames[..i])
    {
      var f := frames[i];
      var dt := f.clock - previousFrameTime;
      previousFrameTime := f.clock;
      UpdateTick(net, world, f.live, dt, f.stamp, c, gravity, step);
      budgets := budgets + [NetworkBudget(f.workMs)];
      sleeps := sleeps + [SleepDuration(f.frameMs)];
      assert frames[..i + 1][..i] == frames[..i];
    }
    assert frames[..|frames|] == frames;
  }
}
