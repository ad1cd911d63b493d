# Networked physics world with a character: prediction and reconciliation

This project models the bookkeeping of a small client/server physics demo:

- **Server.** It hands out client ids from a counter. It decodes a 5-bit key mask into five key flags. It keeps four per-client maps (connected clients, cameras, mice, physics characters) through connect and disconnect events. It queues received input snapshots in FIFO order. It flattens each character's state into fixed-size records for the game-state broadcast.
- **Client.** It takes its id from an 8-byte packet. It cuts every later packet into whole records. It stores records for other clients as they are. For its own record it reconciles: the camera is reset to the stored angles, then the input history newer than the server's watermark is replayed. It sends its most recent input on a fixed period.
- **Prediction tick and velocity rule.** These are shared by client and server: input acceleration, then friction 0.983, then ground zeroing and the jump impulse 1200, then gravity.
- **Other pieces.** The server's toy position integrator, and the client's fixed-timestep catch-up loop.

Packets are byte sequences (`seq<Byte>`). Network events are given as inputs and sends are returned or appended to an outbox. The physics engine, the mouse and the camera's direction computation are function-valued parameters.

Modules, one per source file plus shared definitions:

| module | file | models |
|---|---|---|
| `Wrappers`, `Vectors` | wrappers.dfy, vectors.dfy | `Option`/`Result`; 3-vectors over the reals |
| `Snapshots` | snapshots.dfy | input snapshot, broadcast record, camera angles, body state, the opaque `Controls` |
| `Wire` | wire.dfy | little-endian `uint64_t`, the 56-byte record layout, packets of records |
| `Queues` | thread_safe_queue.dfy | `ThreadSafeQueue<T>` as a sequential FIFO class |
| `Server` | server.dfy | `UniqueIDGenerator`, key-mask decoding, `ServerNetwork` events, `send_game_state` |
| `InputHistory` | history.dfy | the abstract `ExpiringDataContainer`: `get_data_exceeding`, `get_most_recent` |
| `ClientState` | client_state.dfy | the client's camera, mouse, body, render map and history |
| `Client` | client.dfy | the receive branch, reconciliation, send gating, `send_input_snapshot` |
| `Movement`, `CharacterUpdate` | movement.dfy, character_update.dfy | the velocity rule; `update_player_camera_and_velocity` |
| `ClientMain` | client_main.dfy | `update_closure` and the frame loop's budget and sleep |
| `ServerMain` | server_main.dfy | the server's `physics_step_closure` |
| `ServerPhysics` | server_physics.dfy | the position integrator of server/physics/physics.cpp |
| `RateLimitedLoop` | rate_limited_loop.dfy | `RateLimitedLoop::start` |

## Model

| member | source | states |
|---|---|---|
| Server.UniqueIDGenerator.constructor | server/server.hpp:20 | The counter starts at 0 and no id has been issued. |
| Server.UniqueIDGenerator.Generate | server/server.cpp:14 | Returns the counter's value before the call and advances the counter by one modulo 2^64. The id joins the issued list, and the i-th issued id stays i mod 2^64. |
| Server.IssuedIdsIncrease | server/server.cpp:14 | Until 2^64 ids have been issued, the i-th id is i, so ids are strictly increasing and pairwise distinct. |
| Server.SetInputsToFalse | server/server.cpp:16-22 | All five key flags become false; the mouse position, client id, time stamp and dt are unchanged. |
| Server.Press | server/server.cpp:34-50 | Flag k becomes true; the other four flags and every other field are unchanged. |
| Server.WriteBinaryInputSnapshot | server/server.cpp:24-53 | For k in 0..4 (left, right, forward, backward, jump), flag k is true exactly when bit k of the mask is set, so no earlier flag value survives; the other fields are unchanged. |
| Server.MaskRoundTrip | server/server.cpp:30-31 | Decoding the mask built from five flags gives back each flag. |
| Server.HighBitsIgnored | server/server.cpp:30-31 | Bits 5 and above do not affect any decoded flag. |
| Server.RegisterKeepsValid | server/server.cpp:156-162 | Filing the new client under the id just issued keeps every client filed under its own id. Before a wrap, that id was not in use. |
| Server.ServerNetwork.constructor | server/server.hpp:51-53 | No client is connected and the generator has issued nothing. |
| Server.ServerNetwork.RemoveClientDataFromEngine | server/server.cpp:85-103 | If no connected client has the event's peer, none of the four maps changes. Otherwise exactly one id whose client has that peer is erased from all four maps and nothing else changes. The maps keep equal key sets. |
| Server.ServerNetwork.AcceptClient | server/server.cpp:154-173 | The fresh id is the counter's old value and was free before a wrap. It goes to the peer as one reliable 8-byte packet. The id gains a client entry, the default camera, the default mouse and a new character. |
| Server.ServerNetwork.HandleNetworkEvent | server/server.cpp:147-211 | Connect accepts a client as above. Receive appends exactly its snapshot to the input queue and changes no map. A disconnect or a timeout removes the peer's client. No event changes nothing. Only a connect sends or issues an id. |
| Server.ServerNetwork.HandlePendingEvents | server/server.cpp:118-121 | After draining waiting events in order, the queue holds its old items followed by the received snapshots in arrival order. The registry stays valid. |
| Server.RecordFor | server/server.cpp:326-342 | A record copies id, watermark, position, velocity, yaw and pitch. |
| Server.InsertDefault | server/server.cpp:328-330 | `operator[]` on a key leaves the map's keys plus that key. |
| Server.DefaultInsertedStep | server/server.cpp:328-330 | One more `operator[]` keeps existing entries and gives a missing key the default value. |
| Server.DistinctAppend | server/server.cpp:325-344 | Appending a record for an id not yet present keeps ids distinct and adds exactly that id. |
| Server.DistinctIdsCount | server/server.cpp:325-346 | Records with distinct ids are as many as their ids. |
| Server.RecordsMatchStep | server/server.cpp:325-344 | Appending the record for one more character keeps every record equal to its character's state, camera angles and watermark. |
| Server.BuildRecords | server/server.cpp:323-346 | Exactly one record per physics character, with distinct ids covering all characters, each copying that character's state, camera and watermark. A character missing a camera gains the default camera, and one missing a watermark gains 0. Existing entries are kept. |
| Server.SendGameState | server/server.cpp:319-358 | Builds the records as above and stores the grown camera and watermark maps. It broadcasts the records' encoding unreliably; the payload is record count × 56 bytes. |
| Queues.ThreadSafeQueue.constructor | server/thread_safe_queue.hpp:13 | A new queue is empty. |
| Queues.ThreadSafeQueue.Push | server/thread_safe_queue.hpp:20-24 | The item is appended at the back. |
| Queues.ThreadSafeQueue.Pop | server/thread_safe_queue.hpp:27-33 | On a non-empty queue, returns the oldest item and removes exactly it. |
| Queues.ThreadSafeQueue.Front | server/thread_safe_queue.hpp:36-42 | Returns the oldest item without removing it, or the QueueEmpty error on an empty queue. |
| Queues.ThreadSafeQueue.Empty | server/thread_safe_queue.hpp:45-48 | True exactly when the queue holds no item; the contents are unchanged. |
| Queues.ThreadSafeQueue.Size | server/thread_safe_queue.hpp:51-54 | The number of items, zero exactly when the queue is empty; the contents are unchanged. |
| Queues.RunIsFifo | server/thread_safe_queue.cpp:4-20 | For any run of pushes and pops, the popped items followed by those left equal the initial items followed by the pushed ones (FIFO). |
| Queues.RunSucceeds | server/thread_safe_queue.cpp:13-15 | A run never pops an empty queue when every prefix has popped no more than was there or pushed. |
| Wire.DecodeEncode | server/server.cpp:157-158 | Little-endian decoding inverts encoding for every value that fits. |
| Wire.EncodeDecode | client/client.cpp:102-103 | Little-endian encoding of a decoded byte string gives back the bytes. |
| Wire.EncodeU64 | server/server.cpp:156-158 | The id packet is 8 bytes and decodes to the id. |
| Wire.DecodeU64 | client/client.cpp:102-104 | Reading an 8-byte packet as a `uint64_t` inverts the encoding. |
| Wire.EncodeRecord | server/server.cpp:333-342 | A record occupies exactly 56 bytes. |
| Wire.DecodeRecord | client/client.cpp:115-120 | Reading one record in place: its id and watermark are the little-endian values of the first 16 bytes, and the rest comes from the 40-byte float block. |
| Wire.RecordRoundTrip | client/client.cpp:115-120 | A record decodes to what was encoded when the float codec round-trips. |
| Wire.EncodeRecords | server/server.cpp:350-354 | Records are laid out back to back, record count × 56 bytes. |
| Wire.DecodeRecords | client/client.cpp:115-117 | A packet yields length / 56 records (integer division). |
| Wire.RecordsRoundTrip | client/client.cpp:115-120 | The client decodes exactly the records the server broadcast. |
| Wire.TrailingBytesIgnored | client/client.cpp:117 | Fewer than 56 trailing bytes add no record. |
| Client.StoredEntry | client/client.cpp:124-126 | `operator[]` reads the stored record, or a zero-angle default when there is none. |
| Client.Reconciled | client/client.cpp:124-153 | The look after reconciling: with nothing newer than the watermark, the camera is the stored angles and the mouse is untouched. In a time-ordered history, it is the replay, from the stored angles and the live mouse, of the entries after the acknowledged prefix. |
| Client.ApplyRecord | client/client.cpp:119-162 | The map gains the record's id and keeps every other entry. A record for another client is stored verbatim and leaves camera and mouse alone. The client's own record is stored with its yaw and pitch replaced by the reconciled camera's, every other field verbatim. |
| Client.ApplyRecords | client/client.cpp:119-162 | The record loop of one packet, in order: the render map gains exactly the ids the packet carries. |
| Client.RemoteRecordStored | client/client.cpp:160-161 | A packet whose last record is another client's leaves that record in the render map. |
| Client.ApplyRecordsAppend | client/client.cpp:119-120 | Applying two runs of records one after the other equals applying their concatenation. |
| Client.UnmentionedEntriesKept | client/client.cpp:119-162 | An id that no record of the packet carries keeps its entry, or stays absent. |
| Client.RemoteRecordsKeepLook | client/client.cpp:160-161 | A packet with only other clients' records leaves camera and mouse unchanged. |
| Client.LastRemoteRecordWins | client/client.cpp:160-161 | After a packet, another client's entry is its last record in the packet, verbatim. |
| Client.OwnEntryMatchesCamera | client/client.cpp:155-158 | After a packet holding the client's own record, its stored yaw and pitch equal the camera's. |
| Client.SnapWithoutReplay | client/client.cpp:124-153 | With no history newer than the watermark, the camera snaps to the stored angles, and applying the same own record again changes nothing. |
| Client.IdPacketDecodes | client/client.cpp:102-106 | The 8-byte acknowledgement decodes to the issued id and yields zero records. |
| Client.GameStateDecodes | client/client.cpp:112-119 | A broadcast is never 8 bytes long, so it is never taken for an id, and it decodes to the records sent. |
| Client.ReplayInputs | client/client.cpp:146-153 | Each replayed entry applies exactly one mouse-delta look update, in order; the result is the look fold over the entries. |
| Client.ReconcileOwnRecord | client/client.cpp:121-158 | The camera ends at the stored angles replayed over every history entry newer than the watermark. The record is stored with the camera's final angles. |
| Client.ApplyRecordTo | client/client.cpp:119-162 | One iteration of the record loop has exactly the effect of `ApplyRecord`. |
| Client.ClientNetwork.constructor | client/client.hpp:15 | The id starts as the sentinel 2^64 − 1; nothing has been sent. |
| Client.ClientNetwork.HandleReceive | client/client.cpp:100-183 | An 8-byte packet sets the id to its payload; any other length keeps the id. While the id is the sentinel nothing else changes. Otherwise the render map and look state are those after applying the packet's whole records in order. |
| Client.ClientNetwork.SendInputSnapshot | client/client.cpp:227-247 | With an empty history nothing is sent. Otherwise exactly the most recent entry is sent, stamped with the client's id. The history is not changed. |
| Client.ClientNetwork.SendIfDue | client/client.cpp:202-216 | The first iteration only starts the timer. Later ones send only when the id is known and a full period has passed, and then restart the timer. Recorded send times stay at least one period apart. |
| Client.SendSpacing | client/client.cpp:211-214 | Sends j − i apart are at least j − i periods apart. |
| InputHistory.DataExceeding | client/client.cpp:139-140 | The replay set is no longer than the history, and every entry in it is newer than the watermark. |
| InputHistory.DataExceedingMembers | client/client.cpp:139-140 | An entry is replayed exactly when it is in the history with a time greater than the watermark. |
| InputHistory.Acknowledged | client/client.cpp:139-140 | The entries left out of the replay are all at or before the watermark. |
| InputHistory.AllAcknowledged | client/client.cpp:139-140 | When no entry is newer than the watermark, nothing is replayed. |
| InputHistory.SplitAtWatermark | client/client.cpp:139-140 | In a time-ordered history, the acknowledged entries followed by the replayed ones are the whole history. |
| InputHistory.ReplayReproducesPrediction | client/client.cpp:146-153 | The ideal replay: from the look state after exactly the acknowledged inputs, replaying the rest gives the look state of the full prediction. The client's replay does not start there. It starts from the angles stored in its render map, which each tick overwrites with the camera's (client/main.cpp:63-64), and from the live mouse state; see Client.Reconciled. |
| InputHistory.ReplayIsUnacknowledgedSuffix | client/client.cpp:139-140 | In a time-ordered history, the replay set is exactly what follows the acknowledged prefix. |
| InputHistory.ExceedingExample | client/client.cpp:139-140 | Times 100, 150, 200 with watermark 150 replay only the 200 entry (strictly greater). |
| InputHistory.MostRecent | client/client.cpp:235 | The most recent entry is the last inserted; there is none exactly when the history is empty. |
| Snapshots.LookStep | client/character_update/character_update.cpp:7-9 | One look update: the mouse yields its deltas from the sample's pointer position, and the camera turns by exactly those deltas. The result depends on no other field of the sample. |
| Snapshots.LookAfter | client/client.cpp:146-152 | The replay fold: no sample leaves the look alone, and a single sample is one look update. |
| Snapshots.LookAfterFirst | client/client.cpp:146-152 | The oldest sample is applied first and the rest to its result, as the range-for over the replay set does. |
| Snapshots.LookAfterAppend | client/client.cpp:146-153 | Replaying two runs of inputs one after the other equals replaying their concatenation. |
| Movement.NextVelocity | client/character_update/character_update.cpp:20-41 | The rule component by component. Horizontal velocity is (old + direction × acceleration × dt) × 0.983, plus 1200 × up × dt when grounded and jumping, plus gravity × dt. Vertical velocity is the same when airborne; when grounded it is only the impulse, if jumping, plus gravity × dt. |
| Movement.CoastStep | client/character_update/character_update.cpp:29-30 | One airborne call with no input and no gravity only multiplies the velocity by 0.983. |
| Movement.ComposeVelocity | client/character_update/character_update.cpp:20-41 | The step-by-step velocity update equals the rule: acceleration, friction, ground and jump handling, gravity. |
| Movement.GravityUndamped | client/character_update/character_update.cpp:39-41 | Gravity × dt is added after friction and ground handling, undamped. |
| Movement.AirborneIgnoresJump | client/character_update/character_update.cpp:31-37 | When airborne, jump has no effect and vertical velocity is not zeroed. |
| Movement.GroundedJumpImpulse | client/character_update/character_update.cpp:31-37 | When grounded, jumping adds exactly 1200 × up × dt over not jumping. |
| Movement.GroundedForgetsVerticalVelocity | client/character_update/character_update.cpp:31-32 | When grounded, the incoming vertical velocity has no effect. The new vertical velocity is the jump impulse, if jumping, plus gravity × dt. |
| Movement.CoastDecays | client/character_update/character_update.cpp:29-30 | With no input, no gravity and no ground, n ticks scale the velocity by 0.983^n. |
| Movement.PowerOfFrictionBounds | client/character_update/character_update.cpp:29-30 | 0.983^n lies in (0, 1], and below 1 once n > 0. |
| CharacterUpdate.UpdatePlayerCameraAndVelocity | client/character_update/character_update.cpp:4-44 | The look is turned by the sample's mouse deltas first. The velocity is then set by the rule, using the new camera's input direction and the given acceleration (the tick passes 15). Position, ground state and up are unchanged. |
| ClientMain.UpdateTick | client/main.cpp:34-93 | With the sentinel id nothing changes. Otherwise the copied input turns the look and sets the velocity, and one physics step runs with the same dt. The render entry takes the camera angles and the new position, and exactly one sample is appended, stamped with the time and dt. |
| ClientMain.StampedAppendKeepsOrder | client/main.cpp:70-86 | Appending a sample stamped no earlier than the last keeps the history time-ordered. |
| ClientMain.NetworkBudget | client/main.cpp:321-324 | The budget is in 1..16. It is 16 when the work took at least 16 ms, otherwise 16 − ⌊elapsed⌋, so budget plus elapsed lies in [16, 17). |
| ClientMain.SleepDuration | client/main.cpp:334-336 | It sleeps only when the frame took less than 16 ms, and then exactly the remainder. |
| ClientMain.TickTimeAddsUp | client/main.cpp:297-305 | The dts of the stamped samples add up to the clock time from the start to the last frame. |
| ClientMain.RunFrames | client/main.cpp:297-338 | Over the frames, the history grows by exactly one stamped sample per frame, or not at all with the sentinel id. Every budget is in 1..16, and every frame plus its sleep lasts at least 16 ms. |
| ServerMain.PhysicsStep | server/main.cpp:10-57 | The camera turns by zero deltas. The velocity follows the same rule as the client's, with the new camera's input direction. The physics world then steps exactly once with the same dt. |
| ServerMain.MouseIgnoredByServer | server/main.cpp:13-15 | Inputs that differ only in the mouse give the same velocity. |
| ServerPhysics.Axis | server/physics/physics.cpp:8-9 | A component is −1, 0 or 1, and 0 exactly when both or neither key is pressed. |
| ServerPhysics.InputVector | server/physics/physics.cpp:8-13 | The z component is 0, and the vector is zero exactly when opposing keys agree on both axes. |
| ServerPhysics.Displacement | server/physics/physics.cpp:8-21 | The step's displacement has z = 0. It is zero for a zero input vector, and otherwise the input vector times its inverse length times dt. |
| ServerPhysics.PhysicsStep | server/physics/physics.cpp:6-25 | The position is moved in place by exactly the step's displacement. |
| ServerPhysics.NoInputNoMotion | server/physics/physics.cpp:13-21 | z never changes, and a zero input vector leaves the position unchanged. |
| ServerPhysics.NonZeroInputHasLength | server/physics/physics.cpp:15-16 | A non-zero input vector has positive length, so it is normalised. |
| ServerPhysics.UnitDisplacement | server/physics/physics.cpp:15-21 | With a non-zero input, the displacement's length is dt. |
| RateLimitedLoop.Iterate | client/rate_limited_loop/rate_limited_loop.cpp:52-59 | The state after n calls `f(period)`. Zero calls, or any number of calls from a state `f` leaves fixed, leave the state unchanged. |
| RateLimitedLoop.IterateAdd | client/rate_limited_loop/rate_limited_loop.cpp:52-59 | a calls followed by b calls are a + b calls. |
| RateLimitedLoop.CatchUp | client/rate_limited_loop/rate_limited_loop.cpp:48-60 | The callback is applied `calls` times, each with the period, and calls × period + leftover = accumulated time. Below one period there is no call and the time carries over. Otherwise there is at least one call and the leftover lies in [0, period). |
| RateLimitedLoop.CallsAreWholePeriods | client/rate_limited_loop/rate_limited_loop.cpp:48-60 | The number of calls is ⌊accumulated / period⌋. |
| RateLimitedLoop.Start | client/rate_limited_loop/rate_limited_loop.cpp:3-66 | The state is the callback applied `calls` times with 1/hz. With at most one iteration nothing is called. Otherwise calls × period + accumulator is the whole time between the first and last iteration. The accumulator ends below one period, and non-negative for a non-decreasing clock. |

## Left out

- ENet transport (host creation, `enet_host_service` waits, packet create, send, flush and destroy, the connect and disconnect handshakes): packets are byte sequences, events are inputs, and sends are returned or appended to an outbox.
- The server's `network_step_closure` timing loop (server/server.cpp:105-145) and the gating in `start_network_loop` (server/server.cpp:213-310): wall-clock waits around ENet. Draining the waiting events is modelled as `HandlePendingEvents`.
- Threads and locking: `reconcile_mutex`, the detached threads, and the queue's mutex and condition variable are omitted. Everything runs sequentially.
- Queues.ThreadSafeQueue.Pop: does not block; waiting for an item becomes the precondition that the queue is non-empty.
- The physics engine: the world step, gravity, ground state, up vector, and character creation and deletion are parameters or plain map updates.
- Mouse and camera internals: `get_yaw_pitch_deltas`, `update_look_direction` and `input_snapshot_to_input_direction` are the function parameters bundled as `Controls`, and the mouse state is an abstract type. The camera is modelled by its yaw and pitch only; `set_look_direction(y, p)` sets them.
- Floating point: velocities, positions and durations are reals, so float32 rounding and the `(float)` casts are not modelled. The float fields of the broadcast record go through an abstract codec that is assumed only to round-trip.
- ServerPhysics.PhysicsStep: `glm::normalize` is a parameter giving the inverse length. The source's test `glm::length(v) != 0` is stated as `v != Zero`, which agrees for reals.
- `ExpiringDataContainer` is not part of this model, so neither is its eviction. The history is a sequence ordered by insertion, with `get_data_exceeding` and `get_most_recent` as above. The model assumes the container's time stamps are the samples' own `client_input_history_insertion_time_epoch_ms` field, stamped at client/main.cpp:70-72, and selects the replay set by that field.
- The client-to-server input-snapshot wire form is not modelled. The client's outbox holds snapshot values and drops the unreliable flag passed to `enet_packet_create` (client/client.cpp:237-238). The server's receive event carries an already decoded snapshot. So the unchecked `reinterpret_cast` of a received packet, whatever its length (server/server.cpp:176-179), is outside the model.
- The ring buffer, rendering, windowing, shaders, logging and `print_current_time`: no bookkeeping.
- `main()` of server/main.cpp: thread and loop plumbing around members that are not declared.
- The client's network-step closure called from the frame loop is not part of this model. ClientMain.RunFrames computes each frame's budget but does not run the network step.
- The client's CONNECT, DISCONNECT and DISCONNECT_TIMEOUT branches: they only touch the peer's opaque data pointer.
- The client holds a single local physics body. How the client creates its character is not in the shown sources.
- RateLimitedLoop.Start: requires hz > 0, since 1/hz would otherwise be infinite or negative. The termination predicate is modelled by the finite sequence of clock readings, one per iteration. The loop's stopwatch presses are omitted.
- Server.UniqueIDGenerator.Generate: ids are distinct only until the counter wraps after 2^64 ids, and IssuedIdsIncrease is stated for that range.

The code departs from a textbook prediction/reconciliation scheme in two ways; the model follows the code:

- The replay on reconciliation changes only the look angles; the character's position and velocity are not reset or re-simulated.
- The replay takes every entry with a time strictly greater than the watermark; no first entry is skipped.
