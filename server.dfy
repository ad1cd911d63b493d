/**
 * The server's client registry (server/server.cpp): id issuance, decoding of
 * the 5-bit key mask, the connect / receive / disconnect branches of the
 * event handler, and the construction of the game-state broadcast.
 * ENet is replaced by events given as input and packets returned as output.
 */
module Server {
  import opened Vectors
  import opened Snapshots
  import opened Wire
  import opened Queues

  /** UniqueIDGenerator: `counter.fetch_add(1)` on a std::atomic<uint64_t>. */
  class UniqueIDGenerator {
    var counter: U64
    /** Every id returned so far, in order. */
    ghost var issued: seq<U64>

    ghost predicate Valid()
      reads this
    {
      && counter == |issued| % U64Count
      && forall i :: 0 <= i < |issued| ==> issued[i] == i % U64Count
    }

    constructor ()
      ensures Valid() && issued == [] && counter == 0
    {
      counter := 0;
      issued := [];
    }

    /** Returns the counter and then increments it, wrapping at 2^64. */
    method Generate() returns (id: U64)
      requires Valid()
      modifies this
      ensures Valid()
      ensures id == old(counter)
      ensures issued == old(issued) + [id]
    {
      id := counter;
      counter := (counter + 1) % U64Count;
      issued := issued + [id];
    }
  }

  /** Until the counter wraps, the ids are 0, 1, 2, ... so each is new. */
  lemma IssuedIdsIncrease(g: UniqueIDGenerator)
    requires g.Valid()
    requires |g.issued| <= U64Count
    ensures forall i :: 0 <= i < |g.issued| ==> g.issued[i] == i
    ensures forall i, j :: 0 <= i < j < |g.issued| ==> g.issued[i] < g.issued[j]
  {
  }

  /** The five key flags that the 5-bit mask carries. */
  predicate InputsFalse(s: InputSnapshot) {
    !s.left && !s.right && !s.forward && !s.backward && !s.jump
  }

  /** set_inputs_to_false: clears the five flags through the pointer. */
  method SetInputsToFalse(s: InputSnapshot) returns (r: InputSnapshot)
    ensures InputsFalse(r)
    ensures r.mouseX == s.mouseX && r.mouseY == s.mouseY
    ensures r.clientId == s.clientId && r.insertionTime == s.insertionTime && r.dtUsed == s.dtUsed
  {
    r := s.(left := false);
    r := r.(right := false);
    r := r.(forward := false);
    r := r.(backward := false);
    r := r.(jump := false);
  }

  /** Bit k of the mask: `binary_input_snapshot & (1 << k)`. */
  predicate Bit(mask: bv32, k: nat)
    requires k < 32
  {
    mask & (1 << k) != 0
  }

  /** Flag k of a snapshot, in the order of the mask: left, right, forward, backward, jump. */
  function Flag(s: InputSnapshot, k: nat): bool
    requires k < 5
  {
    match k
    case 0 => s.left
    case 1 => s.right
    case 2 => s.forward
    case 3 => s.backward
    case _ => s.jump
  }

  /** Sets flag k of the snapshot to true. */
  function Press(s: InputSnapshot, k: nat): (r: InputSnapshot)
    requires k < 5
    ensures Flag(r, k)
    ensures forall j :: 0 <= j < 5 && j != k ==> Flag(r, j) == Flag(s, j)
    ensures r.mouseX == s.mouseX && r.mouseY == s.mouseY
    ensures r.clientId == s.clientId && r.insertionTime == s.insertionTime && r.dtUsed == s.dtUsed
  {
    match k
    case 0 => s.(left := true)
    case 1 => s.(right := true)
    case 2 => s.(forward := true)
    case 3 => s.(backward := true)
    case _ => s.(jump := true)
  }

  /**
   * write_binary_input_snapshot_to_input_snapshot: flag k becomes bit k of the
   * mask for k < 5; higher bits are ignored; no earlier flag value survives.
   */
  method WriteBinaryInputSnapshot(mask: bv32, s: InputSnapshot) returns (r: InputSnapshot)
    ensures forall k :: 0 <= k < 5 ==> Flag(r, k) == Bit(mask, k)
    ensures r.mouseX == s.mouseX && r.mouseY == s.mouseY
    ensures r.clientId == s.clientId && r.insertionTime == s.insertionTime && r.dtUsed == s.dtUsed
  {
    r := SetInputsToFalse(s);
    for i := 0 to 5
      invariant forall k :: 0 <= k < i ==> Flag(r, k) == Bit(mask, k)
      invariant forall k :: i <= k < 5 ==> !Flag(r, k)
      invariant r.mouseX == s.mouseX && r.mouseY == s.mouseY
      invariant r.clientId == s.clientId && r.insertionTime == s.insertionTime && r.dtUsed == s.dtUsed
    {
      if mask & (1 << i) != 0 {
        r := Press(r, i);
      }
    }
  }

  /** The mask a client would send for the five flags (the inverse of the decoding). */
  function MaskOf(s: InputSnapshot): (mask: bv32)
    ensures mask & 0x1F == mask
  {
    (if s.left then 1 else 0) | (if s.right then 2 else 0) | (if s.forward then 4 else 0)
      | (if s.backward then 8 else 0) | (if s.jump then 16 else 0)
  }

  /** Decoding recovers every flag that MaskOf encoded. */
  lemma MaskRoundTrip(s: InputSnapshot)
    ensures forall k :: 0 <= k < 5 ==> Bit(MaskOf(s), k) == Flag(s, k)
  {
  }

  /** Only the low five bits matter. */
  lemma HighBitsIgnored(mask: bv32)
    ensures forall k :: 0 <= k < 5 ==> Bit(mask, k) == Bit(mask & 0x1F, k)
  {
  }

  /** An ENetPeer, by identity. */
  type Peer = nat

  /** struct Client { ENetPeer *peer; uint64_t uniqueID; } */
  datatype Client = Client(peer: Peer, uniqueId: U64)

  /** The events enet_host_service reports. */
  datatype NetEvent =
    | Connect(peer: Peer)
    | Receive(peer: Peer, snapshot: InputSnapshot)
    | Disconnect(peer: Peer)
    | DisconnectTimeout(peer: Peer)
    | NoEvent

  /** A packet handed to ENet. */
  datatype Outgoing =
    | Send(peer: Peer, data: seq<Byte>, reliable: bool)
    | Broadcast(data: seq<Byte>, reliable: bool)

  /** The snapshots carried by the receive events, in arrival order. */
  function Received(events: seq<NetEvent>): seq<InputSnapshot>
    decreases |events|
  {
    if events == [] then []
    else
      var last := events[|events| - 1];
      Received(events[..|events| - 1]) + (if last.Receive? then [last.snapshot] else [])
  }

  /**
   * The per-client state owned by the server's main(): the camera and mouse
   * maps, the physics characters (Physics::client_id_to_physics_character),
   * the processed-input watermarks, and the input queue.
   */
  class ServerWorld {
    var cameras: map<U64, Camera>
    var mice: map<U64, Mouse>
    var characters: map<U64, Body>
    var watermarks: map<U64, U64>
    const queue: ThreadSafeQueue<InputSnapshot>
    /** A default-constructed Camera and Mouse, and a newly created character. */
    const initialCamera: Camera
    const initialMouse: Mouse
    const spawn: Body

    constructor (initialCamera: Camera, initialMouse: Mouse, spawn: Body)
      ensures cameras == map[] && mice == map[] && characters == map[] && watermarks == map[]
      ensures fresh(queue) && queue.items == []
      ensures this.initialCamera == initialCamera && this.initialMouse == initialMouse && this.spawn == spawn
    {
      cameras, mice, characters, watermarks := map[], map[], map[], map[];
      queue := new ThreadSafeQueue();
      this.initialCamera, this.initialMouse, this.spawn := initialCamera, initialMouse, spawn;
    }
  }

  /** One avatar's broadcast record, from its character, camera and watermark. */
  function RecordFor(id: U64, wm: U64, body: Body, camera: Camera): (r: CharacterData)
    ensures r.clientId == id && r.watermark == wm
    ensures r.position == body.position && r.velocity == body.velocity
    ensures r.yaw == camera.yaw && r.pitch == camera.pitch
  {
    CharacterData(id, wm, body.position, body.velocity, camera.yaw, camera.pitch)
  }

  function IdsOf(rs: seq<CharacterData>): set<U64> {
    set r | r in rs :: r.clientId
  }

  ghost predicate DistinctIds(rs: seq<CharacterData>) {
    forall i, j :: 0 <= i < j < |rs| ==> rs[i].clientId != rs[j].clientId
  }

  /** Appending a record with a new id keeps the ids distinct and adds that id. */
  lemma DistinctAppend(rs: seq<CharacterData>, r: CharacterData)
    requires DistinctIds(rs) && r.clientId !in IdsOf(rs)
    ensures DistinctIds(rs + [r])
    ensures IdsOf(rs + [r]) == IdsOf(rs) + {r.clientId}
  {
    var rs' := rs + [r];
    forall i, j | 0 <= i < j < |rs'|
      ensures rs'[i].clientId != rs'[j].clientId
    {
      if j == |rs| {
        assert rs'[i] in rs;
      }
    }
    assert rs'[..|rs|] == rs;
  }

  /** Records with pairwise distinct ids have as many ids as records. */
  lemma {:induction false} DistinctIdsCount(rs: seq<CharacterData>)
    requires DistinctIds(rs)
    ensures |IdsOf(rs)| == |rs|
  {
    if rs != [] {
      var init := rs[..|rs| - 1];
      var last := rs[|rs| - 1];
      assert DistinctIds(init);
      DistinctIdsCount(init);
      assert IdsOf(rs) == IdsOf(init) + {last.clientId};
      assert last.clientId !in IdsOf(init);
    }
  }

  /**
   * Every client is filed under its own id and, until the counter has
   * wrapped, every id in use is below the counter.
   */
  ghost predicate RegistryValid(clients: map<U64, Client>, counter: U64, issuedCount: nat) {
    && (forall id :: id in clients ==> clients[id].uniqueId == id)
    && (issuedCount < U64Count ==> forall id :: id in clients ==> id < counter)
  }

  /** Filing a client under the id just issued keeps the registry valid; before a wrap, that id was free. */
  lemma RegisterKeepsValid(clients: map<U64, Client>, id: U64, issuedCount: nat, counter: U64, peer: Peer)
    requires RegistryValid(clients, id, issuedCount)
    requires counter == (issuedCount + 1) % U64Count
    requires issuedCount < U64Count ==> id == issuedCount
    ensures issuedCount < U64Count ==> id !in clients
    ensures RegistryValid(clients[id := Client(peer, id)], counter, issuedCount + 1)
  {
  }

  class ServerNetwork {
    const idGenerator: UniqueIDGenerator
    /** connected_clients: unique id to peer. */
    var connectedClients: map<U64, Client>

    ghost predicate Valid()
      reads this, idGenerator
    {
      && idGenerator.Valid()
      && RegistryValid(connectedClients, idGenerator.counter, |idGenerator.issued|)
    }

    /** The four per-client maps have the same keys. */
    ghost predicate Tracks(world: ServerWorld)
      reads this, world
    {
      && world.cameras.Keys == connectedClients.Keys
      && world.mice.Keys == connectedClients.Keys
      && world.characters.Keys == connectedClients.Keys
    }

    constructor ()
      ensures Valid() && fresh(idGenerator)
      ensures connectedClients == map[] && idGenerator.issued == []
    {
      idGenerator := new UniqueIDGenerator();
      connectedClients := map[];
    }

    /**
     * remove_client_data_from_engine: the first connected client (in the
     * map's unspecified order) whose peer is the event's peer is erased from
     * all four maps; an unknown peer changes nothing.
     */
    method RemoveClientDataFromEngine(peer: Peer, world: ServerWorld)
      requires Valid()
      modifies this`connectedClients, world`cameras, world`mice, world`characters
      ensures Valid()
      ensures (forall id :: id in old(connectedClients) ==> old(connectedClients)[id].peer != peer) ==>
        && connectedClients == old(connectedClients)
        && world.cameras == old(world.cameras) && world.mice == old(world.mice)
        && world.characters == old(world.characters)
      ensures (exists id :: id in old(connectedClients) && old(connectedClients)[id].peer == peer) ==>
        exists id :: id in old(connectedClients) && old(connectedClients)[id].peer == peer
          && connectedClients == old(connectedClients) - {id}
          && world.cameras == old(world.cameras) - {id}
          && world.mice == old(world.mice) - {id}
          && world.characters == old(world.characters) - {id}
      ensures old(Tracks(world)) ==> Tracks(world)
    {
      var todo := connectedClients.Keys;
      while todo != {}
        invariant todo <= connectedClients.Keys
        invariant forall id :: id in connectedClients && id !in todo ==> connectedClients[id].peer != peer
        invariant connectedClients == old(connectedClients)
        invariant world.cameras == old(world.cameras) && world.mice == old(world.mice)
        invariant world.characters == old(world.characters)
        decreases todo
      {
        var id :| id in todo;
        if connectedClients[id].peer == peer {
          var disconnected := connectedClients[id].uniqueId;
          world.characters := world.characters - {disconnected};
          world.mice := world.mice - {disconnected};
          world.cameras := world.cameras - {disconnected};
          connectedClients := connectedClients - {disconnected};
          return;
        }
        todo := todo - {id};
      }
    }

    /**
     * The connect branch of handle_network_event: issue an id, send it to the
     * peer as an 8-byte reliable packet, and create the client's entry in
     * all four maps (a default Camera, a default Mouse, a new character).
     */
    method AcceptClient(peer: Peer, world: ServerWorld) returns (id: U64, sent: seq<Outgoing>)
      requires Valid()
      modifies this`connectedClients, idGenerator, world`cameras, world`mice, world`characters
      ensures Valid()
      ensures id == old(idGenerator.counter) && idGenerator.issued == old(idGenerator.issued) + [id]
      ensures old(|idGenerator.issued|) < U64Count ==> id !in old(connectedClients)
      ensures sent == [Send(peer, EncodeU64(id), true)]
      ensures connectedClients == old(connectedClients)[id := Client(peer, id)]
      ensures world.cameras == old(world.cameras)[id := world.initialCamera]
      ensures world.mice == old(world.mice)[id := world.initialMouse]
      ensures world.characters == old(world.characters)[id := world.spawn]
      ensures old(Tracks(world)) ==> Tracks(world)
    {
      id := idGenerator.Generate();
      RegisterKeepsValid(connectedClients, id, |idGenerator.issued| - 1, idGenerator.counter, peer);
      sent := [Send(peer, EncodeU64(id), true)];
      connectedClients := connectedClients[id := Client(peer, id)];
      world.cameras := world.cameras[id := world.initialCamera];
      world.mice := world.mice[id := world.initialMouse];
      world.characters := world.characters[id := world.spawn];
    }

    /**
     * handle_network_event. Connect: accept the client. Receive: push the
     * snapshot onto the input queue. Disconnect and timeout: remove the
     * peer's client. No event: nothing.
     */
    method HandleNetworkEvent(event: NetEvent, world: ServerWorld) returns (sent: seq<Outgoing>)
      requires Valid()
      modifies this`connectedClients, idGenerator, world`cameras, world`mice, world`characters, world.queue
      ensures Valid()
      ensures old(Tracks(world)) ==> Tracks(world)
      ensures world.queue.items == old(world.queue.items) + Received([event])
      ensures event.Connect? ==>
        var id := old(idGenerator.counter);
        && idGenerator.issued == old(idGenerator.issued) + [id]
        && (old(|idGenerator.issued|) < U64Count ==> id !in old(connectedClients))
        && sent == [Send(event.peer, EncodeU64(id), true)]
        && connectedClients == old(connectedClients)[id := Client(event.peer, id)]
        && world.cameras == old(world.cameras)[id := world.initialCamera]
        && world.mice == old(world.mice)[id := world.initialMouse]
        && world.characters == old(world.characters)[id := world.spawn]
      ensures !event.Connect? ==> sent == [] && idGenerator.issued == old(idGenerator.issued)
      ensures (event.Disconnect? || event.DisconnectTimeout?) &&
              (forall id :: id in old(connectedClients) ==> old(connectedClients)[id].peer != event.peer) ==>
        && connectedClients == old(connectedClients)
        && world.cameras == old(world.cameras) && world.mice == old(world.mice)
        && world.characters == old(world.characters)
      ensures (event.Disconnect? || event.DisconnectTimeout?) &&
              (exists id :: id in old(connectedClients) && old(connectedClients)[id].peer == event.peer) ==>
        exists id :: id in old(connectedClients) && old(connectedClients)[id].peer == event.peer
          && connectedClients == old(connectedClients) - {id}
          && world.cameras == old(world.cameras) - {id}
          && world.mice == old(world.mice) - {id}
          && world.characters == old(world.characters) - {id}
      ensures event.Receive? || event.NoEvent? ==>
        && connectedClients == old(connectedClients)
        && world.cameras == old(world.cameras) && world.mice == old(world.mice)
        && world.characters == old(world.characters)
    {
      assert Received([event]) == Received([]) + (if event.Receive? then [event.snapshot] else []);
      sent := [];
      match event
      case Connect(peer) =>
        var _ , out := AcceptClient(peer, world);
        sent := out;
      case Receive(_, snapshot) =>
        world.queue.Push(snapshot);
      case Disconnect(peer) =>
        RemoveClientDataFromEngine(peer, world);
      case DisconnectTimeout(peer) =>
        RemoveClientDataFromEngine(peer, world);
      case NoEvent =>
    }

    /**
     * The loop that handles every event already waiting: arrival order is
     * queue order.
     */
    method HandlePendingEvents(events: seq<NetEvent>, world: ServerWorld) returns (sent: seq<Outgoing>)
      requires Valid()
      modifies this`connectedClients, idGenerator, world`cameras, world`mice, world`characters, world.queue
      ensures Valid()
      ensures old(Tracks(world)) ==> Tracks(world)
      ensures world.queue.items == old(world.queue.items) + Received(events)
    {
      sent := [];
      var i := 0;
      while i < |events|
        invariant 0 <= i <= |events|
        invariant Valid()
        invariant old(Tracks(world)) ==> Tracks(world)
        invariant world.queue.items == old(world.queue.items) + Received(events[..i])
      {
        var out := HandleNetworkEvent(events[i], world);
        sent := sent + out;
        assert events[..i + 1][..i] == events[..i];
        i := i + 1;
      }
      assert events[..|events|] == events;
    }
  }

  /**
   * `m` is `m0` after `operator[]` has been applied to every key in `keys`:
   * existing entries are kept and each missing key gains the default value.
   */
  ghost predicate DefaultInserted<V>(m0: map<U64, V>, m: map<U64, V>, keys: set<U64>, default: V) {
    && m.Keys == m0.Keys + keys
    && (forall id :: id in m0 ==> m[id] == m0[id])
    && (forall id :: id in m && id !in m0 ==> m[id] == default)
  }

  /** Each record copies its character's state, camera angles and watermark. */
  ghost predicate RecordsMatch(records: seq<CharacterData>, characters: map<U64, Body>,
                               cameras: map<U64, Camera>, watermarks: map<U64, U64>) {
    forall r :: r in records ==>
      && r.clientId in characters && r.clientId in cameras && r.clientId in watermarks
      && r == RecordFor(r.clientId, watermarks[r.clientId], characters[r.clientId], cameras[r.clientId])
  }

  /** `m[k]` for its side effect: a missing key gains the default value. */
  function InsertDefault<V>(m: map<U64, V>, k: U64, default: V): (m': map<U64, V>)
    ensures m'.Keys == m.Keys + {k}
  {
    if k in m then m else m[k := default]
  }

  /** Inserting a default for one more key keeps the `operator[]` bookkeeping. */
  lemma DefaultInsertedStep<V>(m0: map<U64, V>, m: map<U64, V>, done: set<U64>, default: V, id: U64)
    requires DefaultInserted(m0, m, done, default)
    ensures DefaultInserted(m0, InsertDefault(m, id, default), done + {id}, default)
  {
  }

  /** Appending the record for a new id keeps every record matching its maps. */
  lemma RecordsMatchStep(records: seq<CharacterData>, characters: map<U64, Body>,
                         cameras: map<U64, Camera>, watermarks: map<U64, U64>,
                         initialCamera: Camera, id: U64)
    requires RecordsMatch(records, characters, cameras, watermarks) && id in characters
    ensures var cameras' := InsertDefault(cameras, id, initialCamera);
      var watermarks' := InsertDefault(watermarks, id, 0);
      RecordsMatch(records + [RecordFor(id, watermarks'[id], characters[id], cameras'[id])],
                   characters, cameras', watermarks')
  {
    var cameras' := InsertDefault(cameras, id, initialCamera);
    var watermarks' := InsertDefault(watermarks, id, 0);
    var r := RecordFor(id, watermarks'[id], characters[id], cameras'[id]);
    forall x | x in records + [r]
      ensures x.clientId in characters && x.clientId in cameras' && x.clientId in watermarks'
      ensures x == RecordFor(x.clientId, watermarks'[x.clientId], characters[x.clientId], cameras'[x.clientId])
    {
      if x != r {
        assert x in records;
      }
    }
  }

  /**
   * The record-building loop of send_game_state over the three maps: one
   * record per physics character, in the map's unspecified order, with
   * `operator[]` inserting the default camera and the watermark 0 for a
   * character that has none.
   */
  method BuildRecords(characters: map<U64, Body>, cameras0: map<U64, Camera>, watermarks0: map<U64, U64>,
                      initialCamera: Camera)
    returns (records: seq<CharacterData>, cameras: map<U64, Camera>, watermarks: map<U64, U64>)
    ensures DistinctIds(records) && IdsOf(records) == characters.Keys
    ensures |records| == |characters|
    ensures RecordsMatch(records, characters, cameras, watermarks)
    ensures DefaultInserted(cameras0, cameras, characters.Keys, initialCamera)
    ensures DefaultInserted(watermarks0, watermarks, characters.Keys, 0)
  {
    cameras, watermarks := cameras0, watermarks0;
    var todo := characters.Keys;
    ghost var done: set<U64> := {};
    records := [];
    while todo != {}
      invariant todo + done == characters.Keys && todo !! done
      invariant DistinctIds(records) && IdsOf(records) == done
      invariant RecordsMatch(records, characters, cameras, watermarks)
      invariant DefaultInserted(cameras0, cameras, done, initialCamera)
      invariant DefaultInserted(watermarks0, watermarks, done, 0)
      decreases todo
    {
      var id :| id in todo;
      RecordsMatchStep(records, characters, cameras, watermarks, initialCamera, id);
      DefaultInsertedStep(cameras0, cameras, done, initialCamera, id);
      DefaultInsertedStep(watermarks0, watermarks, done, 0, id);
      if id !in cameras {
        cameras := cameras[id := initialCamera];
      }
      if id !in watermarks {
        watermarks := watermarks[id := 0];
      }
      var r := RecordFor(id, watermarks[id], characters[id], cameras[id]);
      DistinctAppend(records, r);
      records := records + [r];
      todo := todo - {id};
      done := done + {id};
    }
    DistinctIdsCount(records);
  }

  /**
   * send_game_state: build the records, store the maps `operator[]` grew,
   * and broadcast the records back to back, unreliably.
   */
  method SendGameState(world: ServerWorld, codec: FloatCodec) returns (records: seq<CharacterData>, sent: Outgoing)
    requires ValidCodec(codec)
    modifies world`cameras, world`watermarks
    ensures DistinctIds(records) && IdsOf(records) == world.characters.Keys
    ensures |records| == |world.characters|
    ensures RecordsMatch(records, world.characters, world.cameras, world.watermarks)
    ensures DefaultInserted(old(world.cameras), world.cameras, world.characters.Keys, world.initialCamera)
    ensures DefaultInserted(old(world.watermarks), world.watermarks, world.characters.Keys, 0)
    ensures sent == Broadcast(EncodeRecords(codec, records), false)
    ensures |sent.data| == |records| * RecordSize
  {
    var cameras, watermarks;
    records, cameras, watermarks := BuildRecords(world.characters, world.cameras, world.watermarks, world.initialCamera);
    world.cameras := cameras;
    world.watermarks := watermarks;
    sent := Broadcast(EncodeRecords(codec, records), false);
  }
}
