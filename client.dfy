/**
 * The client's network side (client/client.cpp): the receive branch of the
 * network loop (id packet, record count, own versus remote records,
 * reconciliation replay), the send gating, and send_input_snapshot.
 * Packets arrive as byte sequences; sends are appended to an outbox.
 */
module Client {
  import opened Snapshots
  import opened Wire
  import opened InputHistory
  import opened ClientState
  import opened Wrappers

  /** What a game-state packet can change on the client: the render map and the look state. */
  datatype ClientView = ClientView(data: map<U64, CharacterData>, look: Look)

  /** The entry `operator[]` reads for `id`: a value-initialised record when there is none. */
  function StoredEntry(data: map<U64, CharacterData>, id: U64): (r: CharacterData)
    ensures id in data ==> r == data[id]
    ensures id !in data ==> r.yaw == 0.0 && r.pitch == 0.0
  {
    if id in data then data[id] else DefaultCharacterData
  }

  /**
   * The look state after reconciling with the client's own record `r`: the
   * camera is reset to the angles stored for the client, then every history
   * entry newer than the record's watermark applies one look update.
   */
  function Reconciled(c: Controls, history: seq<InputSnapshot>, data: map<U64, CharacterData>,
                      mouse: Mouse, r: CharacterData): (look: Look)
    ensures var stored := StoredEntry(data, r.clientId);
      DataExceeding(history, r.watermark) == [] ==> look == Look(Camera(stored.yaw, stored.pitch), mouse)
    ensures var stored := StoredEntry(data, r.clientId);
      TimeOrdered(history) ==>
        look == LookAfter(c, Look(Camera(stored.yaw, stored.pitch), mouse),
                          history[|Acknowledged(history, r.watermark)|..])
  {
    var stored := StoredEntry(data, r.clientId);
    ReplayIsUnacknowledgedSuffix(history, r.watermark);
    LookAfter(c, Look(Camera(stored.yaw, stored.pitch), mouse), DataExceeding(history, r.watermark))
  }

  /**
   * The effect of one received record. A record for another client is
   * stored as it is. The client's own record reconciles the look state and
   * is stored with its angles replaced by the reconciled camera's.
   */
  function ApplyRecord(c: Controls, self: U64, history: seq<InputSnapshot>, v: ClientView, r: CharacterData)
    : (v': ClientView)
    ensures v'.data.Keys == v.data.Keys + {r.clientId}
    ensures forall id :: id in v.data && id != r.clientId ==> v'.data[id] == v.data[id]
    ensures r.clientId != self ==> v'.data[r.clientId] == r && v'.look == v.look
    ensures r.clientId == self ==>
      && v'.data[self].yaw == v'.look.camera.yaw && v'.data[self].pitch == v'.look.camera.pitch
      && v'.data[self].(yaw := r.yaw, pitch := r.pitch) == r
  {
    if r.clientId == self then
      var look := Reconciled(c, history, v.data, v.look.mouse, r);
      ClientView(v.data[self := r.(yaw := look.camera.yaw, pitch := look.camera.pitch)], look)
    else
      ClientView(v.data[r.clientId := r], v.look)
  }

  /** The client ids the records carry. */
  function CarriedIds(rs: seq<CharacterData>): set<U64>
    decreases |rs|
  {
    if rs == [] then {} else CarriedIds(rs[..|rs| - 1]) + {rs[|rs| - 1].clientId}
  }

  /**
   * The effect of the records of one packet, in packet order: the render
   * map gains exactly the ids the packet carries.
   */
  function ApplyRecords(c: Controls, self: U64, history: seq<InputSnapshot>, v: ClientView,
                        rs: seq<CharacterData>): (v': ClientView)
    ensures v'.data.Keys == v.data.Keys + CarriedIds(rs)
    decreases |rs|
  {
    if rs == [] then v
    else ApplyRecord(c, self, history, ApplyRecords(c, self, history, v, rs[..|rs| - 1]), rs[|rs| - 1])
  }

  lemma {:induction false} ApplyRecordsAppend(c: Controls, self: U64, history: seq<InputSnapshot>, v: ClientView,
                                              a: seq<CharacterData>, b: seq<CharacterData>)
    ensures ApplyRecords(c, self, history, ApplyRecords(c, self, history, v, a), b)
         == ApplyRecords(c, self, history, v, a + b)
    decreases |b|
  {
    if b == [] {
      assert a + b == a;
    } else {
      ApplyRecordsAppend(c, self, history, v, a, b[..|b| - 1]);
      assert (a + b)[..|a + b| - 1] == a + b[..|b| - 1];
      assert (a + b)[|a + b| - 1] == b[|b| - 1];
    }
  }

  /** An id that no record of the packet carries keeps its entry, or its absence. */
  lemma {:induction false} UnmentionedEntriesKept(c: Controls, self: U64, history: seq<InputSnapshot>, v: ClientView,
                                                  rs: seq<CharacterData>, id: U64)
    requires forall i :: 0 <= i < |rs| ==> rs[i].clientId != id
    ensures id in ApplyRecords(c, self, history, v, rs).data <==> id in v.data
    ensures id in v.data ==> ApplyRecords(c, self, history, v, rs).data[id] == v.data[id]
    decreases |rs|
  {
    if rs != [] {
      UnmentionedEntriesKept(c, self, history, v, rs[..|rs| - 1], id);
    }
  }

  /** Records for other clients leave the camera and mouse alone. */
  lemma {:induction false} RemoteRecordsKeepLook(c: Controls, self: U64, history: seq<InputSnapshot>, v: ClientView,
                                                 rs: seq<CharacterData>)
    requires forall i :: 0 <= i < |rs| ==> rs[i].clientId != self
    ensures ApplyRecords(c, self, history, v, rs).look == v.look
    decreases |rs|
  {
    if rs != [] {
      RemoteRecordsKeepLook(c, self, history, v, rs[..|rs| - 1]);
    }
  }

  /** A packet ending with another client's record leaves that record in the render map. */
  lemma RemoteRecordStored(c: Controls, self: U64, history: seq<InputSnapshot>, v: ClientView,
                           a: seq<CharacterData>)
    requires a != [] && a[|a| - 1].clientId != self
    ensures a[|a| - 1].clientId in ApplyRecords(c, self, history, v, a).data
    ensures ApplyRecords(c, self, history, v, a).data[a[|a| - 1].clientId] == a[|a| - 1]
  {
  }

  /** The last record for another client is what the render map holds for it, verbatim. */
  lemma LastRemoteRecordWins(c: Controls, self: U64, history: seq<InputSnapshot>, v: ClientView,
                             rs: seq<CharacterData>, k: nat)
    requires k < |rs| && rs[k].clientId != self
    requires forall j :: k < j < |rs| ==> rs[j].clientId != rs[k].clientId
    ensures rs[k].clientId in ApplyRecords(c, self, history, v, rs).data
    ensures ApplyRecords(c, self, history, v, rs).data[rs[k].clientId] == rs[k]
  {
    var a, b := rs[..k + 1], rs[k + 1..];
    assert a + b == rs;
    ApplyRecordsAppend(c, self, history, v, a, b);
    var va := ApplyRecords(c, self, history, v, a);
    RemoteRecordStored(c, self, history, v, a);
    assert a[|a| - 1] == rs[k];
    assert forall i :: 0 <= i < |b| ==> b[i].clientId != rs[k].clientId by {
      forall i | 0 <= i < |b|
        ensures b[i].clientId != rs[k].clientId
      {
        assert b[i] == rs[k + 1 + i];
      }
    }
    UnmentionedEntriesKept(c, self, history, va, b, rs[k].clientId);
  }

  /**
   * Once the packet held the client's own record, the angles stored for the
   * client are the camera's.
   */
  lemma {:induction false} OwnEntryMatchesCamera(c: Controls, self: U64, history: seq<InputSnapshot>, v: ClientView,
                                                 rs: seq<CharacterData>, k: nat)
    requires k < |rs| && rs[k].clientId == self
    ensures var v' := ApplyRecords(c, self, history, v, rs);
      self in v'.data && v'.data[self].yaw == v'.look.camera.yaw && v'.data[self].pitch == v'.look.camera.pitch
    decreases |rs|
  {
    if k < |rs| - 1 {
      OwnEntryMatchesCamera(c, self, history, v, rs[..|rs| - 1], k);
    }
  }

  /**
   * When no history entry is newer than the watermark, the camera snaps to
   * the stored angles, and applying the same own record again changes
   * nothing.
   */
  lemma SnapWithoutReplay(c: Controls, self: U64, history: seq<InputSnapshot>, v: ClientView, r: CharacterData)
    requires r.clientId == self && DataExceeding(history, r.watermark) == []
    ensures var stored := StoredEntry(v.data, self);
      ApplyRecord(c, self, history, v, r).look == Look(Camera(stored.yaw, stored.pitch), v.look.mouse)
    ensures var once := ApplyRecord(c, self, history, v, r);
      ApplyRecord(c, self, history, once, r) == once
  {
  }

  /** The connect acknowledgement decodes to the issued id and carries no record. */
  lemma IdPacketDecodes(codec: FloatCodec, v: U64)
    ensures |EncodeU64(v)| == IdSize && DecodeU64(EncodeU64(v)) == v
    ensures DecodeRecords(codec, EncodeU64(v)) == []
  {
  }

  /** A game-state broadcast is never taken for an id packet, and decodes to the records sent. */
  lemma GameStateDecodes(codec: FloatCodec, rs: seq<CharacterData>)
    requires ValidCodec(codec)
    ensures |EncodeRecords(codec, rs)| != IdSize
    ensures DecodeRecords(codec, EncodeRecords(codec, rs)) == rs
  {
    RecordsRoundTrip(codec, rs);
    if rs != [] {
      assert |rs| * RecordSize >= RecordSize;
    }
  }

  /** The inner loop of reconciliation: one look update per replayed entry. */
  method ReplayInputs(world: ClientWorld, replay: seq<InputSnapshot>, c: Controls)
    modifies world`camera, world`mouse
    ensures world.LookState() == LookAfter(c, old(world.LookState()), replay)
  {
    for j := 0 to |replay|
      invariant world.LookState() == LookAfter(c, old(world.LookState()), replay[..j])
    {
      var s := replay[j];
      var (mouse', dYaw, dPitch) := c.deltas(world.mouse, s.mouseX, s.mouseY);
      world.mouse := mouse';
      world.camera := c.turn(world.camera, dYaw, dPitch);
      assert replay[..j + 1][..j] == replay[..j];
    }
    assert replay[..|replay|] == replay;
  }

  /**
   * The client's own record: reset the camera to the stored angles, replay
   * the history entries newer than the watermark, then store the record
   * with the camera's angles.
   */
  method ReconcileOwnRecord(world: ClientWorld, r: CharacterData, c: Controls)
    modifies world`camera, world`mouse, world`characterData
    ensures world.LookState() == Reconciled(c, world.history, old(world.characterData), old(world.mouse), r)
    ensures world.characterData
         == old(world.characterData)[r.clientId := r.(yaw := world.camera.yaw, pitch := world.camera.pitch)]
  {
    var stored := StoredEntry(world.characterData, r.clientId);
    world.camera := Camera(stored.yaw, stored.pitch);
    ReplayInputs(world, DataExceeding(world.history, r.watermark), c);
    world.characterData := world.characterData[r.clientId := r];
    world.characterData := world.characterData[r.clientId := r.(yaw := world.camera.yaw, pitch := world.camera.pitch)];
  }

  /**
   * The body of the record loop for one record `r`, for a client whose id
   * is `self`.
   */
  method ApplyRecordTo(world: ClientWorld, self: U64, r: CharacterData, c: Controls)
    modifies world`camera, world`mouse, world`characterData
    ensures ClientView(world.characterData, world.LookState())
         == ApplyRecord(c, self, world.history, ClientView(old(world.characterData), old(world.LookState())), r)
  {
    if r.clientId == self {
      ReconcileOwnRecord(world, r, c);
    } else {
      world.characterData := world.characterData[r.clientId := r];
    }
  }

  class ClientNetwork {
    /** `uint64_t id = -1` until the server's acknowledgement arrives. */
    var id: U64
    var firstIteration: bool
    /** time_of_last_input_snapshot_send, in seconds. */
    var lastSendTime: real
    /** 1.0 / send_frequency_hz. */
    const sendPeriod: real
    /** Input snapshots handed to enet_peer_send, oldest first. */
    var outbox: seq<InputSnapshot>
    /** The times at which a send was due. */
    ghost var sendTimes: seq<real>

    ghost predicate Valid()
      reads this
    {
      && (sendTimes != [] ==> !firstIteration && sendTimes[|sendTimes| - 1] == lastSendTime)
      && (forall i :: 0 < i < |sendTimes| ==> sendTimes[i] - sendTimes[i - 1] >= sendPeriod)
      && |outbox| <= |sendTimes|
    }

    constructor (sendPeriod: real)
      ensures Valid() && this.sendPeriod == sendPeriod
      ensures id == Sentinel && firstIteration && outbox == [] && sendTimes == []
    {
      id := Sentinel;
      firstIteration := true;
      lastSendTime := 0.0;
      this.sendPeriod := sendPeriod;
      outbox := [];
      sendTimes := [];
    }

    /**
     * The receive branch of the network loop. An 8-byte packet sets the id.
     * Once the id is known, the packet's whole records are applied in order.
     */
    method HandleReceive(packet: seq<Byte>, world: ClientWorld, codec: FloatCodec, c: Controls)
      modifies this`id, world`camera, world`mouse, world`characterData
      ensures id == (if |packet| == IdSize then DecodeU64(packet) else old(id))
      ensures id == Sentinel ==>
        world.characterData == old(world.characterData) && world.LookState() == old(world.LookState())
      ensures id != Sentinel ==>
        ClientView(world.characterData, world.LookState())
          == ApplyRecords(c, id, world.history, ClientView(old(world.characterData), old(world.LookState())),
                          DecodeRecords(codec, packet))
    {
      if |packet| == IdSize {
        id := DecodeU64(packet);
      }
      if id != Sentinel {
        var records := DecodeRecords(codec, packet);
        ghost var v0 := ClientView(world.characterData, world.LookState());
        ghost var self := id;
        for i := 0 to |records|
          invariant id == self
          invariant ClientView(world.characterData, world.LookState())
                 == ApplyRecords(c, id, world.history, v0, records[..i])
        {
          ApplyRecordTo(world, id, records[i], c);
          assert records[..i + 1][..i] == records[..i];
        }
        assert records[..|records|] == records;
      }
    }

    /**
     * send_input_snapshot: the most recent history entry, stamped with the
     * client's id, or nothing when the history is empty. The history itself
     * is not changed.
     */
    method SendInputSnapshot(history: seq<InputSnapshot>)
      requires id != Sentinel
      modifies this`outbox
      ensures history == [] ==> outbox == old(outbox)
      ensures history != [] ==> outbox == old(outbox) + [history[|history| - 1].(clientId := id)]
    {
      var latest := MostRecent(history);
      if latest.None? {
        return;
      }
      var snapshot := latest.value.(clientId := id);
      outbox := outbox + [snapshot];
    }

    /**
     * The end of each network-loop iteration: the first iteration starts the
     * send timer; later ones send once the id is known and a full period has
     * passed since the last send.
     */
    method SendIfDue(now: real, history: seq<InputSnapshot>)
      requires Valid()
      modifies this`firstIteration, this`lastSendTime, this`outbox, this`sendTimes
      ensures Valid()
      ensures old(firstIteration) ==>
        !firstIteration && lastSendTime == now && outbox == old(outbox) && sendTimes == old(sendTimes)
      ensures !old(firstIteration) && (id == Sentinel || now - old(lastSendTime) < sendPeriod) ==>
        !firstIteration && lastSendTime == old(lastSendTime) && outbox == old(outbox) && sendTimes == old(sendTimes)
      ensures !old(firstIteration) && id != Sentinel && now - old(lastSendTime) >= sendPeriod ==>
        && !firstIteration && lastSendTime == now && sendTimes == old(sendTimes) + [now]
        && outbox == old(outbox) + (if history == [] then [] else [history[|history| - 1].(clientId := id)])
    {
      if firstIteration {
        lastSendTime := now;
        firstIteration := false;
      } else if id != Sentinel {
        if now - lastSendTime >= sendPeriod {
          SendInputSnapshot(history);
          sendTimes := sendTimes + [now];
          lastSendTime := now;
        }
      }
    }
  }

  /** Sends `j - i` slots apart are at least `j - i` periods apart. */
  lemma {:induction false} SendSpacing(ts: seq<real>, period: real, i: nat, j: nat)
    requires forall k :: 0 < k < |ts| ==> ts[k] - ts[k - 1] >= period
    requires i <= j < |ts|
    ensures ts[j] - ts[i] >= (j - i) as real * period
    decreases j - i
  {
    if i < j {
      SendSpacing(ts, period, i, j - 1);
      assert ts[j] - ts[j - 1] >= period;
    }
  }
}
