/**
 * Byte layout of the two packets the server sends: the 8-byte client id and
 * the game-state broadcast, a flat array of fixed-size character records.
 * Integers are little-endian (the host order of both ends). The 40 bytes of
 * 32-bit and 64-bit floats in a record go through an abstract codec.
 */
module Wire {
  import opened Vectors
  import opened Snapshots

  type Byte = b: int | 0 <= b < 256

  /** sizeof(uint64_t) */
  const IdSize: nat := 8

  /** Bytes holding position and velocity (6 floats) and yaw and pitch (2 doubles). */
  const FloatBytes: nat := 40

  /** sizeof(NetworkedCharacterData): two uint64_t, six float, two double. */
  const RecordSize: nat := 56

  function Pow256(n: nat): (r: nat)
    ensures r > 0
  {
    if n == 0 then 1 else 256 * Pow256(n - 1)
  }

  lemma Pow256Eight()
    ensures Pow256(8) == U64Count
  {
    assert Pow256(2) == 65536;
    assert Pow256(4) == 65536 * 65536 by {
      assert Pow256(4) == 256 * (256 * Pow256(2));
    }
    assert Pow256(8) == Pow256(4) * Pow256(4) by {
      assert Pow256(8) == 256 * (256 * (256 * (256 * Pow256(4))));
    }
  }

  /** The n least significant bytes of v, least significant first. */
  function EncodeLE(v: nat, n: nat): (bs: seq<Byte>)
    requires v < Pow256(n)
    ensures |bs| == n
  {
    if n == 0 then []
    else [v % 256] + EncodeLE(v / 256, n - 1)
  }

  /** The unsigned integer whose little-endian bytes are bs. */
  function DecodeLE(bs: seq<Byte>): (v: nat)
    ensures v < Pow256(|bs|)
  {
    if bs == [] then 0
    else
      var rest := DecodeLE(bs[1..]);
      assert bs[0] + 256 * rest <= 255 + 256 * (Pow256(|bs| - 1) - 1);
      bs[0] + 256 * rest
  }

  lemma {:induction false} DecodeEncode(v: nat, n: nat)
    requires v < Pow256(n)
    ensures DecodeLE(EncodeLE(v, n)) == v
  {
    if n > 0 {
      DecodeEncode(v / 256, n - 1);
      assert EncodeLE(v, n)[1..] == EncodeLE(v / 256, n - 1);
    }
  }

  lemma {:induction false} EncodeDecode(bs: seq<Byte>)
    ensures EncodeLE(DecodeLE(bs), |bs|) == bs
  {
    if bs != [] {
      EncodeDecode(bs[1..]);
      var v := DecodeLE(bs);
      assert v % 256 == bs[0] && v / 256 == DecodeLE(bs[1..]);
    }
  }

  /** The payload of the connect acknowledgement: the id as a uint64_t. */
  function EncodeU64(v: U64): (bs: seq<Byte>)
    ensures |bs| == IdSize
    ensures DecodeLE(bs) == v
  {
    Pow256Eight();
    DecodeEncode(v, 8);
    EncodeLE(v, 8)
  }

  /** Reinterpreting 8 bytes as a uint64_t. */
  function DecodeU64(bs: seq<Byte>): (v: U64)
    requires |bs| == IdSize
    ensures EncodeU64(v) == bs
  {
    Pow256Eight();
    EncodeDecode(bs);
    DecodeLE(bs)
  }

  /** The float fields of one record. */
  datatype Kinematics = Kinematics(position: Vec3, velocity: Vec3, yaw: real, pitch: real)

  /** How float and double values are laid out in memory; not modelled. */
  datatype FloatCodec = FloatCodec(encode: Kinematics -> seq<Byte>, decode: seq<Byte> -> Kinematics)

  /** memcpy semantics: every float block has the fixed width and reads back unchanged. */
  ghost predicate ValidCodec(codec: FloatCodec) {
    forall k :: |codec.encode(k)| == FloatBytes && codec.decode(codec.encode(k)) == k
  }

  function EncodeRecord(codec: FloatCodec, r: CharacterData): (bs: seq<Byte>)
    requires ValidCodec(codec)
    ensures |bs| == RecordSize
  {
    EncodeU64(r.clientId) + EncodeU64(r.watermark)
      + codec.encode(Kinematics(r.position, r.velocity, r.yaw, r.pitch))
  }

  /**
   * Reads one record in place: the first 16 bytes are the id and the
   * watermark, each the little-endian image of its value, and the other 40
   * bytes are the float block.
   */
  function DecodeRecord(codec: FloatCodec, bs: seq<Byte>): (r: CharacterData)
    requires |bs| == RecordSize
    ensures EncodeU64(r.clientId) == bs[..IdSize]
    ensures EncodeU64(r.watermark) == bs[IdSize..2 * IdSize]
    ensures Kinematics(r.position, r.velocity, r.yaw, r.pitch) == codec.decode(bs[2 * IdSize..])
  {
    var k := codec.decode(bs[2 * IdSize..]);
    CharacterData(DecodeU64(bs[..IdSize]), DecodeU64(bs[IdSize..2 * IdSize]),
                  k.position, k.velocity, k.yaw, k.pitch)
  }

  lemma RecordRoundTrip(codec: FloatCodec, r: CharacterData)
    requires ValidCodec(codec)
    ensures DecodeRecord(codec, EncodeRecord(codec, r)) == r
  {
    var bs := EncodeRecord(codec, r);
    assert bs[..IdSize] == EncodeU64(r.clientId);
    assert bs[IdSize..2 * IdSize] == EncodeU64(r.watermark);
    assert bs[2 * IdSize..] == codec.encode(Kinematics(r.position, r.velocity, r.yaw, r.pitch));
  }

  /** The payload of a game-state broadcast: the records back to back. */
  function EncodeRecords(codec: FloatCodec, rs: seq<CharacterData>): (bs: seq<Byte>)
    requires ValidCodec(codec)
    ensures |bs| == |rs| * RecordSize
  {
    if rs == [] then [] else EncodeRecord(codec, rs[0]) + EncodeRecords(codec, rs[1..])
  }

  /**
   * How the client reads a packet: `dataLength / sizeof(NetworkedCharacterData)`
   * whole records; bytes after the last whole record are never read.
   */
  function DecodeRecords(codec: FloatCodec, bs: seq<Byte>): (rs: seq<CharacterData>)
    ensures |rs| == |bs| / RecordSize
    decreases |bs|
  {
    if |bs| < RecordSize then []
    else [DecodeRecord(codec, bs[..RecordSize])] + DecodeRecords(codec, bs[RecordSize..])
  }

  /** The client reads back exactly the records the server broadcast. */
  lemma {:induction false} RecordsRoundTrip(codec: FloatCodec, rs: seq<CharacterData>)
    requires ValidCodec(codec)
    ensures DecodeRecords(codec, EncodeRecords(codec, rs)) == rs
  {
    if rs != [] {
      var bs := EncodeRecords(codec, rs);
      assert bs[..RecordSize] == EncodeRecord(codec, rs[0]);
      assert bs[RecordSize..] == EncodeRecords(codec, rs[1..]);
      RecordRoundTrip(codec, rs[0]);
      RecordsRoundTrip(codec, rs[1..]);
    }
  }

  /** Trailing bytes shorter than a record add no record and change none. */
  lemma {:induction false} TrailingBytesIgnored(codec: FloatCodec, bs: seq<Byte>, tail: seq<Byte>)
    requires |bs| % RecordSize == 0
    requires |tail| < RecordSize
    ensures DecodeRecords(codec, bs + tail) == DecodeRecords(codec, bs)
    decreases |bs|
  {
    if |bs| >= RecordSize {
      assert (bs + tail)[..RecordSize] == bs[..RecordSize];
      assert (bs + tail)[RecordSize..] == bs[RecordSize..] + tail;
      TrailingBytesIgnored(codec, bs[RecordSize..], tail);
    } else {
      assert |bs| == 0;
      assert bs + tail == tail;
    }
  }
}
