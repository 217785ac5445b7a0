/** The on-disk record: length, checksum, offset, timestamp, optional key, value (src/storage/record.rs). */
module RecordCodec {
  import opened Wrappers
  import opened Bytes

  const LEN_FIELD_BYTES := 4
  const CRC_FIELD_BYTES := 4
  /** offset (8), timestamp (8), key length (4), value length (4) */
  const MIN_BODY_BYTES := 24

  datatype Record = Record(offset: u64, timestamp: i64, key: Option<seq<byte>>, value: seq<byte>)

  /** The checksum is a parameter: every theorem below holds for every function from bytes to 32 bits. */
  type Checksum = seq<byte> -> u32

  datatype Reason = TooSmall | TooLarge | CrcMismatch | KeyOverrun | MissingValueLength | ValueLengthMismatch

  datatype DecodeOutcome =
    | Decoded(record: Record, consumed: nat)
    | Incomplete
    | Corrupt(reason: Reason)

  function KeyLen(r: Record): nat {
    match r.key case None => 0 case Some(k) => |k|
  }

  function EncodedLen(r: Record): (n: nat) {
    LEN_FIELD_BYTES + CRC_FIELD_BYTES + MIN_BODY_BYTES + KeyLen(r) + |r.value|
  }

  /** The lengths that the four-byte fields can hold; `Log.append_record` refuses anything larger. */
  predicate Encodable(r: Record) {
    && KeyLen(r) < 0x8000_0000
    && EncodedLen(r) - LEN_FIELD_BYTES < U32_RANGE
  }

  function KeyField(key: Option<seq<byte>>): seq<byte> {
    match key
    case None => PutI32(-1)
    case Some(k) => PutI32(AsI32(|k|)) + k
  }

  /** Everything the checksum covers. */
  function Body(r: Record): seq<byte> {
    PutU64(r.offset) + PutI64(r.timestamp) + KeyField(r.key) + PutU32(AsU32(|r.value|)) + r.value
  }

  function Encode(r: Record, crc: Checksum): (s: seq<byte>)
    ensures |s| == EncodedLen(r)
  {
    var body := Body(r);
    PutU32(AsU32(CRC_FIELD_BYTES + |body|)) + PutU32(crc(body)) + body
  }

  /** A byte vector that grows in place. */
  class ByteVec {
    var data: seq<byte>

    constructor ()
      ensures data == []
    {
      data := [];
    }

    method Extend(s: seq<byte>)
      modifies this
      ensures data == old(data) + s
    {
      data := data + s;
    }

    /** Overwrites the bytes at `pos`, which must already be there. */
    method CopyAt(pos: nat, s: seq<byte>)
      requires pos + |s| <= |data|
      modifies this
      ensures data == old(data)[..pos] + s + old(data)[pos + |s|..]
    {
      data := data[..pos] + s + data[pos + |s|..];
    }
  }

  /** Writes the record with a zero checksum first, then patches the checksum of what was written. */
  method EncodeInto(r: Record, crc: Checksum, out: ByteVec)
    modifies out
    ensures out.data == old(out.data) + Encode(r, crc)
  {
    hide PutU32, PutU64, PutI32, PutI64, KeyField;
    var bodyLen := MIN_BODY_BYTES + KeyLen(r) + |r.value|;
    out.Extend(PutU32(AsU32(CRC_FIELD_BYTES + bodyLen)));
    var crcPos := |out.data|;
    ghost var header := out.data;
    out.Extend([0, 0, 0, 0]);
    var bodyStart := |out.data|;
    WriteBody(r, out);
    assert out.data[bodyStart..] == Body(r);
    assert out.data[..crcPos] == header;
    var sum := crc(out.data[bodyStart..]);
    out.CopyAt(crcPos, PutU32(sum));
    assert out.data == header + PutU32(sum) + Body(r);
    BodyLen(r);
  }

  method WriteBody(r: Record, out: ByteVec)
    modifies out
    ensures out.data == old(out.data) + Body(r)
  {
    hide PutU32, PutU64, PutI32, PutI64, KeyField;
    out.Extend(PutU64(r.offset));
    out.Extend(PutI64(r.timestamp));
    WriteKey(r.key, out);
    out.Extend(PutU32(AsU32(|r.value|)));
    out.Extend(r.value);
  }

  method WriteKey(key: Option<seq<byte>>, out: ByteVec)
    modifies out
    ensures out.data == old(out.data) + KeyField(key)
  {
    hide PutI32;
    match key {
      case None =>
        out.Extend(PutI32(-1));
      case Some(k) =>
        out.Extend(PutI32(AsI32(|k|)));
        out.Extend(k);
    }
  }

  /** Where each field is. A key length of -1 stands for no key. */
  lemma FieldsInPlace(r: Record, crc: Checksum)
    requires Encodable(r)
    ensures var b, k := Encode(r, crc), KeyLen(r);
            && |b| == 32 + k + |r.value|
            && GetU32(b[0..4]) == |b| - 4 && GetU32(b[4..8]) == crc(b[8..])
            && GetU64(b[8..16]) == r.offset && GetI64(b[16..24]) == r.timestamp
            && GetI32(b[24..28]) == (if r.key.None? then -1 else k) && (r.key.Some? ==> b[28..28 + k] == r.key.value)
            && GetU32(b[28 + k..32 + k]) == |r.value| && b[32 + k..] == r.value
  {
    hide ToLE, FromLE, GetU32, GetU64, GetI32, GetI64, PutU32, PutU64, PutI32, PutI64;
    var b, k, body := Encode(r, crc), KeyLen(r), Body(r);
    assert b[8..] == body;
    assert b[0..4] == PutU32(AsU32(4 + |body|)) && b[4..8] == PutU32(crc(body));
    assert b[8..16] == PutU64(r.offset) && b[16..24] == PutI64(r.timestamp);
    assert b[24..28] == PutI32(if r.key.None? then -1 else AsI32(k));
    assert b[28 + k..32 + k] == PutU32(AsU32(|r.value|));
    GetPutU32(AsU32(4 + |body|));
    GetPutU32(crc(body));
    GetPutU64(r.offset);
    GetPutI64(r.timestamp);
    GetPutI32(if r.key.None? then -1 else AsI32(k));
    GetPutU32(AsU32(|r.value|));
  }

  function Decode(buf: seq<byte>, maxRecordBytes: u32, crc: Checksum): (o: DecodeOutcome)
    ensures o.Decoded? ==> LEN_FIELD_BYTES + CRC_FIELD_BYTES + MIN_BODY_BYTES <= o.consumed <= |buf|
    ensures o.Decoded? ==> o.consumed == EncodedLen(o.record) && Encodable(o.record)
  {
    hide FromLE, GetU32, GetU64, GetI64;
    if |buf| < LEN_FIELD_BYTES then Incomplete
    else
      var len := GetU32(buf[0..4]);
      if len < CRC_FIELD_BYTES + MIN_BODY_BYTES then Corrupt(TooSmall)
      else if len > maxRecordBytes then Corrupt(TooLarge)
      else
        var total := LEN_FIELD_BYTES + len;
        if |buf| < total then Incomplete
        else
          var stored := GetU32(buf[4..8]);
          var body := buf[8..total];
          if stored != crc(body) then Corrupt(CrcMismatch)
          else DecodeBody(body)
  }

  /** The part of `decode` past the checksum. */
  function DecodeBody(body: seq<byte>): (o: DecodeOutcome)
    requires |body| >= MIN_BODY_BYTES
    ensures !o.Incomplete?
    ensures o.Decoded? ==> o.consumed == 8 + |body| == EncodedLen(o.record)
    ensures o.Decoded? ==> KeyLen(o.record) < 0x8000_0000
  {
    hide FromLE, GetU32, GetU64, GetI64;
    var offset := GetU64(body[0..8]);
    var timestamp := GetI64(body[8..16]);
    var keyLen := GetI32(body[16..20]);
    if keyLen >= 0 && |body| < 20 + keyLen + 4 then Corrupt(KeyOverrun)
    else
      var key := if keyLen < 0 then None else Some(body[20..20 + keyLen]);
      var pos := if keyLen < 0 then 20 else 20 + keyLen;
      if |body| < pos + 4 then Corrupt(MissingValueLength)
      else
        var valueLen := GetU32(body[pos..pos + 4]);
        if |body| != pos + 4 + valueLen then Corrupt(ValueLengthMismatch)
        else Decoded(Record(offset, timestamp, key, body[pos + 4..]), 8 + |body|)
  }

  // ---------------------------------------------------------------- round trip

  /** `DecodeBody` inverts `Body`, whatever the key and the value hold. */
  lemma DecodeBodyInverts(r: Record)
    requires Encodable(r)
    ensures DecodeBody(Body(r)) == Decoded(r, EncodedLen(r))
  {
    hide PutU32, PutU64, PutI32, PutI64, GetU32, GetU64, GetI32, GetI64;
    var body := Body(r);
    assert body[0..8] == PutU64(r.offset);
    assert body[8..16] == PutI64(r.timestamp);
    GetPutU64(r.offset);
    GetPutI64(r.timestamp);
    var pos := 20 + KeyLen(r);
    match r.key {
      case None =>
        assert body[16..20] == PutI32(-1);
        GetPutI32(-1);
      case Some(k) =>
        assert body[16..20] == PutI32(AsI32(|k|));
        GetPutI32(AsI32(|k|));
        assert body[20..pos] == k;
    }
    assert body[pos..pos + 4] == PutU32(AsU32(|r.value|));
    GetPutU32(AsU32(|r.value|));
    assert body[pos + 4..] == r.value;
  }

  /** Decoding an encoded record, whatever bytes follow it, gives the record back exactly when its length
      is one the reader's limit admits. */
  lemma DecodeInverts(r: Record, rest: seq<byte>, maxRecordBytes: u32, crc: Checksum)
    requires Encodable(r)
    ensures Decode(Encode(r, crc) + rest, maxRecordBytes, crc) ==
            if EncodedLen(r) - LEN_FIELD_BYTES <= maxRecordBytes
            then Decoded(r, EncodedLen(r)) else Corrupt(TooLarge)
  {
    hide PutU32, PutU64, PutI32, PutI64, GetU32, Body, DecodeBody;
    var body := Body(r);
    var buf := Encode(r, crc) + rest;
    var len := CRC_FIELD_BYTES + |body|;
    assert |body| == EncodedLen(r) - 8 by { BodyLen(r); }
    assert buf[0..4] == PutU32(AsU32(len));
    GetPutU32(AsU32(len));
    if len <= maxRecordBytes {
      assert buf[4..8] == PutU32(crc(body));
      GetPutU32(crc(body));
      assert buf[8..4 + len] == body;
      DecodeBodyInverts(r);
    }
  }

  lemma BodyLen(r: Record)
    ensures |Body(r)| == EncodedLen(r) - 8
  {
  }

  /** A torn write, that is any proper prefix of an encoded record, is seen as incomplete and never as a
      record or as corruption. */
  lemma TornIsIncomplete(r: Record, k: nat, maxRecordBytes: u32, crc: Checksum)
    requires Encodable(r) && EncodedLen(r) - LEN_FIELD_BYTES <= maxRecordBytes
    requires k < EncodedLen(r)
    ensures Decode(Encode(r, crc)[..k], maxRecordBytes, crc) == Incomplete
  {
    hide PutU32, PutU64, PutI32, PutI64, GetU32, Body, DecodeBody;
    if k >= LEN_FIELD_BYTES {
      var len := CRC_FIELD_BYTES + |Body(r)|;
      BodyLen(r);
      assert Encode(r, crc)[..k][0..4] == PutU32(AsU32(len));
      GetPutU32(AsU32(len));
    }
  }

  /** Decoding looks at no byte past the record it returns. */
  lemma DecodeIgnoresRest(buf: seq<byte>, rest: seq<byte>, maxRecordBytes: u32, crc: Checksum)
    requires Decode(buf, maxRecordBytes, crc).Decoded?
    ensures Decode(buf + rest, maxRecordBytes, crc) == Decode(buf, maxRecordBytes, crc)
  {
    hide GetU32, DecodeBody;
    var len := GetU32(buf[0..4]);
    assert (buf + rest)[0..4] == buf[0..4];
    assert (buf + rest)[4..8] == buf[4..8];
    assert (buf + rest)[8..4 + len] == buf[8..4 + len];
  }

  /** The signed key-length field of the record at the front of `buf`. */
  function KeyLengthField(buf: seq<byte>): i32
    requires |buf| >= LEN_FIELD_BYTES + CRC_FIELD_BYTES + MIN_BODY_BYTES
  {
    GetI32(buf[24..28])
  }

  /** The decoder accepts some byte strings that the encoder never writes, and these are all of them: a
      null key written with a length below -1. */
  lemma DecodeIsCanonical(buf: seq<byte>, maxRecordBytes: u32, crc: Checksum)
    requires Decode(buf, maxRecordBytes, crc).Decoded?
    ensures var o := Decode(buf, maxRecordBytes, crc);
            Encode(o.record, crc) == buf[..o.consumed] <==> KeyLengthField(buf) >= -1
  {
    hide PutU32, GetU32, GetI32, Body, DecodeBody;
    var n := Decode(buf, maxRecordBytes, crc).consumed;
    var body := buf[8..n];
    assert body[16..20] == buf[24..28];
    BodyIsCanonical(body);
    PutGet32(buf[0..4]);
    PutGet32(buf[4..8]);
    assert buf[..n] == buf[0..4] + buf[4..8] + body;
    var r := DecodeBody(body).record;
    BodyLen(r);
    assert Encode(r, crc)[8..n] == Body(r);
    assert buf[..n][8..n] == body;
  }

  /** There are such byte strings, for every record without a key and every such length. */
  lemma OtherNullKeys(r: Record, k: i32, maxRecordBytes: u32, crc: Checksum) returns (buf: seq<byte>)
    requires r.key.None? && Encodable(r) && EncodedLen(r) - LEN_FIELD_BYTES <= maxRecordBytes && k < -1
    ensures Decode(buf, maxRecordBytes, crc) == Decoded(r, EncodedLen(r))
    ensures |buf| == EncodedLen(r) && KeyLengthField(buf) == k && buf != Encode(r, crc)
  {
    hide PutU32, PutU64, PutI32, PutI64, GetU32, DecodeBody, Body, GetI32;
    var body := PutU64(r.offset) + PutI64(r.timestamp) + PutI32(k) + PutU32(AsU32(|r.value|)) + r.value;
    var len := CRC_FIELD_BYTES + |body|;
    buf := PutU32(AsU32(len)) + PutU32(crc(body)) + body;
    assert buf[0..4] == PutU32(AsU32(len)) && buf[4..8] == PutU32(crc(body)) && buf[8..4 + len] == body;
    GetPutU32(AsU32(len));
    GetPutU32(crc(body));
    assert buf[24..28] == body[16..20] == PutI32(k);
    GetPutI32(k);
    OtherNullKey(r, k, body);
    DecodeIsCanonical(buf, maxRecordBytes, crc);
    assert buf[..|buf|] == buf;
  }

  lemma OtherNullKey(r: Record, k: i32, body: seq<byte>)
    requires r.key.None? && Encodable(r) && k < -1
    requires body == PutU64(r.offset) + PutI64(r.timestamp) + PutI32(k) + PutU32(AsU32(|r.value|)) + r.value
    ensures |body| >= MIN_BODY_BYTES && DecodeBody(body) == Decoded(r, EncodedLen(r))
  {
    hide PutU32, PutU64, PutI32, PutI64, GetU32, GetU64, GetI32, GetI64;
    assert body[0..8] == PutU64(r.offset) && body[8..16] == PutI64(r.timestamp);
    assert body[16..20] == PutI32(k) && body[20..24] == PutU32(AsU32(|r.value|)) && body[24..] == r.value;
    GetPutU64(r.offset);
    GetPutI64(r.timestamp);
    GetPutI32(k);
    GetPutU32(AsU32(|r.value|));
  }

  lemma BodyIsCanonical(body: seq<byte>)
    requires |body| >= MIN_BODY_BYTES && DecodeBody(body).Decoded?
    ensures Body(DecodeBody(body).record) == body <==> GetI32(body[16..20]) >= -1
  {
    hide PutU32, PutU64, PutI32, PutI64, GetU32, GetU64, GetI32, GetI64, KeyField;
    var r := DecodeBody(body).record;
    var keyLen: int := GetI32(body[16..20]);
    var pos := if keyLen < 0 then 20 else 20 + keyLen;
    PutGet64(body[0..8]);
    PutGet64(body[8..16]);
    PutGet32(body[pos..pos + 4]);
    JoinFive(body, pos);
    KeyFieldIsCanonical(body, keyLen);
    assert Body(r) == body[0..8] + body[8..16] + KeyField(r.key) + body[pos..pos + 4] + body[pos + 4..];
    assert Body(r)[16..pos] == KeyField(r.key);
  }

  lemma KeyFieldIsCanonical(body: seq<byte>, keyLen: int)
    requires |body| >= MIN_BODY_BYTES && keyLen == GetI32(body[16..20]) && 20 + keyLen <= |body|
    ensures var pos := if keyLen < 0 then 20 else 20 + keyLen;
            var key := if keyLen < 0 then None else Some(body[20..20 + keyLen]);
            && |KeyField(key)| == pos - 16
            && (KeyField(key) == body[16..pos] <==> keyLen >= -1)
  {
    hide PutI32, GetI32;
    PutGet32(body[16..20]);
    GetPutI32(-1);
    if keyLen >= 0 {
      assert body[16..20 + keyLen] == body[16..20] + body[20..20 + keyLen];
    }
  }

  lemma JoinFive(b: seq<byte>, pos: nat)
    requires 16 <= pos && pos + 4 <= |b|
    ensures b == b[0..8] + b[8..16] + b[16..pos] + b[pos..pos + 4] + b[pos + 4..]
  {
  }
}
