/** A follower's fetch response written and read in place (the ReplicaFetch arms of src/proto/mod.rs). */
module FetchIO {
  import opened Wrappers
  import opened Bytes
  import opened Messages
  import opened Wire
  import opened WireIO
  import opened Proto
  import opened ProtoIO

  lemma FetchedRecordIsFit(x: FetchedRecord)
    requires SendableFetched(x)
    ensures Fits(FETCHED_RECORD, FetchedRecordVal(x))
  {
  }

  method PutFetchedRecord(w: BodyWriter, a: FetchedRecord)
    requires SendableFetched(a)
    modifies w
    ensures Fits(FETCHED_RECORD, FetchedRecordVal(a))
        && w.data == old(w.data) + Enc(FETCHED_RECORD, FetchedRecordVal(a))
    ensures w.head == old(w.head) && w.fmt == old(w.fmt) && w.parts == old(w.parts)
  {
    hide BodyWriter.Writing, Mapped, Nums, Each, Enc, Fits;
    ghost var h, f, ps := w.head, w.fmt, w.parts;
    w.Begin(FETCHED_RECORD);
    w.U64(a.offset);
    w.I64(a.timestamp);
    w.OptBlob(a.key);
    w.Blob(a.value);
    assert VStruct(w.parts) == FetchedRecordVal(a);
    w.End(h, f, ps);
  }

  method ReadFetchedRecord(r: Reader) returns (m: Result<FetchedRecord, ProtoError>)
    requires r.pos <= |r.buf|
    modifies r
    ensures r.from == old(r.from) && r.fmt == old(r.fmt) && r.parts == old(r.parts)
    ensures m.Ok? ==>
        r.pos <= |r.buf| && Dec(FETCHED_RECORD, r.buf, old(r.pos)) == Ok((FetchedRecordVal(m.value), r.pos))
    ensures m.Err? ==> Dec(FETCHED_RECORD, r.buf, old(r.pos)) == Err(m.error)
  {
    hide Reader.Reading, Mapped, Nums, Dec;
    ghost var f0, f1, f2 := r.from, r.fmt, r.parts;
    r.Begin(FETCHED_RECORD);
    m := FetchedRecordParts(r);
    if m.Ok? {
      r.Done();
    }
    r.Resume(f0, f1, f2);
  }

  method FetchedRecordParts(r: Reader) returns (m: Result<FetchedRecord, ProtoError>)
    requires r.Reading() && r.fmt == FETCHED_RECORD && r.parts == []
    modifies r
    ensures r.from == old(r.from) && r.fmt == old(r.fmt)
    ensures m.Ok? ==> r.Reading() && VStruct(r.parts) == FetchedRecordVal(m.value)
    ensures m.Err? ==> r.Fails(m.error)
  {
    hide Reader.Reading, Reader.Fails;
    var offset :- r.U64();
    var timestamp :- r.I64();
    var key :- r.OptBlob();
    var value :- r.Blob();
    m := Ok(FetchedRecord(offset, timestamp, key, value));
  }

  method PutFetchedRecords(w: BodyWriter, s: seq<FetchedRecord>)
    requires w.Writing() && w.Next(FList(FETCHED_RECORD)) && Each(s, SendableFetched)
    modifies w
    ensures w.Writing() && w.head == old(w.head) && w.fmt == old(w.fmt)
        && w.parts == old(w.parts) + [VList(Mapped(FetchedRecordVal, s))]
  {
    hide PutU32, Mapped, EncFields, SendableFetched, FetchedRecordVal;
    w.Extend(PutU32(AsU32(|s|)));
    ghost var start, vs := w.data, Mapped(FetchedRecordVal, s);
    FetchedRecordAllFit(s);
    NoItems(FETCHED_RECORD, w.data);
    for i := 0 to |s|
      invariant w.head == old(w.head) && w.fmt == old(w.fmt) && w.parts == old(w.parts)
      invariant w.data == start + EncItems(FETCHED_RECORD, vs[..i])
    {
      NextItem(FETCHED_RECORD, vs, i, start);
      PutFetchedRecord(w, s[i]);
    }
    assert vs[..|vs|] == vs;
    w.WroteList(FETCHED_RECORD, vs, old(w.data));
  }

  lemma FetchedRecordAllFit(s: seq<FetchedRecord>)
    requires Each(s, SendableFetched)
    ensures |s| < U32_RANGE
    ensures forall i {:trigger Mapped(FetchedRecordVal, s)[i]} ::
        0 <= i < |s| ==> Fits(FETCHED_RECORD, Mapped(FetchedRecordVal, s)[i])
  {
    hide Mapped, FetchedRecordVal;
    forall i | 0 <= i < |s| ensures Fits(FETCHED_RECORD, FetchedRecordVal(s[i])) {
      FetchedRecordIsFit(s[i]);
    }
  }

  method ReadFetchedRecords(r: Reader) returns (m: Result<seq<FetchedRecord>, ProtoError>)
    requires r.Reading() && r.Next(FList(FETCHED_RECORD))
    modifies r
    ensures r.from == old(r.from) && r.fmt == old(r.fmt)
    ensures m.Ok? ==> r.Reading() && r.parts == old(r.parts) + [VList(Mapped(FetchedRecordVal, m.value))]
    ensures m.Err? ==> r.Fails(m.error)
  {
    hide DecFields, DecItems, Dec, FetchedRecordVal, DecU32;
    var n := r.Count();
    if n.Err? {
      CountFails(FETCHED_RECORD, r.buf, old(r.pos));
      r.Missed(FList(FETCHED_RECORD), n.error, old(r.pos));
      return Err(n.error);
    }
    ghost var start := r.pos;
    var s: seq<FetchedRecord> := [];
    assert Mapped(FetchedRecordVal, s) == [];
    AfterCons([], VNum(0), DecItems(FETCHED_RECORD, n.value, r.buf, r.pos));
    for i := 0 to n.value
      invariant r.pos <= |r.buf| && |s| == i && r.from == old(r.from) && r.fmt == old(r.fmt) && r.parts == old(r.parts)
      invariant DecItems(FETCHED_RECORD, n.value, r.buf, start)
          == After(Mapped(FetchedRecordVal, s), DecItems(FETCHED_RECORD, n.value - i, r.buf, r.pos))
    {
      UnfoldItems(FETCHED_RECORD, n.value - i, r.buf, r.pos);
      var x := ReadFetchedRecord(r);
      if x.Err? {
        ListFails(FETCHED_RECORD, n.value, x.error, r.buf, old(r.pos), start);
        r.Missed(FList(FETCHED_RECORD), x.error, old(r.pos));
        return Err(x.error);
      }
      AfterCons(Mapped(FetchedRecordVal, s), FetchedRecordVal(x.value),
          DecItems(FETCHED_RECORD, n.value - i - 1, r.buf, r.pos));
      assert Mapped(FetchedRecordVal, s + [x.value]) == Mapped(FetchedRecordVal, s) + [FetchedRecordVal(x.value)];
      s := s + [x.value];
    }
    ListRead(FETCHED_RECORD, n.value, Mapped(FetchedRecordVal, s), old(r.pos), start, r.buf, r.pos);
    r.Got(FList(FETCHED_RECORD), VList(Mapped(FetchedRecordVal, s)), old(r.pos));
    return Ok(s);
  }

  // ---------------------------------------------------------------- the whole response

  const FETCHED := FStruct([FEnum16(MAX_ERROR), FU64, FU64, FU64, FList(FETCHED_RECORD)])

  function FetchedParts(m: Response): seq<Val>
    requires m.ReplicaFetchReply?
  {
    [VNum(ErrorNum(m.error)), VNum(m.leaderEpoch), VNum(m.logEnd), VNum(m.highWatermark),
     VList(Mapped(FetchedRecordVal, m.records))]
  }

  lemma FetchedIs(m: Response)
    requires m.ReplicaFetchReply?
    ensures ResponseFmt(m) == FETCHED && ResponseParts(m) == FetchedParts(m) && ResponseNumber(m) == 10
    ensures ResponseFields(10) == Some(FETCHED.fields) && |FetchedParts(m)| == |FETCHED.fields|
    ensures SendableResponse(m) <==> Each(m.records, SendableFetched)
  {
  }

  method PutFetched(w: BodyWriter, m: Response)
    requires m.ReplicaFetchReply? && Each(m.records, SendableFetched)
    requires w.Writing() && w.fmt == FETCHED && w.parts == []
    modifies w
    ensures w.Writing() && w.head == old(w.head) && w.fmt == old(w.fmt) && w.parts == FetchedParts(m)
  {
    hide Each, Mapped, BodyWriter.Writing, ErrorNum;
    ErrorSmall(m.error);
    w.Enum16(ErrorNum(m.error), MAX_ERROR);
    w.U64(m.leaderEpoch);
    w.U64(m.logEnd);
    w.U64(m.highWatermark);
    PutFetchedRecords(w, m.records);
    assert w.parts == FetchedParts(m);
  }

  /** The frame that `encode_response` builds: the length is patched in at the end. */
  method EncodeFetched(m: Response, corr: u32) returns (frame: seq<byte>)
    requires m.ReplicaFetchReply? && SendableResponse(m)
    ensures frame == PutU32(AsU32(|ResponsePayload(m, corr)|)) + ResponsePayload(m, corr)
  {
    FetchedIs(m);
    hide Each, BodyWriter.Writing, PutU32, Enc, Fits, ResponseParts, ResponseNumber, ResponseFmt, SendableResponse,
      FetchedParts;
    var w := new BodyWriter();
    w.Extend([0, 0, 0, 0]);
    w.Extend([VERSION, RESPONSE_BIT + 10]);
    w.Extend(PutU32(corr));
    w.Begin(FETCHED);
    PutFetched(w, m);
    w.End([], FETCHED, []);
    var len := |w.data| - 4;
    assert w.data == [0, 0, 0, 0] + ResponsePayload(m, corr);
    frame := PutU32(AsU32(len)) + w.data[4..];
  }

  method ReadFetched(r: Reader) returns (m: Result<Response, ProtoError>)
    requires r.Reading() && r.fmt == FETCHED && r.parts == []
    modifies r
    ensures r.from == old(r.from) && r.fmt == old(r.fmt)
    ensures m.Ok? ==> r.Reading() && m.value.ReplicaFetchReply? && r.parts == FetchedParts(m.value)
    ensures m.Err? ==> r.Fails(m.error)
  {
    hide Mapped, Reader.Reading, Reader.Fails;
    var error :- r.Enum16(MAX_ERROR);
    var leaderEpoch :- r.U64();
    var logEnd :- r.U64();
    var highWatermark :- r.U64();
    var records :- ReadFetchedRecords(r);
    ErrorKnown(error);
    m := Ok(ReplicaFetchReply(ErrorOf(error), leaderEpoch, logEnd, highWatermark, records));
    assert r.parts == FetchedParts(m.value);
  }

  /** The ReplicaFetch arm of `decode_response`, and the check that nothing follows the body. */
  method DecodeFetched(frame: seq<byte>) returns (m: Result<Response, ProtoError>)
    requires DecHeader(frame).Ok? && DecHeader(frame).value.0 == RESPONSE_BIT + 10
    ensures match DecResponse(frame) case Err(e) => m == Err(e) case Ok((_, resp)) => m == Ok(resp)
  {
    hide Reader.Reading, Dec, DecHeader, ResponseOf, FetchedParts, ResponseFields;
    var r := new Reader(frame);
    HeaderLength(frame);
    var _ := r.TakeBytes(6);
    r.Begin(FETCHED);
    FetchedIs(ReplicaFetchReply(NoError, 0, 0, 0, []));
    m := ReadFetched(r);
    if m.Ok? {
      FetchedIs(m.value);
      r.Done();
      ResponseBack(m.value);
      if r.pos != |frame| {
        m := Err(Invalid);
      }
    }
  }

  lemma ErrorKnown(n: u16)
    requires n <= MAX_ERROR
    ensures ErrorNum(ErrorOf(n)) == n
  {
  }
}
