/** Consumer offsets in a log of their own: replayed at startup, appended on every commit (src/broker/offsets.rs). */
module Offsets {
  import opened Wrappers
  import opened Bytes
  import opened RecordCodec
  import Config
  import opened Messages
  import opened PartitionLog
  import opened PartitionThread
  import opened ReplicaState
  import opened Wire
  import opened WireIO
  import opened Proto

  datatype OffsetKey = OffsetKey(group: str, topic: str, partition: u32)

  datatype Entry = Entry(key: OffsetKey, offset: u64)

  const KEY := FStruct([FStr, FStr, FU32])
  const READ_BYTES: nat := 4 * 1024 * 1024

  function KeyVal(k: OffsetKey): Val { VStruct([VBytes(k.group), VBytes(k.topic), VNum(k.partition)]) }

  lemma KeyFits(k: OffsetKey)
    requires Short(k.group) && Short(k.topic)
    ensures Wire.Fits(KEY, KeyVal(k))
  {
  }

  function KeyBytes(k: OffsetKey): seq<byte>
    requires Short(k.group) && Short(k.topic)
  {
    KeyFits(k);
    Enc(KEY, KeyVal(k))
  }

  method EncodeKey(k: OffsetKey) returns (key: seq<byte>)
    requires Short(k.group) && Short(k.topic)
    ensures key == KeyBytes(k)
  {
    hide BodyWriter.Writing, Enc, Wire.Fits;
    KeyFits(k);
    var w := new BodyWriter();
    w.Begin(KEY);
    w.Str(k.group);
    w.Str(k.topic);
    w.U32(k.partition);
    assert VStruct(w.parts) == KeyVal(k);
    w.End([], KEY, []);
    key := w.data;
  }

  function KeyOf(v: Val): OffsetKey {
    OffsetKey(ToBytes(Proto.Part(v, 0)), ToBytes(Proto.Part(v, 1)), ToU32(Proto.Part(v, 2)))
  }

  /** What a record of the log says; None for one without a key or with a malformed key or value. */
  function EntryOf(r: Record): Option<Entry> {
    if r.key.None? then None
    else
      var v := DecBody(KEY, r.key.value, 0);
      if v.Err? || |r.value| != 8 then None else Some(Entry(KeyOf(v.value), GetU64(r.value)))
  }

  /** What a commit writes is read back. */
  lemma CommitReadsBack(k: OffsetKey, offset: u64, at: u64, now: i64)
    requires Short(k.group) && Short(k.topic)
    ensures EntryOf(Record(at, now, Some(KeyBytes(k)), PutU64(offset))) == Some(Entry(k, offset))
  {
    KeyFits(k);
    GetPutU64(offset);
    hide Enc, Wire.Fits, DecBody, GetU64, PutU64;
    BodyReadsBack(KEY, KeyVal(k), []);
    assert [] + Enc(KEY, KeyVal(k)) == Enc(KEY, KeyVal(k));
  }

  method DecodeEntry(key: seq<byte>, value: seq<byte>) returns (e: Option<Entry>)
    ensures e == EntryOf(Record(0, 0, Some(key), value))
  {
    hide Reader.Reading, Dec, GetU64;
    var r := new Reader(key);
    r.Begin(KEY);
    var group := r.Str();
    if group.Err? {
      return None;
    }
    var topic := r.Str();
    if topic.Err? {
      return None;
    }
    var partition := r.U32();
    if partition.Err? {
      return None;
    }
    r.Done();
    if r.pos != |key| || |value| != 8 {
      return None;
    }
    var k := OffsetKey(group.value, topic.value, partition.value);
    assert VStruct(r.parts) == KeyVal(k);
    KeyBack(k);
    return Some(Entry(k, GetU64(value)));
  }

  lemma KeyBack(k: OffsetKey)
    ensures KeyOf(KeyVal(k)) == k
  {
  }

  // ---------------------------------------------------------------- last write wins

  /** The offsets after replaying the records in order. */
  function Replay(rs: seq<Record>): map<OffsetKey, u64> {
    if rs == [] then map[] else After(Replay(rs[..|rs| - 1]), EntryOf(rs[|rs| - 1]))
  }

  function After(m: map<OffsetKey, u64>, e: Option<Entry>): map<OffsetKey, u64> {
    if e.None? then m else m[e.value.key := e.value.offset]
  }

  /** The `i`th record is the last one that says anything about the key. */
  ghost predicate LastFor(rs: seq<Record>, k: OffsetKey, i: nat) {
    && i < |rs| && EntryOf(rs[i]).Some? && EntryOf(rs[i]).value.key == k
    && forall j {:trigger rs[j]} :: i < j < |rs| && EntryOf(rs[j]).Some? ==> EntryOf(rs[j]).value.key != k
  }

  /** A key has an offset exactly when some record mentions it, and it is the one of the last such record. */
  lemma {:induction false} ReplayIsLast(rs: seq<Record>, k: OffsetKey)
    ensures k in Replay(rs) <==> exists i: nat :: LastFor(rs, k, i)
    ensures forall i: nat :: LastFor(rs, k, i) ==> k in Replay(rs) && Replay(rs)[k] == EntryOf(rs[i]).value.offset
    decreases |rs|
  {
    hide EntryOf;
    if rs != [] {
      var n := |rs| - 1;
      var rest := rs[..n];
      ReplayIsLast(rest, k);
      var e := EntryOf(rs[n]);
      if e.Some? && e.value.key == k {
        assert LastFor(rs, k, n);
        forall i: nat | LastFor(rs, k, i) ensures i == n {
        }
      } else {
        forall i: nat ensures LastFor(rs, k, i) <==> LastFor(rest, k, i) {
          LastForPrefix(rs, k, i);
        }
      }
    }
  }

  lemma LastForPrefix(rs: seq<Record>, k: OffsetKey, i: nat)
    requires rs != []
    requires EntryOf(rs[|rs| - 1]).Some? ==> EntryOf(rs[|rs| - 1]).value.key != k
    ensures LastFor(rs, k, i) <==> LastFor(rs[..|rs| - 1], k, i)
  {
    hide EntryOf;
    var rest := rs[..|rs| - 1];
    if LastFor(rs, k, i) {
      assert i != |rs| - 1;
      forall j | i < j < |rest| && EntryOf(rest[j]).Some? ensures EntryOf(rest[j]).value.key != k {
        assert rs[j] == rest[j];
      }
    }
    if LastFor(rest, k, i) {
      forall j | i < j < |rs| && EntryOf(rs[j]).Some? ensures EntryOf(rs[j]).value.key != k {
        if j < |rest| {
          assert rs[j] == rest[j];
        }
      }
    }
  }

  lemma ReplayMore(rs: seq<Record>, n: nat)
    requires n < |rs|
    ensures Replay(rs[..n + 1]) == After(Replay(rs[..n]), EntryOf(rs[n]))
  {
    hide EntryOf;
    assert rs[..n + 1][..n] == rs[..n];
  }

  // ---------------------------------------------------------------- the store

  class OffsetsStore {
    const writer: Writer
    var cache: map<OffsetKey, u64>

    constructor Of(writer: Writer, cache: map<OffsetKey, u64>)
      ensures this.writer == writer && this.cache == cache
    {
      this.writer, this.cache := writer, cache;
    }

    /** The cache is what the log says. */
    ghost predicate Replayed()
      reads this, writer, writer.log
    {
      cache == Replay(writer.log.records)
    }

    /** Replays the log by bounded reads until nothing is left, whatever the segments and the record sizes. */
    static method Open(writer: Writer) returns (r: Result<OffsetsStore, ErrorCode>)
      requires writer.Valid()
      ensures writer.log.start > 0 ==> r == Err(OutOfRange)
      ensures writer.log.start == 0 ==>
                r.Ok? && fresh(r.value) && r.value.writer == writer && r.value.Replayed()
    {
      hide Writer.Valid, Log.State, ReadResult, Replay, EntryOf;
      writer.EndIs();
      var cache: map<OffsetKey, u64> := map[];
      var pos := 0;
      ghost var all := writer.log.records;
      assert all[..0] == [] && Replay([]) == map[] by { NothingReplayed(); }
      while true
        invariant writer.log.start == 0 ==> pos <= |all| && cache == Replay(all[..pos])
        invariant writer.log.start > 0 ==> pos == 0
        decreases |all| - pos
      {
        var ok :- writer.Read(pos, READ_BYTES);
        if ok.records == [] {
          if pos < |all| {
            ResultIsRun(writer.log.State(), ok.records, pos, READ_BYTES);
          }
          break;
        }
        ResultIsRun(writer.log.State(), ok.records, pos, READ_BYTES);
        StateRecords(writer.log);
        ghost var first := pos;
        for i := 0 to |ok.records|
          invariant pos == first + i && cache == Replay(all[..pos])
        {
          writer.OffsetIs(first + i);
          ReplayMore(all, first + i);
          var rec := ok.records[i];
          pos := rec.offset + 1;
          if rec.key.Some? {
            var e := DecodeEntry(rec.key.value, rec.value);
            SameEntry(rec);
            if e.Some? {
              cache := cache[e.value.key := e.value.offset];
            }
          } else {
            NoKeyNoEntry(rec);
          }
        }
      }
      assert all[..|all|] == all;
      var s := new OffsetsStore.Of(writer, cache);
      return Ok(s);
    }

    /** Appends the commit, then remembers it; what is too large for the log changes nothing. */
    method Commit(k: OffsetKey, offset: u64, now: i64) returns (error: ErrorCode)
      requires writer.Valid() && Replayed() && Short(k.group) && Short(k.topic)
      requires writer.log.NextOffset() + 1 < U64_RANGE && this !in writer.log.Repr
      modifies this, writer, writer.log.Repr
      ensures writer.Valid() && Replayed()
      ensures error == NoError ==>
          cache == old(cache)[k := offset] && |writer.log.records| == |old(writer.log.records)| + 1
      ensures error != NoError ==>
          error == Malformed && cache == old(cache) && writer.log.records == old(writer.log.records)
    {
      hide Writer.Valid, Replay, EntryOf, Config.Fits, KeyBytes, PutU64;
      var key := EncodeKey(k);
      var before := writer.log.NextOffset();
      var batch, clock := [ProduceRecord(Some(key), PutU64(offset))], [now];
      ghost var first := writer.log.records;
      ghost var count := writer.Append(batch, clock, Durable, None);
      if writer.log.NextOffset() == before {
        assert writer.log.records == first;
        return Malformed;
      }
      CommitReadsBack(k, offset, before, now);
      assert writer.log.records == first + [Record(before, now, Some(key), PutU64(offset))];
      ReplayMore(writer.log.records, |first|);
      assert writer.log.records[..|first|] == first && writer.log.records[..|first| + 1] == writer.log.records;
      cache := cache[k := offset];
      return NoError;
    }

    method Fetch(k: OffsetKey) returns (offset: Option<u64>)
      ensures offset == if k in cache then Some(cache[k]) else None
    {
      offset := if k in cache then Some(cache[k]) else None;
    }
  }

  lemma NothingReplayed()
    ensures Replay([]) == map[]
  {
  }

  lemma SameEntry(r: Record)
    requires r.key.Some?
    ensures EntryOf(r) == EntryOf(Record(0, 0, r.key, r.value))
  {
    hide DecBody, GetU64;
  }

  lemma NoKeyNoEntry(r: Record)
    requires r.key.None?
    ensures EntryOf(r).None?
  {
    hide DecBody, GetU64;
  }

  lemma StateRecords(log: Log)
    ensures log.State().records == log.records && log.State().start == log.start
  {
  }
}
