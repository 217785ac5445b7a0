/** Encoding and decoding in place, for the messages whose bodies hold lists: cluster metadata, whose lists nest, and
    produce requests (`put_cluster_meta`, `read_cluster_meta` and the Produce arms of src/proto/mod.rs). */
module ProtoIO {
  import opened Wrappers
  import opened Bytes
  import opened Messages
  import opened Wire
  import opened WireIO
  import opened Proto

  // ---------------------------------------------------------------- what fits

  lemma ProduceRecordIsFit(x: ProduceRecord)
    requires SendableRecord(x)
    ensures Fits(PRODUCE_RECORD, ProduceRecordVal(x))
  {
  }

  lemma AddressIsFit(x: Address)
    requires SendableAddress(x)
    ensures Fits(ADDRESS, AddressVal(x))
  {
  }

  lemma PartitionIsFit(x: PartitionMeta)
    requires SendablePartition(x)
    ensures Fits(PARTITION_META, PartitionVal(x))
  {
    PartitionFits(x);
  }

  lemma TopicIsFit(x: TopicMeta)
    requires SendableTopic(x)
    ensures Fits(TOPIC_META, TopicVal(x))
  {
    TopicFits(x);
  }

  // ---------------------------------------------------------------- records of a produce request

  method PutProduceRecord(w: BodyWriter, a: ProduceRecord)
    requires SendableRecord(a)
    modifies w
    ensures Fits(PRODUCE_RECORD, ProduceRecordVal(a))
        && w.data == old(w.data) + Enc(PRODUCE_RECORD, ProduceRecordVal(a))
    ensures w.head == old(w.head) && w.fmt == old(w.fmt) && w.parts == old(w.parts)
  {
    hide BodyWriter.Writing, Mapped, Nums, Each, Enc, Fits;
    ghost var h, f, ps := w.head, w.fmt, w.parts;
    w.Begin(PRODUCE_RECORD);
    w.OptBlob(a.key);
    w.Blob(a.value);
    assert VStruct(w.parts) == ProduceRecordVal(a);
    w.End(h, f, ps);
  }

  method ReadProduceRecord(r: Reader) returns (m: Result<ProduceRecord, ProtoError>)
    requires r.pos <= |r.buf|
    modifies r
    ensures r.from == old(r.from) && r.fmt == old(r.fmt) && r.parts == old(r.parts)
    ensures m.Ok? ==>
        r.pos <= |r.buf| && Dec(PRODUCE_RECORD, r.buf, old(r.pos)) == Ok((ProduceRecordVal(m.value), r.pos))
    ensures m.Err? ==> Dec(PRODUCE_RECORD, r.buf, old(r.pos)) == Err(m.error)
  {
    hide Reader.Reading, Mapped, Nums, Dec;
    ghost var f0, f1, f2 := r.from, r.fmt, r.parts;
    r.Begin(PRODUCE_RECORD);
    var key := r.OptBlob();
    if key.Err? {
      r.Resume(f0, f1, f2);
      return Err(key.error);
    }
    var value := r.Blob();
    if value.Err? {
      r.Resume(f0, f1, f2);
      return Err(value.error);
    }
    r.Done();
    assert VStruct(r.parts) == ProduceRecordVal(ProduceRecord(key.value, value.value));
    r.Resume(f0, f1, f2);
    return Ok(ProduceRecord(key.value, value.value));
  }

  method PutProduceRecords(w: BodyWriter, s: seq<ProduceRecord>)
    requires w.Writing() && w.Next(FList(PRODUCE_RECORD)) && Each(s, SendableRecord)
    modifies w
    ensures w.Writing() && w.head == old(w.head) && w.fmt == old(w.fmt)
        && w.parts == old(w.parts) + [VList(Mapped(ProduceRecordVal, s))]
  {
    hide PutU32, Mapped, EncFields, SendableRecord, ProduceRecordVal;
    w.Extend(PutU32(AsU32(|s|)));
    ghost var start, vs := w.data, Mapped(ProduceRecordVal, s);
    ProduceRecordAllFit(s);
    NoItems(PRODUCE_RECORD, w.data);
    for i := 0 to |s|
      invariant w.head == old(w.head) && w.fmt == old(w.fmt) && w.parts == old(w.parts)
      invariant w.data == start + EncItems(PRODUCE_RECORD, vs[..i])
    {
      NextItem(PRODUCE_RECORD, vs, i, start);
      PutProduceRecord(w, s[i]);
    }
    assert vs[..|vs|] == vs;
    w.WroteList(PRODUCE_RECORD, vs, old(w.data));
  }

  lemma ProduceRecordAllFit(s: seq<ProduceRecord>)
    requires Each(s, SendableRecord)
    ensures |s| < U32_RANGE
    ensures forall i {:trigger Mapped(ProduceRecordVal, s)[i]} ::
        0 <= i < |s| ==> Fits(PRODUCE_RECORD, Mapped(ProduceRecordVal, s)[i])
  {
    hide Mapped, ProduceRecordVal;
    forall i | 0 <= i < |s| ensures Fits(PRODUCE_RECORD, ProduceRecordVal(s[i])) {
      ProduceRecordIsFit(s[i]);
    }
  }

  method ReadProduceRecords(r: Reader) returns (m: Result<seq<ProduceRecord>, ProtoError>)
    requires r.Reading() && r.Next(FList(PRODUCE_RECORD))
    modifies r
    ensures r.from == old(r.from) && r.fmt == old(r.fmt)
    ensures m.Ok? ==> r.Reading() && r.parts == old(r.parts) + [VList(Mapped(ProduceRecordVal, m.value))]
    ensures m.Err? ==> r.Fails(m.error)
  {
    hide DecFields, DecItems, Dec, ProduceRecordVal, DecU32;
    var n := r.Count();
    if n.Err? {
      CountFails(PRODUCE_RECORD, r.buf, old(r.pos));
      r.Missed(FList(PRODUCE_RECORD), n.error, old(r.pos));
      return Err(n.error);
    }
    ghost var start := r.pos;
    var s: seq<ProduceRecord> := [];
    assert Mapped(ProduceRecordVal, s) == [];
    AfterCons([], VNum(0), DecItems(PRODUCE_RECORD, n.value, r.buf, r.pos));
    for i := 0 to n.value
      invariant r.pos <= |r.buf| && |s| == i && r.from == old(r.from) && r.fmt == old(r.fmt) && r.parts == old(r.parts)
      invariant DecItems(PRODUCE_RECORD, n.value, r.buf, start)
          == After(Mapped(ProduceRecordVal, s), DecItems(PRODUCE_RECORD, n.value - i, r.buf, r.pos))
    {
      UnfoldItems(PRODUCE_RECORD, n.value - i, r.buf, r.pos);
      var x := ReadProduceRecord(r);
      if x.Err? {
        ListFails(PRODUCE_RECORD, n.value, x.error, r.buf, old(r.pos), start);
        r.Missed(FList(PRODUCE_RECORD), x.error, old(r.pos));
        return Err(x.error);
      }
      AfterCons(Mapped(ProduceRecordVal, s), ProduceRecordVal(x.value),
          DecItems(PRODUCE_RECORD, n.value - i - 1, r.buf, r.pos));
      assert Mapped(ProduceRecordVal, s + [x.value]) == Mapped(ProduceRecordVal, s) + [ProduceRecordVal(x.value)];
      s := s + [x.value];
    }
    ListRead(PRODUCE_RECORD, n.value, Mapped(ProduceRecordVal, s), old(r.pos), start, r.buf, r.pos);
    r.Got(FList(PRODUCE_RECORD), VList(Mapped(ProduceRecordVal, s)), old(r.pos));
    return Ok(s);
  }

  // ---------------------------------------------------------------- cluster metadata

  method PutAddress(w: BodyWriter, a: Address)
    requires SendableAddress(a)
    modifies w
    ensures Fits(ADDRESS, AddressVal(a)) && w.data == old(w.data) + Enc(ADDRESS, AddressVal(a))
    ensures w.head == old(w.head) && w.fmt == old(w.fmt) && w.parts == old(w.parts)
  {
    hide BodyWriter.Writing, Mapped, Nums, Each, Enc, Fits;
    ghost var h, f, ps := w.head, w.fmt, w.parts;
    w.Begin(ADDRESS);
    w.U32(a.id);
    w.Str(a.addr);
    assert VStruct(w.parts) == AddressVal(a);
    w.End(h, f, ps);
  }

  method ReadAddress(r: Reader) returns (m: Result<Address, ProtoError>)
    requires r.pos <= |r.buf|
    modifies r
    ensures r.from == old(r.from) && r.fmt == old(r.fmt) && r.parts == old(r.parts)
    ensures m.Ok? ==> r.pos <= |r.buf| && Dec(ADDRESS, r.buf, old(r.pos)) == Ok((AddressVal(m.value), r.pos))
    ensures m.Err? ==> Dec(ADDRESS, r.buf, old(r.pos)) == Err(m.error)
  {
    hide Reader.Reading, Mapped, Nums, Dec;
    ghost var f0, f1, f2 := r.from, r.fmt, r.parts;
    r.Begin(ADDRESS);
    var id := r.U32();
    if id.Err? {
      r.Resume(f0, f1, f2);
      return Err(id.error);
    }
    var addr := r.Str();
    if addr.Err? {
      r.Resume(f0, f1, f2);
      return Err(addr.error);
    }
    r.Done();
    assert VStruct(r.parts) == AddressVal(Address(id.value, addr.value));
    r.Resume(f0, f1, f2);
    return Ok(Address(id.value, addr.value));
  }

  method PutAddresses(w: BodyWriter, s: seq<Address>)
    requires w.Writing() && w.Next(FList(ADDRESS)) && Each(s, SendableAddress)
    modifies w
    ensures w.Writing() && w.head == old(w.head) && w.fmt == old(w.fmt)
        && w.parts == old(w.parts) + [VList(Mapped(AddressVal, s))]
  {
    hide PutU32, Mapped, EncFields, SendableAddress, AddressVal;
    w.Extend(PutU32(AsU32(|s|)));
    ghost var start, vs := w.data, Mapped(AddressVal, s);
    AddressAllFit(s);
    NoItems(ADDRESS, w.data);
    for i := 0 to |s|
      invariant w.head == old(w.head) && w.fmt == old(w.fmt) && w.parts == old(w.parts)
      invariant w.data == start + EncItems(ADDRESS, vs[..i])
    {
      NextItem(ADDRESS, vs, i, start);
      PutAddress(w, s[i]);
    }
    assert vs[..|vs|] == vs;
    w.WroteList(ADDRESS, vs, old(w.data));
  }

  lemma AddressAllFit(s: seq<Address>)
    requires Each(s, SendableAddress)
    ensures |s| < U32_RANGE
    ensures forall i {:trigger Mapped(AddressVal, s)[i]} :: 0 <= i < |s| ==> Fits(ADDRESS, Mapped(AddressVal, s)[i])
  {
    hide Mapped, AddressVal;
    forall i | 0 <= i < |s| ensures Fits(ADDRESS, AddressVal(s[i])) {
      AddressIsFit(s[i]);
    }
  }

  method ReadAddresses(r: Reader) returns (m: Result<seq<Address>, ProtoError>)
    requires r.Reading() && r.Next(FList(ADDRESS))
    modifies r
    ensures r.from == old(r.from) && r.fmt == old(r.fmt)
    ensures m.Ok? ==> r.Reading() && r.parts == old(r.parts) + [VList(Mapped(AddressVal, m.value))]
    ensures m.Err? ==> r.Fails(m.error)
  {
    hide DecFields, DecItems, Dec, AddressVal, DecU32;
    var n := r.Count();
    if n.Err? {
      CountFails(ADDRESS, r.buf, old(r.pos));
      r.Missed(FList(ADDRESS), n.error, old(r.pos));
      return Err(n.error);
    }
    ghost var start := r.pos;
    var s: seq<Address> := [];
    assert Mapped(AddressVal, s) == [];
    AfterCons([], VNum(0), DecItems(ADDRESS, n.value, r.buf, r.pos));
    for i := 0 to n.value
      invariant r.pos <= |r.buf| && |s| == i && r.from == old(r.from) && r.fmt == old(r.fmt) && r.parts == old(r.parts)
      invariant DecItems(ADDRESS, n.value, r.buf, start)
          == After(Mapped(AddressVal, s), DecItems(ADDRESS, n.value - i, r.buf, r.pos))
    {
      UnfoldItems(ADDRESS, n.value - i, r.buf, r.pos);
      var x := ReadAddress(r);
      if x.Err? {
        ListFails(ADDRESS, n.value, x.error, r.buf, old(r.pos), start);
        r.Missed(FList(ADDRESS), x.error, old(r.pos));
        return Err(x.error);
      }
      AfterCons(Mapped(AddressVal, s), AddressVal(x.value), DecItems(ADDRESS, n.value - i - 1, r.buf, r.pos));
      assert Mapped(AddressVal, s + [x.value]) == Mapped(AddressVal, s) + [AddressVal(x.value)];
      s := s + [x.value];
    }
    ListRead(ADDRESS, n.value, Mapped(AddressVal, s), old(r.pos), start, r.buf, r.pos);
    r.Got(FList(ADDRESS), VList(Mapped(AddressVal, s)), old(r.pos));
    return Ok(s);
  }

  method PutPartition(w: BodyWriter, a: PartitionMeta)
    requires SendablePartition(a)
    modifies w
    ensures Fits(PARTITION_META, PartitionVal(a)) && w.data == old(w.data) + Enc(PARTITION_META, PartitionVal(a))
    ensures w.head == old(w.head) && w.fmt == old(w.fmt) && w.parts == old(w.parts)
  {
    hide BodyWriter.Writing, Mapped, Nums, Each, Enc, Fits;
    ghost var h, f, ps := w.head, w.fmt, w.parts;
    w.Begin(PARTITION_META);
    w.U32(a.partition);
    w.I32(a.leader);
    w.U64(a.leaderEpoch);
    w.U32List(a.replicas);
    w.U32List(a.isr);
    assert VStruct(w.parts) == PartitionVal(a);
    w.End(h, f, ps);
  }

  method ReadPartition(r: Reader) returns (m: Result<PartitionMeta, ProtoError>)
    requires r.pos <= |r.buf|
    modifies r
    ensures r.from == old(r.from) && r.fmt == old(r.fmt) && r.parts == old(r.parts)
    ensures m.Ok? ==> r.pos <= |r.buf| && Dec(PARTITION_META, r.buf, old(r.pos)) == Ok((PartitionVal(m.value), r.pos))
    ensures m.Err? ==> Dec(PARTITION_META, r.buf, old(r.pos)) == Err(m.error)
  {
    hide Reader.Reading, Mapped, Nums, Dec;
    ghost var f0, f1, f2 := r.from, r.fmt, r.parts;
    r.Begin(PARTITION_META);
    var partition := r.U32();
    if partition.Err? {
      r.Resume(f0, f1, f2);
      return Err(partition.error);
    }
    var leader := r.I32();
    if leader.Err? {
      r.Resume(f0, f1, f2);
      return Err(leader.error);
    }
    var leaderEpoch := r.U64();
    if leaderEpoch.Err? {
      r.Resume(f0, f1, f2);
      return Err(leaderEpoch.error);
    }
    var replicas := r.U32List();
    if replicas.Err? {
      r.Resume(f0, f1, f2);
      return Err(replicas.error);
    }
    var isr := r.U32List();
    if isr.Err? {
      r.Resume(f0, f1, f2);
      return Err(isr.error);
    }
    r.Done();
    assert VStruct(r.parts) == PartitionVal(PartitionMeta(partition.value, leader.value,
        leaderEpoch.value, replicas.value, isr.value));
    r.Resume(f0, f1, f2);
    return Ok(PartitionMeta(partition.value, leader.value, leaderEpoch.value, replicas.value, isr.value));
  }

  method PutPartitions(w: BodyWriter, s: seq<PartitionMeta>)
    requires w.Writing() && w.Next(FList(PARTITION_META)) && Each(s, SendablePartition)
    modifies w
    ensures w.Writing() && w.head == old(w.head) && w.fmt == old(w.fmt)
        && w.parts == old(w.parts) + [VList(Mapped(PartitionVal, s))]
  {
    hide PutU32, Mapped, EncFields, SendablePartition, PartitionVal;
    w.Extend(PutU32(AsU32(|s|)));
    ghost var start, vs := w.data, Mapped(PartitionVal, s);
    PartitionAllFit(s);
    NoItems(PARTITION_META, w.data);
    for i := 0 to |s|
      invariant w.head == old(w.head) && w.fmt == old(w.fmt) && w.parts == old(w.parts)
      invariant w.data == start + EncItems(PARTITION_META, vs[..i])
    {
      NextItem(PARTITION_META, vs, i, start);
      PutPartition(w, s[i]);
    }
    assert vs[..|vs|] == vs;
    w.WroteList(PARTITION_META, vs, old(w.data));
  }

  lemma PartitionAllFit(s: seq<PartitionMeta>)
    requires Each(s, SendablePartition)
    ensures |s| < U32_RANGE
    ensures forall i {:trigger Mapped(PartitionVal, s)[i]} ::
        0 <= i < |s| ==> Fits(PARTITION_META, Mapped(PartitionVal, s)[i])
  {
    hide Mapped, PartitionVal;
    forall i | 0 <= i < |s| ensures Fits(PARTITION_META, PartitionVal(s[i])) {
      PartitionIsFit(s[i]);
    }
  }

  method ReadPartitions(r: Reader) returns (m: Result<seq<PartitionMeta>, ProtoError>)
    requires r.Reading() && r.Next(FList(PARTITION_META))
    modifies r
    ensures r.from == old(r.from) && r.fmt == old(r.fmt)
    ensures m.Ok? ==> r.Reading() && r.parts == old(r.parts) + [VList(Mapped(PartitionVal, m.value))]
    ensures m.Err? ==> r.Fails(m.error)
  {
    hide DecFields, DecItems, Dec, PartitionVal, DecU32;
    var n := r.Count();
    if n.Err? {
      CountFails(PARTITION_META, r.buf, old(r.pos));
      r.Missed(FList(PARTITION_META), n.error, old(r.pos));
      return Err(n.error);
    }
    ghost var start := r.pos;
    var s: seq<PartitionMeta> := [];
    assert Mapped(PartitionVal, s) == [];
    AfterCons([], VNum(0), DecItems(PARTITION_META, n.value, r.buf, r.pos));
    for i := 0 to n.value
      invariant r.pos <= |r.buf| && |s| == i && r.from == old(r.from) && r.fmt == old(r.fmt) && r.parts == old(r.parts)
      invariant DecItems(PARTITION_META, n.value, r.buf, start)
          == After(Mapped(PartitionVal, s), DecItems(PARTITION_META, n.value - i, r.buf, r.pos))
    {
      UnfoldItems(PARTITION_META, n.value - i, r.buf, r.pos);
      var x := ReadPartition(r);
      if x.Err? {
        ListFails(PARTITION_META, n.value, x.error, r.buf, old(r.pos), start);
        r.Missed(FList(PARTITION_META), x.error, old(r.pos));
        return Err(x.error);
      }
      AfterCons(Mapped(PartitionVal, s), PartitionVal(x.value),
                DecItems(PARTITION_META, n.value - i - 1, r.buf, r.pos));
      assert Mapped(PartitionVal, s + [x.value]) == Mapped(PartitionVal, s) + [PartitionVal(x.value)];
      s := s + [x.value];
    }
    ListRead(PARTITION_META, n.value, Mapped(PartitionVal, s), old(r.pos), start, r.buf, r.pos);
    r.Got(FList(PARTITION_META), VList(Mapped(PartitionVal, s)), old(r.pos));
    return Ok(s);
  }

  method PutTopic(w: BodyWriter, a: TopicMeta)
    requires SendableTopic(a)
    modifies w
    ensures Fits(TOPIC_META, TopicVal(a)) && w.data == old(w.data) + Enc(TOPIC_META, TopicVal(a))
    ensures w.head == old(w.head) && w.fmt == old(w.fmt) && w.parts == old(w.parts)
  {
    hide BodyWriter.Writing, Mapped, Nums, Each, Enc, Fits;
    ghost var h, f, ps := w.head, w.fmt, w.parts;
    w.Begin(TOPIC_META);
    w.Str(a.name);
    PutPartitions(w, a.partitions);
    assert VStruct(w.parts) == TopicVal(a);
    w.End(h, f, ps);
  }

  method ReadTopic(r: Reader) returns (m: Result<TopicMeta, ProtoError>)
    requires r.pos <= |r.buf|
    modifies r
    ensures r.from == old(r.from) && r.fmt == old(r.fmt) && r.parts == old(r.parts)
    ensures m.Ok? ==> r.pos <= |r.buf| && Dec(TOPIC_META, r.buf, old(r.pos)) == Ok((TopicVal(m.value), r.pos))
    ensures m.Err? ==> Dec(TOPIC_META, r.buf, old(r.pos)) == Err(m.error)
  {
    hide Reader.Reading, Mapped, Nums, Dec;
    ghost var f0, f1, f2 := r.from, r.fmt, r.parts;
    r.Begin(TOPIC_META);
    var name := r.Str();
    if name.Err? {
      r.Resume(f0, f1, f2);
      return Err(name.error);
    }
    var partitions := ReadPartitions(r);
    if partitions.Err? {
      r.Resume(f0, f1, f2);
      return Err(partitions.error);
    }
    r.Done();
    assert VStruct(r.parts) == TopicVal(TopicMeta(name.value, partitions.value));
    r.Resume(f0, f1, f2);
    return Ok(TopicMeta(name.value, partitions.value));
  }

  method PutTopics(w: BodyWriter, s: seq<TopicMeta>)
    requires w.Writing() && w.Next(FList(TOPIC_META)) && Each(s, SendableTopic)
    modifies w
    ensures w.Writing() && w.head == old(w.head) && w.fmt == old(w.fmt)
        && w.parts == old(w.parts) + [VList(Mapped(TopicVal, s))]
  {
    hide PutU32, Mapped, EncFields, SendableTopic, TopicVal;
    w.Extend(PutU32(AsU32(|s|)));
    ghost var start, vs := w.data, Mapped(TopicVal, s);
    TopicAllFit(s);
    NoItems(TOPIC_META, w.data);
    for i := 0 to |s|
      invariant w.head == old(w.head) && w.fmt == old(w.fmt) && w.parts == old(w.parts)
      invariant w.data == start + EncItems(TOPIC_META, vs[..i])
    {
      NextItem(TOPIC_META, vs, i, start);
      PutTopic(w, s[i]);
    }
    assert vs[..|vs|] == vs;
    w.WroteList(TOPIC_META, vs, old(w.data));
  }

  lemma TopicAllFit(s: seq<TopicMeta>)
    requires Each(s, SendableTopic)
    ensures |s| < U32_RANGE
    ensures forall i {:trigger Mapped(TopicVal, s)[i]} :: 0 <= i < |s| ==> Fits(TOPIC_META, Mapped(TopicVal, s)[i])
  {
    hide Mapped, TopicVal;
    forall i | 0 <= i < |s| ensures Fits(TOPIC_META, TopicVal(s[i])) {
      TopicIsFit(s[i]);
    }
  }

  method ReadTopics(r: Reader) returns (m: Result<seq<TopicMeta>, ProtoError>)
    requires r.Reading() && r.Next(FList(TOPIC_META))
    modifies r
    ensures r.from == old(r.from) && r.fmt == old(r.fmt)
    ensures m.Ok? ==> r.Reading() && r.parts == old(r.parts) + [VList(Mapped(TopicVal, m.value))]
    ensures m.Err? ==> r.Fails(m.error)
  {
    hide DecFields, DecItems, Dec, TopicVal, DecU32;
    var n := r.Count();
    if n.Err? {
      CountFails(TOPIC_META, r.buf, old(r.pos));
      r.Missed(FList(TOPIC_META), n.error, old(r.pos));
      return Err(n.error);
    }
    ghost var start := r.pos;
    var s: seq<TopicMeta> := [];
    assert Mapped(TopicVal, s) == [];
    AfterCons([], VNum(0), DecItems(TOPIC_META, n.value, r.buf, r.pos));
    for i := 0 to n.value
      invariant r.pos <= |r.buf| && |s| == i && r.from == old(r.from) && r.fmt == old(r.fmt) && r.parts == old(r.parts)
      invariant DecItems(TOPIC_META, n.value, r.buf, start)
          == After(Mapped(TopicVal, s), DecItems(TOPIC_META, n.value - i, r.buf, r.pos))
    {
      UnfoldItems(TOPIC_META, n.value - i, r.buf, r.pos);
      var x := ReadTopic(r);
      if x.Err? {
        ListFails(TOPIC_META, n.value, x.error, r.buf, old(r.pos), start);
        r.Missed(FList(TOPIC_META), x.error, old(r.pos));
        return Err(x.error);
      }
      AfterCons(Mapped(TopicVal, s), TopicVal(x.value), DecItems(TOPIC_META, n.value - i - 1, r.buf, r.pos));
      assert Mapped(TopicVal, s + [x.value]) == Mapped(TopicVal, s) + [TopicVal(x.value)];
      s := s + [x.value];
    }
    ListRead(TOPIC_META, n.value, Mapped(TopicVal, s), old(r.pos), start, r.buf, r.pos);
    r.Got(FList(TOPIC_META), VList(Mapped(TopicVal, s)), old(r.pos));
    return Ok(s);
  }

  method PutClusterMeta(w: BodyWriter, a: ClusterMeta)
    requires SendableCluster(a)
    modifies w
    ensures Fits(CLUSTER_META, ClusterVal(a)) && w.data == old(w.data) + Enc(CLUSTER_META, ClusterVal(a))
    ensures w.head == old(w.head) && w.fmt == old(w.fmt) && w.parts == old(w.parts)
  {
    hide BodyWriter.Writing, Mapped, Nums, Each, Enc, Fits;
    ghost var h, f, ps := w.head, w.fmt, w.parts;
    w.Begin(CLUSTER_META);
    w.U64(a.version);
    PutAddresses(w, a.brokers);
    PutAddresses(w, a.peers);
    PutTopics(w, a.topics);
    assert VStruct(w.parts) == ClusterVal(a);
    w.End(h, f, ps);
  }

  method ReadClusterMeta(r: Reader) returns (m: Result<ClusterMeta, ProtoError>)
    requires r.pos <= |r.buf|
    modifies r
    ensures r.from == old(r.from) && r.fmt == old(r.fmt) && r.parts == old(r.parts)
    ensures m.Ok? ==> r.pos <= |r.buf| && Dec(CLUSTER_META, r.buf, old(r.pos)) == Ok((ClusterVal(m.value), r.pos))
    ensures m.Err? ==> Dec(CLUSTER_META, r.buf, old(r.pos)) == Err(m.error)
  {
    hide Reader.Reading, Mapped, Nums, Dec;
    ghost var f0, f1, f2 := r.from, r.fmt, r.parts;
    r.Begin(CLUSTER_META);
    var version := r.U64();
    if version.Err? {
      r.Resume(f0, f1, f2);
      return Err(version.error);
    }
    var brokers := ReadAddresses(r);
    if brokers.Err? {
      r.Resume(f0, f1, f2);
      return Err(brokers.error);
    }
    var peers := ReadAddresses(r);
    if peers.Err? {
      r.Resume(f0, f1, f2);
      return Err(peers.error);
    }
    var topics := ReadTopics(r);
    if topics.Err? {
      r.Resume(f0, f1, f2);
      return Err(topics.error);
    }
    r.Done();
    assert VStruct(r.parts) == ClusterVal(ClusterMeta(version.value, brokers.value, peers.value, topics.value));
    r.Resume(f0, f1, f2);
    return Ok(ClusterMeta(version.value, brokers.value, peers.value, topics.value));
  }

  // ---------------------------------------------------------------- a produce request, frame and all

  method PutProduce(w: BodyWriter, m: Request)
    requires m.Produce? && Short(m.topic) && Each(m.records, SendableRecord)
    requires w.Writing() && w.fmt == PRODUCE && w.parts == []
    modifies w
    ensures w.Writing() && w.head == old(w.head) && w.fmt == old(w.fmt) && w.parts == ProduceParts(m)
  {
    hide Each, Mapped, BodyWriter.Writing, AcksNum;
    AcksSmall(m.acks);
    w.Str(m.topic);
    w.U32(m.partition);
    w.Enum8(AcksNum(m.acks), MAX_ACKS);
    w.U64(m.leaderEpoch);
    PutProduceRecords(w, m.records);
    assert w.parts == ProduceParts(m);
  }

  const PRODUCE := FStruct([FStr, FU32, FEnum8(MAX_ACKS), FU64, FList(PRODUCE_RECORD)])

  function ProduceParts(m: Request): seq<Val>
    requires m.Produce?
  {
    [VBytes(m.topic), VNum(m.partition), VNum(AcksNum(m.acks)), VNum(m.leaderEpoch),
        VList(Mapped(ProduceRecordVal, m.records))]
  }

  lemma ProduceIs(m: Request)
    requires m.Produce?
    ensures RequestFmt(m) == PRODUCE && RequestParts(m) == ProduceParts(m) && RequestType(m) == 3
    ensures RequestFields(3) == Some(PRODUCE.fields)
    ensures SendableRequest(m) <==> Short(m.topic) && Each(m.records, SendableRecord)
  {
  }

  /** The frame that `encode_request` builds: the length is patched in at the end. */
  method EncodeProduce(m: Request, corr: u32) returns (frame: seq<byte>)
    requires m.Produce? && SendableRequest(m)
    ensures frame == PutU32(AsU32(|RequestPayload(m, corr)|)) + RequestPayload(m, corr)
  {
    ProduceIs(m);
    hide Each, BodyWriter.Writing, PutU32, Enc, Fits, RequestParts, RequestType,
        RequestFmt, SendableRequest, ProduceParts;
    var w := new BodyWriter();
    w.Extend([0, 0, 0, 0]);
    w.Extend([VERSION, 3]);
    w.Extend(PutU32(corr));
    w.Begin(PRODUCE);
    PutProduce(w, m);
    PartsLength(m);
    w.End([], PRODUCE, []);
    var len := |w.data| - 4;
    assert w.data == [0, 0, 0, 0] + RequestPayload(m, corr);
    frame := PutU32(AsU32(len)) + w.data[4..];
  }

  lemma PartsLength(m: Request)
    requires m.Produce?
    ensures |ProduceParts(m)| == |PRODUCE.fields|
  {
  }

  method ReadProduce(r: Reader) returns (m: Result<Request, ProtoError>)
    requires r.Reading() && r.fmt == PRODUCE && r.parts == []
    modifies r
    ensures r.from == old(r.from) && r.fmt == old(r.fmt)
    ensures m.Ok? ==> r.Reading() && m.value.Produce? && r.parts == ProduceParts(m.value)
    ensures m.Err? ==> r.Fails(m.error)
  {
    hide Mapped, Reader.Reading, Reader.Fails;
    var topic :- r.Str();
    var partition :- r.U32();
    var acks :- r.Enum8(MAX_ACKS);
    var leaderEpoch :- r.U64();
    var records :- ReadProduceRecords(r);
    AcksKnown(acks);
    m := Ok(Produce(topic, partition, AcksOf(acks), leaderEpoch, records));
    assert r.parts == ProduceParts(m.value);
  }

  /** The Produce arm of `decode_request`, and the check that nothing follows the body. */
  method DecodeProduce(frame: seq<byte>) returns (m: Result<Request, ProtoError>)
    requires DecHeader(frame).Ok? && DecHeader(frame).value.0 == 3
    ensures match DecRequest(frame) case Err(e) => m == Err(e) case Ok((_, req)) => m == Ok(req)
  {
    hide Reader.Reading, Dec, DecHeader, RequestOf, ProduceParts, RequestFields;
    var r := new Reader(frame);
    HeaderLength(frame);
    var _ := r.TakeBytes(6);
    r.Begin(PRODUCE);
    ProduceIs(Produce([], 0, All, 0, []));
    m := ReadProduce(r);
    if m.Ok? {
      PartsLength(m.value);
      r.Done();
      ProduceIs(m.value);
      RequestBack(m.value);
      if r.pos != |frame| {
        m := Err(Invalid);
      }
    }
  }

  lemma HeaderLength(frame: seq<byte>)
    requires DecHeader(frame).Ok?
    ensures |frame| >= 6
  {
    hide GetU32;
  }

  lemma AcksKnown(n: u8)
    requires n <= MAX_ACKS
    ensures AcksNum(AcksOf(n)) == n
  {
  }
}
