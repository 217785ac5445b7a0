/** The messages on the wire (src/proto/mod.rs): what each body looks like, and that decoding inverts encoding. */
module Proto {
  import opened Wrappers
  import opened Bytes
  import opened Messages
  import opened Wire
  import opened WireIO

  const VERSION: u8 := 1
  const RESPONSE_BIT: u8 := 0x80
  const MAX_ACKS: u8 := 3
  const MAX_ERROR: u16 := 11

  const PRODUCE_RECORD := FStruct([FOptBlob, FBlob])
  const FETCHED_RECORD := FStruct([FU64, FI64, FOptBlob, FBlob])
  const OWNED := FStruct([FStr, FU32])
  const ADDRESS := FStruct([FU32, FStr])
  const PARTITION_META := FStruct([FU32, FI32, FU64, FList(FU32), FList(FU32)])
  const TOPIC_META := FStruct([FStr, FList(PARTITION_META)])
  const CLUSTER_META := FStruct([FU64, FList(ADDRESS), FList(ADDRESS), FList(TOPIC_META)])

  // ---------------------------------------------------------------- numbers for names

  function AcksNum(a: Acks): u8 {
    match a case AcksNone => 0 case Written => 1 case Durable => 2 case All => 3
  }

  function AcksOf(n: u8): Acks {
    match n case 0 => AcksNone case 1 => Written case 2 => Durable case _ => All
  }

  function ErrorNum(e: ErrorCode): u16 {
    match e
    case NoError => 0
    case UnknownTopicOrPartition => 1
    case OutOfRange => 2
    case Storage => 3
    case Malformed => 4
    case TopicExists => 5
    case UnknownMember => 6
    case StaleGeneration => 7
    case NotLeader => 8
    case FencedEpoch => 9
    case NotEnoughReplicas => 10
    case Offline => 11
  }

  function ErrorOf(n: u16): ErrorCode {
    match n
    case 0 => NoError
    case 1 => UnknownTopicOrPartition
    case 2 => OutOfRange
    case 3 => Storage
    case 4 => Malformed
    case 5 => TopicExists
    case 6 => UnknownMember
    case 7 => StaleGeneration
    case 8 => NotLeader
    case 9 => FencedEpoch
    case 10 => NotEnoughReplicas
    case _ => Offline
  }

  // ---------------------------------------------------------------- values

  function Mapped<A, B>(f: A -> B, s: seq<A>): (r: seq<B>)
    ensures |r| == |s| && forall i {:trigger r[i]} :: 0 <= i < |s| ==> r[i] == f(s[i])
  {
    seq(|s|, i requires 0 <= i < |s| => f(s[i]))
  }

  lemma MappedBack<A>(f: A -> Val, g: Val -> A, s: seq<A>)
    requires forall i {:trigger s[i]} :: 0 <= i < |s| ==> g(f(s[i])) == s[i]
    ensures Mapped(g, Mapped(f, s)) == s
  {
    hide Mapped;
  }

  function StrVal(s: str): Val { VBytes(s) }
  function ProduceRecordVal(r: ProduceRecord): Val { VStruct([VOpt(r.key), VBytes(r.value)]) }
  function FetchedRecordVal(r: FetchedRecord): Val {
    VStruct([VNum(r.offset), VNum(r.timestamp), VOpt(r.key), VBytes(r.value)])
  }
  function OwnedVal(o: Owned): Val { VStruct([VBytes(o.topic), VNum(o.partition)]) }
  function AddressVal(a: Address): Val { VStruct([VNum(a.id), VBytes(a.addr)]) }
  function PartitionVal(p: PartitionMeta): Val {
    VStruct([VNum(p.partition), VNum(p.leader), VNum(p.leaderEpoch), VList(Nums(p.replicas)), VList(Nums(p.isr))])
  }
  function TopicVal(t: TopicMeta): Val { VStruct([VBytes(t.name), VList(Mapped(PartitionVal, t.partitions))]) }
  function ClusterVal(c: ClusterMeta): Val {
    VStruct([VNum(c.version), VList(Mapped(AddressVal, c.brokers)), VList(Mapped(AddressVal, c.peers)),
             VList(Mapped(TopicVal, c.topics))])
  }

  // What a value of the right shape stands for; values of any other shape do not occur.
  function ToU32(v: Val): u32 { if v.VNum? && 0 <= v.n < U32_RANGE then v.n else 0 }
  function ToU64(v: Val): u64 { if v.VNum? && 0 <= v.n < U64_RANGE then v.n else 0 }
  function ToI32(v: Val): i32 { if v.VNum? && -0x8000_0000 <= v.n < 0x8000_0000 then v.n else 0 }
  function ToI64(v: Val): i64 {
    if v.VNum? && -0x8000_0000_0000_0000 <= v.n < 0x8000_0000_0000_0000 then v.n else 0
  }
  function ToAcks(v: Val): Acks { if v.VNum? && 0 <= v.n <= 3 then AcksOf(v.n) else All }
  function ToError(v: Val): ErrorCode { if v.VNum? && 0 <= v.n <= 11 then ErrorOf(v.n) else Offline }
  function ToBytes(v: Val): seq<byte> { if v.VBytes? then v.b else [] }
  function ToOpt(v: Val): Option<seq<byte>> { if v.VOpt? then v.o else None }
  function Part(v: Val, i: nat): Val { if v.VStruct? && i < |v.parts| then v.parts[i] else v }
  function Items(v: Val): seq<Val> { if v.VList? then v.items else [] }
  function ToIds(v: Val): seq<u32> { Mapped(ToU32, Items(v)) }
  function ToStrs(v: Val): seq<str> { Mapped(ToBytes, Items(v)) }
  function ToProduceRecord(v: Val): ProduceRecord { ProduceRecord(ToOpt(Part(v, 0)), ToBytes(Part(v, 1))) }
  function ToProduceRecords(v: Val): seq<ProduceRecord> { Mapped(ToProduceRecord, Items(v)) }
  function ToFetchedRecord(v: Val): FetchedRecord {
    FetchedRecord(ToU64(Part(v, 0)), ToI64(Part(v, 1)), ToOpt(Part(v, 2)), ToBytes(Part(v, 3)))
  }
  function ToFetchedRecords(v: Val): seq<FetchedRecord> { Mapped(ToFetchedRecord, Items(v)) }
  function ToOwned(v: Val): Owned { Owned(ToBytes(Part(v, 0)), ToU32(Part(v, 1))) }
  function ToOwneds(v: Val): seq<Owned> { Mapped(ToOwned, Items(v)) }
  function ToAddress(v: Val): Address { Address(ToU32(Part(v, 0)), ToBytes(Part(v, 1))) }
  function ToAddresses(v: Val): seq<Address> { Mapped(ToAddress, Items(v)) }
  function ToPartition(v: Val): PartitionMeta {
    PartitionMeta(ToU32(Part(v, 0)), ToI32(Part(v, 1)), ToU64(Part(v, 2)), ToIds(Part(v, 3)), ToIds(Part(v, 4)))
  }
  function ToTopic(v: Val): TopicMeta { TopicMeta(ToBytes(Part(v, 0)), Mapped(ToPartition, Items(Part(v, 1)))) }
  function ToCluster(v: Val): ClusterMeta {
    ClusterMeta(ToU64(Part(v, 0)), ToAddresses(Part(v, 1)), ToAddresses(Part(v, 2)), Mapped(ToTopic, Items(Part(v, 3))))
  }

  lemma IdsBack(ids: seq<u32>)
    ensures ToIds(VList(Nums(ids))) == ids
  {
    hide Nums, Mapped;
  }

  lemma PartitionBack(p: PartitionMeta)
    ensures ToPartition(PartitionVal(p)) == p
  {
    hide Nums, ToIds;
    IdsBack(p.replicas);
    IdsBack(p.isr);
  }

  lemma TopicBack(t: TopicMeta)
    ensures ToTopic(TopicVal(t)) == t
  {
    hide Mapped, PartitionVal, ToPartition;
    forall i | 0 <= i < |t.partitions| ensures ToPartition(PartitionVal(t.partitions[i])) == t.partitions[i] {
      PartitionBack(t.partitions[i]);
    }
    MappedBack(PartitionVal, ToPartition, t.partitions);
  }

  lemma AddressesBack(s: seq<Address>)
    ensures ToAddresses(VList(Mapped(AddressVal, s))) == s
  {
    MappedBack(AddressVal, ToAddress, s);
  }

  lemma ClusterBack(c: ClusterMeta)
    ensures ToCluster(ClusterVal(c)) == c
  {
    hide Mapped, TopicVal, ToTopic, ToAddresses;
    AddressesBack(c.brokers);
    AddressesBack(c.peers);
    forall i | 0 <= i < |c.topics| ensures ToTopic(TopicVal(c.topics[i])) == c.topics[i] {
      TopicBack(c.topics[i]);
    }
    MappedBack(TopicVal, ToTopic, c.topics);
  }

  lemma StrsBack(s: seq<str>)
    ensures ToStrs(VList(Mapped(StrVal, s))) == s
  {
    MappedBack(StrVal, ToBytes, s);
  }

  lemma ProduceRecordsBack(s: seq<ProduceRecord>)
    ensures ToProduceRecords(VList(Mapped(ProduceRecordVal, s))) == s
  {
    MappedBack(ProduceRecordVal, ToProduceRecord, s);
  }

  lemma FetchedRecordsBack(s: seq<FetchedRecord>)
    ensures ToFetchedRecords(VList(Mapped(FetchedRecordVal, s))) == s
  {
    MappedBack(FetchedRecordVal, ToFetchedRecord, s);
  }

  lemma OwnedsBack(s: seq<Owned>)
    ensures ToOwneds(VList(Mapped(OwnedVal, s))) == s
  {
    MappedBack(OwnedVal, ToOwned, s);
  }

  // ---------------------------------------------------------------- requests and responses

  /** The format of the body of each request; None for a type that is not one. */
  function RequestFields(t: u8): Option<seq<Fmt>> {
    match t
    case 1 => Some([FStr, FU32, FU32])
    case 2 => Some([])
    case 3 => Some([FStr, FU32, FEnum8(MAX_ACKS), FU64, FList(PRODUCE_RECORD)])
    case 4 => Some([FStr, FU32, FU64, FU32, FU32])
    case 5 => Some([FStr, FStr, FU32, FU64, FStr, FU64])
    case 6 => Some([FStr, FStr, FU32])
    case 7 => Some([FStr, FStr, FU32, FList(FStr)])
    case 8 => Some([FStr, FStr, FU64])
    case 9 => Some([FStr, FStr])
    case 10 => Some([FStr, FU32, FU32, FU64, FU64, FU32, FU32])
    case 11 => Some([FStr, FU32, FU64])
    case 12 => Some([FU32, FStr, FStr])
    case 13 => Some([FU32, FU64])
    case 14 => Some([FStr, FU32, FU64, FList(FU32)])
    case 15 => Some([])
    case _ => None
  }

  function RequestType(r: Request): u8 {
    match r
    case CreateTopic(_, _, _) => 1
    case Metadata => 2
    case Produce(_, _, _, _, _) => 3
    case Fetch(_, _, _, _, _) => 4
    case CommitOffset(_, _, _, _, _, _) => 5
    case FetchOffset(_, _, _) => 6
    case JoinGroup(_, _, _, _) => 7
    case Heartbeat(_, _, _) => 8
    case LeaveGroup(_, _) => 9
    case ReplicaFetch(_, _, _, _, _, _, _) => 10
    case EpochCheck(_, _, _) => 11
    case RegisterBroker(_, _, _) => 12
    case BrokerHeartbeat(_, _) => 13
    case AlterIsr(_, _, _, _) => 14
    case ControllerMetadata => 15
  }

  function RequestParts(r: Request): seq<Val> {
    match r
    case CreateTopic(_, _, _) => [VBytes(r.topic), VNum(r.partitions), VNum(r.replicationFactor)]
    case Metadata => []
    case Produce(_, _, _, _, _) => [VBytes(r.topic), VNum(r.partition), VNum(AcksNum(r.acks)),
        VNum(r.leaderEpoch), VList(Mapped(ProduceRecordVal, r.records))]
    case Fetch(_, _, _, _, _) => [VBytes(r.topic), VNum(r.partition), VNum(r.offset),
        VNum(r.maxBytes), VNum(r.maxWaitMs)]
    case CommitOffset(_, _, _, _, _, _) =>
        [VBytes(r.group), VBytes(r.topic), VNum(r.partition), VNum(r.offset), VBytes(r.memberId), VNum(r.generation)]
    case FetchOffset(_, _, _) => [VBytes(r.group), VBytes(r.topic), VNum(r.partition)]
    case JoinGroup(_, _, _, _) => [VBytes(r.group), VBytes(r.memberId),
        VNum(r.sessionTimeoutMs), VList(Mapped(StrVal, r.topics))]
    case Heartbeat(_, _, _) => [VBytes(r.group), VBytes(r.memberId), VNum(r.generation)]
    case LeaveGroup(_, _) => [VBytes(r.group), VBytes(r.memberId)]
    case ReplicaFetch(_, _, _, _, _, _, _) => [VBytes(r.topic), VNum(r.partition),
        VNum(r.followerId), VNum(r.leaderEpoch), VNum(r.offset), VNum(r.maxBytes), VNum(r.maxWaitMs)]
    case EpochCheck(_, _, _) => [VBytes(r.topic), VNum(r.partition), VNum(r.epoch)]
    case RegisterBroker(_, _, _) => [VNum(r.brokerId), VBytes(r.addr), VBytes(r.peerAddr)]
    case BrokerHeartbeat(_, _) => [VNum(r.brokerId), VNum(r.metadataVersion)]
    case AlterIsr(_, _, _, _) => [VBytes(r.topic), VNum(r.partition), VNum(r.leaderEpoch), VList(Nums(r.isr))]
    case ControllerMetadata => []
  }

  /** The request of type `t` with these parts. */
  function RequestOf(t: u8, ps: seq<Val>): Option<Request> {
    match t
    case 1 => if |ps| == 3 then Some(CreateTopic(ToBytes(ps[0]), ToU32(ps[1]), ToU32(ps[2]))) else None
    case 2 => if |ps| == 0 then Some(Metadata) else None
    case 3 => if |ps| == 5 then Some(Produce(ToBytes(ps[0]), ToU32(ps[1]), ToAcks(ps[2]),
        ToU64(ps[3]), ToProduceRecords(ps[4]))) else None
    case 4 => if |ps| == 5 then Some(Fetch(ToBytes(ps[0]), ToU32(ps[1]), ToU64(ps[2]), ToU32(ps[3]), ToU32(ps[4])))
        else None
    case 5 => if |ps| == 6 then Some(CommitOffset(ToBytes(ps[0]), ToBytes(ps[1]),
        ToU32(ps[2]), ToU64(ps[3]), ToBytes(ps[4]), ToU64(ps[5]))) else None
    case 6 => if |ps| == 3 then Some(FetchOffset(ToBytes(ps[0]), ToBytes(ps[1]), ToU32(ps[2]))) else None
    case 7 => if |ps| == 4 then Some(JoinGroup(ToBytes(ps[0]), ToBytes(ps[1]), ToU32(ps[2]), ToStrs(ps[3]))) else None
    case 8 => if |ps| == 3 then Some(Heartbeat(ToBytes(ps[0]), ToBytes(ps[1]), ToU64(ps[2]))) else None
    case 9 => if |ps| == 2 then Some(LeaveGroup(ToBytes(ps[0]), ToBytes(ps[1]))) else None
    case 10 => if |ps| == 7 then Some(ReplicaFetch(ToBytes(ps[0]), ToU32(ps[1]),
        ToU32(ps[2]), ToU64(ps[3]), ToU64(ps[4]), ToU32(ps[5]), ToU32(ps[6]))) else None
    case 11 => if |ps| == 3 then Some(EpochCheck(ToBytes(ps[0]), ToU32(ps[1]), ToU64(ps[2]))) else None
    case 12 => if |ps| == 3 then Some(RegisterBroker(ToU32(ps[0]), ToBytes(ps[1]), ToBytes(ps[2]))) else None
    case 13 => if |ps| == 2 then Some(BrokerHeartbeat(ToU32(ps[0]), ToU64(ps[1]))) else None
    case 14 => if |ps| == 4 then Some(AlterIsr(ToBytes(ps[0]), ToU32(ps[1]), ToU64(ps[2]), ToIds(ps[3]))) else None
    case 15 => if |ps| == 0 then Some(ControllerMetadata) else None
    case _ => None
  }

  /** Response types are the request types with the high bit set; here without it. */
  function ResponseFields(t: nat): Option<seq<Fmt>> {
    match t
    case 1 => Some([FEnum16(MAX_ERROR)])
    case 2 => Some([FEnum16(MAX_ERROR), CLUSTER_META])
    case 3 => Some([FEnum16(MAX_ERROR), FU64, FU32])
    case 4 => Some([FEnum16(MAX_ERROR), FU64, FU64, FList(FETCHED_RECORD)])
    case 5 => Some([FEnum16(MAX_ERROR)])
    case 6 => Some([FEnum16(MAX_ERROR), FI64])
    case 7 => Some([FEnum16(MAX_ERROR), FStr, FU64, FList(OWNED)])
    case 8 => Some([FEnum16(MAX_ERROR)])
    case 9 => Some([FEnum16(MAX_ERROR)])
    case 10 => Some([FEnum16(MAX_ERROR), FU64, FU64, FU64, FList(FETCHED_RECORD)])
    case 11 => Some([FEnum16(MAX_ERROR), FU64])
    case 12 => Some([FEnum16(MAX_ERROR), FU64])
    case 13 => Some([FEnum16(MAX_ERROR), FU64])
    case 14 => Some([FEnum16(MAX_ERROR), FU64])
    case 15 => Some([FEnum16(MAX_ERROR), CLUSTER_META])
    case _ => None
  }

  function ResponseNumber(r: Response): nat {
    match r
    case CreateTopicReply(_) => 1
    case MetadataReply(_, _) => 2
    case ProduceReply(_, _, _) => 3
    case FetchReply(_, _, _, _) => 4
    case CommitOffsetReply(_) => 5
    case FetchOffsetReply(_, _) => 6
    case JoinGroupReply(_, _, _, _) => 7
    case HeartbeatReply(_) => 8
    case LeaveGroupReply(_) => 9
    case ReplicaFetchReply(_, _, _, _, _) => 10
    case EpochCheckReply(_, _) => 11
    case RegisterBrokerReply(_, _) => 12
    case BrokerHeartbeatReply(_, _) => 13
    case AlterIsrReply(_, _) => 14
    case ControllerMetadataReply(_, _) => 15
  }

  function ResponseParts(r: Response): seq<Val> {
    match r
    case CreateTopicReply(_) => [VNum(ErrorNum(r.error))]
    case MetadataReply(_, _) => [VNum(ErrorNum(r.error)), ClusterVal(r.cluster)]
    case ProduceReply(_, _, _) => [VNum(ErrorNum(r.error)), VNum(r.baseOffset), VNum(r.count)]
    case FetchReply(_, _, _, _) =>
        [VNum(ErrorNum(r.error)), VNum(r.logStart), VNum(r.nextOffset), VList(Mapped(FetchedRecordVal, r.records))]
    case CommitOffsetReply(_) => [VNum(ErrorNum(r.error))]
    case FetchOffsetReply(_, _) => [VNum(ErrorNum(r.error)), VNum(r.offset)]
    case JoinGroupReply(_, _, _, _) =>
        [VNum(ErrorNum(r.error)), VBytes(r.memberId), VNum(r.generation), VList(Mapped(OwnedVal, r.assignment))]
    case HeartbeatReply(_) => [VNum(ErrorNum(r.error))]
    case LeaveGroupReply(_) => [VNum(ErrorNum(r.error))]
    case ReplicaFetchReply(_, _, _, _, _) => [VNum(ErrorNum(r.error)), VNum(r.leaderEpoch),
        VNum(r.logEnd), VNum(r.highWatermark), VList(Mapped(FetchedRecordVal, r.records))]
    case EpochCheckReply(_, _) => [VNum(ErrorNum(r.error)), VNum(r.endOffset)]
    case RegisterBrokerReply(_, _) => [VNum(ErrorNum(r.error)), VNum(r.metadataVersion)]
    case BrokerHeartbeatReply(_, _) => [VNum(ErrorNum(r.error)), VNum(r.metadataVersion)]
    case AlterIsrReply(_, _) => [VNum(ErrorNum(r.error)), VNum(r.metadataVersion)]
    case ControllerMetadataReply(_, _) => [VNum(ErrorNum(r.error)), ClusterVal(r.cluster)]
  }

  /** The response to type `t` with these parts. */
  function ResponseOf(t: nat, ps: seq<Val>): Option<Response> {
    match t
    case 1 => if |ps| == 1 then Some(CreateTopicReply(ToError(ps[0]))) else None
    case 2 => if |ps| == 2 then Some(MetadataReply(ToError(ps[0]), ToCluster(ps[1]))) else None
    case 3 => if |ps| == 3 then Some(ProduceReply(ToError(ps[0]), ToU64(ps[1]), ToU32(ps[2]))) else None
    case 4 => if |ps| == 4 then Some(FetchReply(ToError(ps[0]), ToU64(ps[1]), ToU64(ps[2]), ToFetchedRecords(ps[3])))
        else None
    case 5 => if |ps| == 1 then Some(CommitOffsetReply(ToError(ps[0]))) else None
    case 6 => if |ps| == 2 then Some(FetchOffsetReply(ToError(ps[0]), ToI64(ps[1]))) else None
    case 7 => if |ps| == 4 then Some(JoinGroupReply(ToError(ps[0]), ToBytes(ps[1]), ToU64(ps[2]), ToOwneds(ps[3])))
        else None
    case 8 => if |ps| == 1 then Some(HeartbeatReply(ToError(ps[0]))) else None
    case 9 => if |ps| == 1 then Some(LeaveGroupReply(ToError(ps[0]))) else None
    case 10 => if |ps| == 5 then Some(ReplicaFetchReply(ToError(ps[0]), ToU64(ps[1]),
        ToU64(ps[2]), ToU64(ps[3]), ToFetchedRecords(ps[4]))) else None
    case 11 => if |ps| == 2 then Some(EpochCheckReply(ToError(ps[0]), ToU64(ps[1]))) else None
    case 12 => if |ps| == 2 then Some(RegisterBrokerReply(ToError(ps[0]), ToU64(ps[1]))) else None
    case 13 => if |ps| == 2 then Some(BrokerHeartbeatReply(ToError(ps[0]), ToU64(ps[1]))) else None
    case 14 => if |ps| == 2 then Some(AlterIsrReply(ToError(ps[0]), ToU64(ps[1]))) else None
    case 15 => if |ps| == 2 then Some(ControllerMetadataReply(ToError(ps[0]), ToCluster(ps[1]))) else None
    case _ => None
  }

  lemma RequestBack(r: Request)
    ensures RequestOf(RequestType(r), RequestParts(r)) == Some(r)
  {
    hide Mapped, Nums, ToIds, ToStrs, ToProduceRecords;
    match r
    case Produce(_, _, _, _, records) => ProduceRecordsBack(records);
    case AlterIsr(_, _, _, isr) => IdsBack(isr);
    case JoinGroup(_, _, _, topics) => StrsBack(topics);
    case _ =>
  }

  lemma ResponseBack(r: Response)
    ensures ResponseOf(ResponseNumber(r), ResponseParts(r)) == Some(r)
  {
    hide Mapped, Nums, ToFetchedRecords, ToOwneds, ToCluster, ClusterVal;
    match r
    case MetadataReply(_, cluster) => ClusterBack(cluster);
    case ControllerMetadataReply(_, cluster) => ClusterBack(cluster);
    case FetchReply(_, _, _, records) => FetchedRecordsBack(records);
    case ReplicaFetchReply(_, _, _, _, records) => FetchedRecordsBack(records);
    case JoinGroupReply(_, _, _, assignment) => OwnedsBack(assignment);
    case _ =>
  }

  // ---------------------------------------------------------------- what can be sent

  predicate Short(s: str) { |s| < U16_RANGE }
  predicate SmallKey(k: Option<seq<byte>>) { k.Some? ==> |k.value| < 0x8000_0000 }
  predicate SendableRecord(r: ProduceRecord) { SmallKey(r.key) && |r.value| < U32_RANGE }
  predicate SendableFetched(r: FetchedRecord) { SmallKey(r.key) && |r.value| < U32_RANGE }
  predicate SendablePartition(p: PartitionMeta) { |p.replicas| < U32_RANGE && |p.isr| < U32_RANGE }
  predicate Each<A(!new)>(s: seq<A>, f: A -> bool) {
    |s| < U32_RANGE && forall i {:trigger s[i]} :: 0 <= i < |s| ==> f(s[i])
  }
  predicate SendableTopic(t: TopicMeta) { Short(t.name) && Each(t.partitions, SendablePartition) }
  predicate SendableAddress(a: Address) { Short(a.addr) }
  predicate SendableOwned(o: Owned) { Short(o.topic) }
  predicate SendableCluster(c: ClusterMeta) {
    Each(c.brokers, SendableAddress) && Each(c.peers, SendableAddress) && Each(c.topics, SendableTopic)
  }

  /** Strings of at most 65535 bytes, keys below 2^31, values and counts below 2^32. */
  predicate SendableRequest(r: Request) {
    match r
    case CreateTopic(topic, _, _) => Short(topic)
    case Metadata => true
    case Produce(topic, _, _, _, records) => Short(topic) && Each(records, SendableRecord)
    case Fetch(topic, _, _, _, _) => Short(topic)
    case CommitOffset(group, topic, _, _, memberId, _) => Short(group) && Short(topic) && Short(memberId)
    case FetchOffset(group, topic, _) => Short(group) && Short(topic)
    case JoinGroup(group, memberId, _, topics) => Short(group) && Short(memberId) && Each(topics, Short)
    case Heartbeat(group, memberId, _) => Short(group) && Short(memberId)
    case LeaveGroup(group, memberId) => Short(group) && Short(memberId)
    case ReplicaFetch(topic, _, _, _, _, _, _) => Short(topic)
    case EpochCheck(topic, _, _) => Short(topic)
    case RegisterBroker(_, addr, peerAddr) => Short(addr) && Short(peerAddr)
    case BrokerHeartbeat(_, _) => true
    case AlterIsr(topic, _, _, isr) => Short(topic) && |isr| < U32_RANGE
    case ControllerMetadata => true
  }

  predicate SendableResponse(r: Response) {
    match r
    case MetadataReply(_, cluster) => SendableCluster(cluster)
    case ControllerMetadataReply(_, cluster) => SendableCluster(cluster)
    case FetchReply(_, _, _, records) => Each(records, SendableFetched)
    case ReplicaFetchReply(_, _, _, _, records) => Each(records, SendableFetched)
    case JoinGroupReply(_, memberId, _, assignment) => Short(memberId) && Each(assignment, SendableOwned)
    case _ => true
  }

  /** A list fits when each of its items does. */
  lemma ListFitsEach<A(!new)>(item: Fmt, f: A -> Val, ok: A -> bool, s: seq<A>)
    requires forall x {:trigger f(x)} {:trigger ok(x)} :: ok(x) <==> Fits(item, f(x))
    ensures Each(s, ok) <==> Fits(FList(item), VList(Mapped(f, s)))
  {
    hide Mapped;
    var vs := Mapped(f, s);
    if Fits(FList(item), VList(vs)) {
      forall i | 0 <= i < |s| ensures ok(s[i]) {
        assert Fits(item, vs[i]);
      }
    }
  }

  lemma IdsFit(ids: seq<u32>)
    ensures |ids| < U32_RANGE <==> Fits(FList(FU32), VList(Nums(ids)))
  {
    hide Nums;
  }

  lemma PartitionFits(p: PartitionMeta)
    ensures SendablePartition(p) <==> Fits(PARTITION_META, PartitionVal(p))
  {
    hide Nums;
    IdsFit(p.replicas);
    IdsFit(p.isr);
    var v := PartitionVal(p);
    assert PARTITION_META.fields[3] == FList(FU32) && PARTITION_META.fields[4] == FList(FU32);
  }

  lemma TopicFits(t: TopicMeta)
    ensures SendableTopic(t) <==> Fits(TOPIC_META, TopicVal(t))
  {
    hide Mapped, PartitionVal, SendablePartition, Each;
    forall p ensures SendablePartition(p) <==> Fits(PARTITION_META, PartitionVal(p)) {
      PartitionFits(p);
    }
    ListFitsEach(PARTITION_META, PartitionVal, SendablePartition, t.partitions);
    assert TOPIC_META.fields[0] == FStr && TOPIC_META.fields[1] == FList(PARTITION_META);
  }

  lemma AddressesFit(s: seq<Address>)
    ensures Each(s, SendableAddress) <==> Fits(FList(ADDRESS), VList(Mapped(AddressVal, s)))
  {
    forall a ensures SendableAddress(a) <==> Fits(ADDRESS, AddressVal(a)) {
      assert ADDRESS.fields[0] == FU32 && ADDRESS.fields[1] == FStr;
    }
    hide Mapped, Each, SendableAddress, AddressVal;
    ListFitsEach(ADDRESS, AddressVal, SendableAddress, s);
  }

  lemma ClusterFits(c: ClusterMeta)
    ensures SendableCluster(c) <==> Fits(CLUSTER_META, ClusterVal(c))
  {
    hide Mapped, TopicVal, SendableTopic, Each;
    AddressesFit(c.brokers);
    AddressesFit(c.peers);
    forall t ensures SendableTopic(t) <==> Fits(TOPIC_META, TopicVal(t)) {
      TopicFits(t);
    }
    ListFitsEach(TOPIC_META, TopicVal, SendableTopic, c.topics);
    assert CLUSTER_META.fields[0] == FU64 && CLUSTER_META.fields[1] == FList(ADDRESS)
        && CLUSTER_META.fields[2] == FList(ADDRESS) && CLUSTER_META.fields[3] == FList(TOPIC_META);
  }

  lemma RecordsFit(s: seq<ProduceRecord>)
    ensures Each(s, SendableRecord) <==> Fits(FList(PRODUCE_RECORD), VList(Mapped(ProduceRecordVal, s)))
  {
    forall r ensures SendableRecord(r) <==> Fits(PRODUCE_RECORD, ProduceRecordVal(r)) {
      assert PRODUCE_RECORD.fields[0] == FOptBlob && PRODUCE_RECORD.fields[1] == FBlob;
    }
    hide Mapped, Each, SendableRecord, ProduceRecordVal;
    ListFitsEach(PRODUCE_RECORD, ProduceRecordVal, SendableRecord, s);
  }

  lemma FetchedFit(s: seq<FetchedRecord>)
    ensures Each(s, SendableFetched) <==> Fits(FList(FETCHED_RECORD), VList(Mapped(FetchedRecordVal, s)))
  {
    forall r ensures SendableFetched(r) <==> Fits(FETCHED_RECORD, FetchedRecordVal(r)) {
      assert FETCHED_RECORD.fields[0] == FU64 && FETCHED_RECORD.fields[1] == FI64
          && FETCHED_RECORD.fields[2] == FOptBlob && FETCHED_RECORD.fields[3] == FBlob;
    }
    hide Mapped, Each, SendableFetched, FetchedRecordVal;
    ListFitsEach(FETCHED_RECORD, FetchedRecordVal, SendableFetched, s);
  }

  lemma OwnedFit(s: seq<Owned>)
    ensures Each(s, SendableOwned) <==> Fits(FList(OWNED), VList(Mapped(OwnedVal, s)))
  {
    forall o ensures SendableOwned(o) <==> Fits(OWNED, OwnedVal(o)) {
      assert OWNED.fields[0] == FStr && OWNED.fields[1] == FU32;
    }
    hide Mapped, Each, SendableOwned, OwnedVal;
    ListFitsEach(OWNED, OwnedVal, SendableOwned, s);
  }

  lemma StrsFit(s: seq<str>)
    ensures Each(s, Short) <==> Fits(FList(FStr), VList(Mapped(StrVal, s)))
  {
    hide Mapped, Each;
    ListFitsEach(FStr, StrVal, Short, s);
  }

  function RequestFmt(r: Request): Fmt { FStruct(RequestFields(RequestType(r)).value) }
  function ResponseFmt(r: Response): Fmt { FStruct(ResponseFields(ResponseNumber(r)).value) }

  lemma StructFits(fs: seq<Fmt>, ps: seq<Val>)
    ensures Fits(FStruct(fs), VStruct(ps))
            <==> |fs| == |ps| && forall i {:trigger fs[i]} {:trigger ps[i]} :: 0 <= i < |fs| ==> Fits(fs[i], ps[i])
  {
  }

  lemma StrFits(s: str) requires Short(s) ensures Fits(FStr, VBytes(s)) {}
  lemma U32Fits(n: u32) ensures Fits(FU32, VNum(n)) {}
  lemma U64Fits(n: u64) ensures Fits(FU64, VNum(n)) {}
  lemma I64Fits(n: i64) ensures Fits(FI64, VNum(n)) {}
  lemma AcksFit(a: Acks) ensures Fits(FEnum8(MAX_ACKS), VNum(AcksNum(a))) {}
  lemma ErrorFits(e: ErrorCode) ensures Fits(FEnum16(MAX_ERROR), VNum(ErrorNum(e))) {}

  /** Within the size limits the format can carry the message. */
  lemma RequestFits(r: Request)
    requires SendableRequest(r)
    ensures Fits(RequestFmt(r), VStruct(RequestParts(r)))
  {
    hide Fits, Mapped, Nums, Each, Short, AcksNum;
    StructFits(RequestFields(RequestType(r)).value, RequestParts(r));
    match r
    case CreateTopic(t, n, m) =>
      StrFits(t);
      U32Fits(n);
      U32Fits(m);
    case Metadata =>
    case Produce(t, n, acks, e, records) =>
      StrFits(t);
      U32Fits(n);
      AcksFit(acks);
      U64Fits(e);
      RecordsFit(records);
    case Fetch(t, n, o, b, w) =>
      StrFits(t);
      U32Fits(n);
      U64Fits(o);
      U32Fits(b);
      U32Fits(w);
    case ReplicaFetch(t, n, f, e, o, b, w) =>
      StrFits(t);
      U32Fits(n);
      U32Fits(f);
      U64Fits(e);
      U64Fits(o);
      U32Fits(b);
      U32Fits(w);
    case EpochCheck(t, n, e) =>
      StrFits(t);
      U32Fits(n);
      U64Fits(e);
    case ControllerMetadata =>
    case _ => PlainRequestFits(r);
  }

  lemma PlainRequestFits(r: Request)
    requires SendableRequest(r)
    requires !r.CreateTopic? && !r.Metadata? && !r.Produce? && !r.Fetch? && !r.ReplicaFetch? && !r.EpochCheck?
    ensures Fits(RequestFmt(r), VStruct(RequestParts(r)))
  {
    hide Fits, Mapped, Nums, Each, Short, AcksNum;
    StructFits(RequestFields(RequestType(r)).value, RequestParts(r));
    match r
    case CommitOffset(g, t, n, o, m, e) =>
      StrFits(g);
      StrFits(t);
      U32Fits(n);
      U64Fits(o);
      StrFits(m);
      U64Fits(e);
    case FetchOffset(g, t, n) =>
      StrFits(g);
      StrFits(t);
      U32Fits(n);
    case JoinGroup(g, m, n, topics) =>
      StrFits(g);
      StrFits(m);
      U32Fits(n);
      StrsFit(topics);
    case Heartbeat(g, m, n) =>
      StrFits(g);
      StrFits(m);
      U64Fits(n);
    case LeaveGroup(g, m) =>
      StrFits(g);
      StrFits(m);
    case RegisterBroker(n, a, b) =>
      U32Fits(n);
      StrFits(a);
      StrFits(b);
    case BrokerHeartbeat(n, m) =>
      U32Fits(n);
      U64Fits(m);
    case AlterIsr(t, n, e, isr) =>
      StrFits(t);
      U32Fits(n);
      U64Fits(e);
      IdsFit(isr);
    case _ =>
  }

  lemma AcksSmall(a: Acks)
    ensures AcksNum(a) <= MAX_ACKS && AcksOf(AcksNum(a)) == a
  {
  }

  lemma ErrorSmall(e: ErrorCode)
    ensures ErrorNum(e) <= MAX_ERROR && ErrorOf(ErrorNum(e)) == e
  {
  }

  lemma ResponseFits(r: Response)
    requires SendableResponse(r)
    ensures Fits(ResponseFmt(r), VStruct(ResponseParts(r)))
  {
    hide Fits, Mapped, Nums, Each, Short, ErrorNum, ClusterVal, SendableCluster;
    ErrorFits(r.error);
    StructFits(ResponseFields(ResponseNumber(r)).value, ResponseParts(r));
    match r
    case MetadataReply(_, cluster) => ClusterFits(cluster);
    case ProduceReply(_, o, n) =>
      U64Fits(o);
      U32Fits(n);
    case FetchReply(_, a, b, records) =>
      U64Fits(a);
      U64Fits(b);
      FetchedFit(records);
    case FetchOffsetReply(_, o) => I64Fits(o);
    case JoinGroupReply(_, m, g, assignment) =>
      StrFits(m);
      U64Fits(g);
      OwnedFit(assignment);
    case ReplicaFetchReply(_, a, b, c, records) =>
      U64Fits(a);
      U64Fits(b);
      U64Fits(c);
      FetchedFit(records);
    case EpochCheckReply(_, o) => U64Fits(o);
    case RegisterBrokerReply(_, v) => U64Fits(v);
    case BrokerHeartbeatReply(_, v) => U64Fits(v);
    case AlterIsrReply(_, v) => U64Fits(v);
    case ControllerMetadataReply(_, cluster) => ClusterFits(cluster);
    case _ =>
  }

  // ---------------------------------------------------------------- payloads: what follows the length of a frame

  function Header(msgType: u8, corr: u32): (s: seq<byte>)
    ensures |s| == 6
  {
    [VERSION, msgType] + PutU32(corr)
  }

  function RequestPayload(r: Request, corr: u32): seq<byte>
    requires SendableRequest(r)
  {
    RequestFits(r);
    Header(RequestType(r), corr) + Enc(RequestFmt(r), VStruct(RequestParts(r)))
  }

  function ResponsePayload(r: Response, corr: u32): seq<byte>
    requires SendableResponse(r)
  {
    ResponseFits(r);
    Header(RESPONSE_BIT + ResponseNumber(r), corr) + Enc(ResponseFmt(r), VStruct(ResponseParts(r)))
  }

  /** Message type and correlation id. */
  function DecHeader(frame: seq<byte>): Result<(u8, u32), ProtoError> {
    match DecU8(frame, 0)
    case Err(e) => Err(e)
    case Ok((version, _)) =>
      if version != VERSION then Err(BadVersion(version))
      else
        match DecU8(frame, 1)
        case Err(e) => Err(e)
        case Ok((t, _)) =>
          match DecU32(frame, 2) case Err(e) => Err(e) case Ok((corr, _)) => Ok((t, corr))
  }

  function DecRequest(frame: seq<byte>): Result<(u32, Request), ProtoError> {
    var h := DecHeader(frame);
    if h.Err? then Err(h.error)
    else RequestOfBody(h.value.0, h.value.1, frame)
  }

  function RequestOfBody(t: u8, corr: u32, frame: seq<byte>): Result<(u32, Request), ProtoError> {
    var fs := RequestFields(t);
    if fs.None? then Err(UnknownMsgType(t))
    else
      var v := DecBody(FStruct(fs.value), frame, 6);
      if v.Err? then Err(v.error)
      else
        var r := RequestOf(t, PartsOf(v.value));
        if r.None? then Err(Invalid) else Ok((corr, r.value))
  }

  function PartsOf(v: Val): seq<Val> { if v.VStruct? then v.parts else [] }

  function DecResponse(frame: seq<byte>): Result<(u32, Response), ProtoError> {
    var h := DecHeader(frame);
    if h.Err? then Err(h.error)
    else ResponseOfBody(h.value.0, h.value.1, frame)
  }

  function ResponseOfBody(t: u8, corr: u32, frame: seq<byte>): Result<(u32, Response), ProtoError> {
    if t < RESPONSE_BIT || ResponseFields(t - RESPONSE_BIT).None? then Err(UnknownMsgType(t))
    else
      var v := DecBody(FStruct(ResponseFields(t - RESPONSE_BIT).value), frame, 6);
      if v.Err? then Err(v.error)
      else
        var r := ResponseOf(t - RESPONSE_BIT, PartsOf(v.value));
        if r.None? then Err(Invalid) else Ok((corr, r.value))
  }

  lemma HeaderBack(t: u8, corr: u32, rest: seq<byte>)
    ensures DecHeader(Header(t, corr) + rest) == Ok((t, corr))
  {
    hide PutU32, GetU32;
    GetPutU32(corr);
    var frame := Header(t, corr) + rest;
    assert frame[0..1] == [VERSION] && frame[1..2] == [t] && frame[2..6] == PutU32(corr);
  }

  lemma ShortHeader(t: u8, corr: u32, k: nat)
    requires k < 6
    ensures DecHeader(Header(t, corr)[..k]).Err?
  {
    hide PutU32, GetU32;
  }

  lemma HeaderOfPrefix(t: u8, corr: u32, body: seq<byte>, k: nat)
    requires k <= 6 + |body|
    ensures k < 6 ==> (Header(t, corr) + body)[..k] == Header(t, corr)[..k]
    ensures k >= 6 ==> (Header(t, corr) + body)[..k] == Header(t, corr) + body[..k - 6]
  {
    hide Header;
  }

  lemma TypeHasFormat(r: Request)
    ensures RequestFields(RequestType(r)).Some?
  {
  }

  lemma NumberHasFormat(r: Response)
    ensures ResponseFields(ResponseNumber(r)).Some? && RESPONSE_BIT + ResponseNumber(r) < 0x100
  {
  }

  // ---------------------------------------------------------------- the theorems

  /** Every request that fits is read back, no proper prefix of it is a request, and no longer string is. */
  lemma RequestRoundTrip(r: Request, corr: u32, k: nat, rest: seq<byte>)
    requires SendableRequest(r) && k < |RequestPayload(r, corr)| && rest != []
    ensures DecRequest(RequestPayload(r, corr)) == Ok((corr, r))
    ensures DecRequest(RequestPayload(r, corr)[..k]).Err?
    ensures DecRequest(RequestPayload(r, corr) + rest) == Err(Invalid)
  {
    hide RequestParts, RequestOf, RequestFields, SendableRequest, DecHeader, Header, Enc, DecBody, Fits, RequestType;
    RequestFits(r);
    RequestBack(r);
    TypeHasFormat(r);
    var t, f, v := RequestType(r), RequestFmt(r), VStruct(RequestParts(r));
    var head, body := Header(t, corr), Enc(f, v);
    HeaderBack(t, corr, body);
    BodyReadsBack(f, v, head);
    HeaderOfPrefix(t, corr, body, k);
    if k < 6 {
      ShortHeader(t, corr, k);
    } else {
      HeaderBack(t, corr, body[..k - 6]);
      PrefixRejected(f, v, head, k - 6);
    }
    assert head + body + rest == head + (body + rest);
    HeaderBack(t, corr, body + rest);
    TrailingRejected(f, v, head, rest);
  }

  lemma ResponseRoundTrip(r: Response, corr: u32, k: nat, rest: seq<byte>)
    requires SendableResponse(r) && k < |ResponsePayload(r, corr)| && rest != []
    ensures DecResponse(ResponsePayload(r, corr)) == Ok((corr, r))
    ensures DecResponse(ResponsePayload(r, corr)[..k]).Err?
    ensures DecResponse(ResponsePayload(r, corr) + rest) == Err(Invalid)
  {
    hide ResponseParts, ResponseOf, ResponseFields, SendableResponse, DecHeader, Header, Enc, DecBody, Fits,
      ResponseNumber;
    ResponseFits(r);
    ResponseBack(r);
    NumberHasFormat(r);
    var t: u8 := RESPONSE_BIT + ResponseNumber(r);
    var f, v := ResponseFmt(r), VStruct(ResponseParts(r));
    var head, body := Header(t, corr), Enc(f, v);
    HeaderBack(t, corr, body);
    BodyReadsBack(f, v, head);
    HeaderOfPrefix(t, corr, body, k);
    if k < 6 {
      ShortHeader(t, corr, k);
    } else {
      HeaderBack(t, corr, body[..k - 6]);
      PrefixRejected(f, v, head, k - 6);
    }
    assert head + body + rest == head + (body + rest);
    HeaderBack(t, corr, body + rest);
    TrailingRejected(f, v, head, rest);
  }
}
