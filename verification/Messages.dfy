/** The messages of the wire protocol (src/proto/mod.rs). Strings are their UTF-8 bytes. */
module Messages {
  import opened Wrappers
  import opened Bytes

  type str = seq<byte>

  datatype ErrorCode =
    | NoError
    | UnknownTopicOrPartition
    | OutOfRange
    | Storage
    | Malformed
    | TopicExists
    | UnknownMember
    | StaleGeneration
    | NotLeader
    | FencedEpoch
    | NotEnoughReplicas
    | Offline

  /** When the broker acknowledges a produce. */
  datatype Acks = AcksNone | Written | Durable | All

  /** `leader` is -1 when the partition is offline. */
  datatype PartitionMeta = PartitionMeta(partition: u32, leader: i32, leaderEpoch: u64,
      replicas: seq<u32>, isr: seq<u32>)

  datatype TopicMeta = TopicMeta(name: str, partitions: seq<PartitionMeta>)

  datatype Address = Address(id: u32, addr: str)

  datatype ClusterMeta = ClusterMeta(version: u64, brokers: seq<Address>, peers: seq<Address>, topics: seq<TopicMeta>)

  datatype ProduceRecord = ProduceRecord(key: Option<seq<byte>>, value: seq<byte>)

  datatype FetchedRecord = FetchedRecord(offset: u64, timestamp: i64, key: Option<seq<byte>>, value: seq<byte>)

  datatype Owned = Owned(topic: str, partition: u32)

  datatype Request =
    | CreateTopic(topic: str, partitions: u32, replicationFactor: u32)
    | Metadata
    | Produce(topic: str, partition: u32, acks: Acks, leaderEpoch: u64, records: seq<ProduceRecord>)
    | Fetch(topic: str, partition: u32, offset: u64, maxBytes: u32, maxWaitMs: u32)
    | ReplicaFetch(topic: str, partition: u32, followerId: u32, leaderEpoch: u64,
        offset: u64, maxBytes: u32, maxWaitMs: u32)
    | EpochCheck(topic: str, partition: u32, epoch: u64)
    | RegisterBroker(brokerId: u32, addr: str, peerAddr: str)
    | BrokerHeartbeat(brokerId: u32, metadataVersion: u64)
    | AlterIsr(topic: str, partition: u32, leaderEpoch: u64, isr: seq<u32>)
    | ControllerMetadata
    | CommitOffset(group: str, topic: str, partition: u32, offset: u64, memberId: str, generation: u64)
    | FetchOffset(group: str, topic: str, partition: u32)
    | JoinGroup(group: str, memberId: str, sessionTimeoutMs: u32, topics: seq<str>)
    | Heartbeat(group: str, memberId: str, generation: u64)
    | LeaveGroup(group: str, memberId: str)

  datatype Response =
    | CreateTopicReply(error: ErrorCode)
    | MetadataReply(error: ErrorCode, cluster: ClusterMeta)
    | ProduceReply(error: ErrorCode, baseOffset: u64, count: u32)
    | FetchReply(error: ErrorCode, logStart: u64, nextOffset: u64, records: seq<FetchedRecord>)
    | ReplicaFetchReply(error: ErrorCode, leaderEpoch: u64, logEnd: u64, highWatermark: u64,
        records: seq<FetchedRecord>)
    | EpochCheckReply(error: ErrorCode, endOffset: u64)
    | RegisterBrokerReply(error: ErrorCode, metadataVersion: u64)
    | BrokerHeartbeatReply(error: ErrorCode, metadataVersion: u64)
    | AlterIsrReply(error: ErrorCode, metadataVersion: u64)
    | ControllerMetadataReply(error: ErrorCode, cluster: ClusterMeta)
    | CommitOffsetReply(error: ErrorCode)
    | FetchOffsetReply(error: ErrorCode, offset: i64)
    | JoinGroupReply(error: ErrorCode, memberId: str, generation: u64, assignment: seq<Owned>)
    | HeartbeatReply(error: ErrorCode)
    | LeaveGroupReply(error: ErrorCode)
}
