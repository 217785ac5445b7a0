/** What a follower does to its log and epoch history: reconcile once with the leader, then append what it
    fetches (`fetcher_loop`, src/broker/cluster.rs). Pure: the fetcher itself is in Fetcher.dfy. */
module Follower {
  import opened Bytes
  import opened RecordCodec
  import opened EpochHistory
  import opened PartitionThread

  datatype NodeData = NodeData(log: seq<Record>, history: seq<EpochStart>)

  /** A replica's log from offset 0 on, and its epoch history. Offsets have 64 bits. */
  type Node = n: NodeData | |n.log| < U64_RANGE witness NodeData([], [])

  /** `RecordEpoch`: the epoch starts at the log end, unless it is already known. */
  function Stamped(n: Node, epoch: u64): Node {
    if epoch > CurrentEpoch(n.history) && PartitionThread.Follows(n.history, |n.log|)
    then n.(history := n.history + [EpochStart(epoch, |n.log|)]) else n
  }

  /** `TruncateTo`, for an offset inside the log. */
  function CutAt(n: Node, offset: nat): Node
    requires offset <= |n.log|
  {
    NodeData(n.log[..offset], n.history[..KeptEntries(n.history, offset)])
  }

  /** After the leader said that the follower's last epoch ended at `end` there. */
  function Reconciled(n: Node, end: nat): Node {
    if end < |n.log| then CutAt(n, end) else n
  }

  /** After a fetch response of epoch `epoch` of which `count` records were appended. `local` is the last epoch
      that the fetcher itself has seen. */
  function Fetched(n: Node, local: u64, epoch: u64, records: seq<Record>, count: nat): Node
    requires count <= |records| && |n.log| + count < U64_RANGE
  {
    var m := if epoch > local then Stamped(n, epoch) else n;
    m.(log := m.log + records[..count])
  }

  /** The replica behind a partition thread. */
  ghost function NodeOf(w: Writer): Node
    requires |w.log.records| < U64_RANGE
    reads w, w.log, w.epochs
  {
    NodeData(w.log.records, w.epochs.entries)
  }
}
