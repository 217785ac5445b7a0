/** The follower's pull loop for one partition under one leader epoch (`fetcher_loop`, src/broker/cluster.rs), as
    two methods: what it does with the answer to its epoch check, and with each fetch response. */
module FetcherLoop {
  import opened Bytes
  import opened RecordCodec
  import opened PartitionLog
  import opened EpochHistory
  import opened PartitionThread
  import opened ReplicaState
  import opened Follower

  /** It was started for one generation of the replica's role, and speaks for the replica only as long as that
      has not changed. */
  class Fetcher {
    const replica: Replica
    const generation: nat
    const epoch: u64
    var localEpoch: u64

    constructor (replica: Replica, epoch: u64)
      requires replica.writer.Valid()
      ensures this.replica == replica && this.epoch == epoch && generation == replica.fetcherGeneration
      ensures localEpoch == CurrentEpoch(replica.writer.epochs.entries)
    {
      hide Writer.Valid;
      this.replica, this.epoch, generation := replica, epoch, replica.fetcherGeneration;
      localEpoch := CurrentEpoch(replica.writer.epochs.entries);
    }

    predicate IsCurrent()
      reads replica
    {
      !replica.isLeader && replica.fetcherGeneration == generation
    }

    ghost predicate Valid()
      reads this, replica, replica.writer, replica.writer.log, replica.writer.log.Repr
      reads replica.writer.epochs, replica.writer.epochs.store
    {
      var w := replica.writer;
      && w.Valid() && w.Consistent() && w.log.start == 0 && |w.log.records| < U64_RANGE
      && this !in w.log.Repr && replica !in w.log.Repr
    }

    /** The answer to the epoch check: the divergent suffix goes, unless the role has changed meanwhile. */
    method Reconcile(end: nat) returns (ok: bool)
      requires Valid()
      modifies replica.writer, replica.writer.log.Repr, replica.writer.epochs, replica.writer.epochs.store
      ensures Valid() && fresh(replica.writer.log.Repr - old(replica.writer.log.Repr))
      ensures ok == (!replica.isLeader && replica.fetcherGeneration == generation) == old(IsCurrent())
      ensures ok ==> var before := old(replica.writer.log.records);
                     replica.writer.log.records == if end < |before| then before[..end] else before
      ensures NodeOf(replica.writer) ==
              if ok then Reconciled(old(NodeOf(replica.writer)), end) else old(NodeOf(replica.writer))
    {
      hide Writer.Valid, KeptEntries;
      if !IsCurrent() {
        return false;
      }
      var writer := replica.writer;
      EndOfWriter();
      writer.IsApart();
      var localEnd := writer.published;
      var target := if end < localEnd then end else localEnd;
      if target < localEnd {
        var r := writer.TruncateTo(target);
        EndOfWriter();
        if r.Err? {
          return false;
        }
      }
      return true;
    }

    lemma EndOfWriter()
      requires replica.writer.Valid() && replica.writer.log.start == 0
      ensures replica.writer.published == replica.writer.log.NextOffset() == |replica.writer.log.records|
    {
      hide Log.Valid;
      replica.writer.log.EndIs();
    }

    /** A fetch response, dropped if the role has changed meanwhile: a new epoch is recorded before the records
        that follow it are appended. */
    method Fetch(leaderEpoch: u64, records: seq<Record>) returns (ok: bool, ghost count: nat)
      requires Valid() && |replica.writer.log.records| + |records| < U64_RANGE
      modifies this`localEpoch
      modifies replica.writer, replica.writer.log.Repr, replica.writer.epochs, replica.writer.epochs.store
      ensures Valid() && fresh(replica.writer.log.Repr - old(replica.writer.log.Repr))
      ensures IsCurrent() == old(IsCurrent()) == (!replica.isLeader && replica.fetcherGeneration == generation)
      ensures !IsCurrent() ==>
                !ok && NodeOf(replica.writer) == old(NodeOf(replica.writer)) && localEpoch == old(localEpoch)
      ensures IsCurrent() ==>
                && count <= |records|
                && replica.writer.log.records == old(replica.writer.log.records) + records[..count]
      ensures IsCurrent() ==>
                && (ok <==> count == |records|)
                && Continues(records[..count], |old(replica.writer.log.records)|, replica.writer.log.config)
                && NodeOf(replica.writer)
                   == Fetched(old(NodeOf(replica.writer)), old(localEpoch), leaderEpoch, records, count)
                && localEpoch == if leaderEpoch > old(localEpoch) then leaderEpoch else old(localEpoch)
    {
      hide Writer.Valid;
      count := 0;
      if !IsCurrent() {
        return false, 0;
      }
      var writer := replica.writer;
      EndOfWriter();
      writer.IsApart();
      if leaderEpoch > localEpoch {
        writer.RecordEpoch(leaderEpoch);
        localEpoch := leaderEpoch;
      }
      assert records[..0] == [];
      ok := true;
      ghost var before := writer.log.records;
      assert before + [] == before;
      if records != [] {
        var r;
        r, count := writer.AppendReplicated(records);
        EndOfWriter();
        ok := r.Ok?;
      }
    }
  }
}
