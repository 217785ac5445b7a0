/** The writer thread of one partition: it owns the log and the epoch checkpoint, and holds durable
    acknowledgements back until the flush that covers them (src/broker/partition.rs). */
module PartitionThread {
  import opened Wrappers
  import opened Bytes
  import opened RecordCodec
  import opened Config
  import opened Messages
  import opened Disk
  import opened Layout
  import opened SegmentFile
  import opened LogSpec
  import opened Truncation
  import opened LogBounds
  import opened PartitionLog
  import opened CrashRecovery
  import opened OpenLog
  import opened EpochHistory
  import opened AckLedger

  datatype ReadOk = ReadOk(logStart: nat, nextOffset: nat, records: seq<Record>)

  function MapStorageErr(e: StorageError): ErrorCode {
    match e
    case OffsetOutOfRange(_) => OutOfRange
    case RecordTooLarge(_) => Malformed
    case _ => Storage
  }

  /** The thread flushes by time itself, so its log is left with the byte trigger alone. */
  function LogPolicy(policy: FsyncPolicy): FsyncPolicy {
    if policy.Batch? then policy.(maxMs := U64_RANGE - 1) else policy
  }

  /** The batch as the log stores it: consecutive offsets, and the time at which each record was appended. */
  function Stamped(batch: seq<ProduceRecord>, clock: seq<i64>, first: u64): (rs: seq<Record>)
    requires |clock| == |batch| && first + |batch| <= U64_RANGE
    ensures |rs| == |batch|
    ensures forall i {:trigger rs[i]} ::
        0 <= i < |rs| ==> rs[i] == Record(first + i, clock[i], batch[i].key, batch[i].value)
  {
    seq(|batch|, i requires 0 <= i < |batch| => Record(first + i, clock[i], batch[i].key, batch[i].value))
  }

  lemma StampedGrows(batch: seq<ProduceRecord>, clock: seq<i64>, first: u64, n: nat)
    requires |clock| == |batch| && first + |batch| <= U64_RANGE && n < |batch|
    ensures Stamped(batch, clock, first)[..n + 1]
            == Stamped(batch, clock, first)[..n] + [Record(first + n, clock[n], batch[n].key, batch[n].value)]
  {
    hide Stamped;
    var rs := Stamped(batch, clock, first);
    assert rs[..n + 1] == rs[..n] + [rs[n]];
  }

  /** How many records are appended before one is too large. */
  ghost predicate StopsAt(rs: seq<Record>, count: nat, cfg: LogConfig) {
    && count <= |rs|
    && (forall i {:trigger rs[i]} :: 0 <= i < count ==> Fits(rs[i], cfg))
    && (count < |rs| ==> !Fits(rs[count], cfg))
  }

  /** Appends the batch record by record; stops at the first that the log refuses. */
  method AppendAll(log: Log, batch: seq<ProduceRecord>, clock: seq<i64>)
    returns (base: Option<nat>, count: nat, error: Option<ErrorCode>)
    requires log.Valid() && |clock| == |batch| && log.NextOffset() + |batch| < U64_RANGE
    modifies log.Repr
    ensures log.Valid() && log.start == old(log.start) && fresh(log.Repr - old(log.Repr))
    ensures var rs := Stamped(batch, clock, old(log.NextOffset()));
            && StopsAt(rs, count, log.config) && log.records == old(log.records) + rs[..count]
            && error == (if count < |batch| then Some(Malformed) else None)
    ensures base == if count == 0 then None else Some(old(log.NextOffset()))
    ensures log.NextOffset() == old(log.NextOffset()) + count
    ensures DurableGrows(old(log.durableOffset), log.durableOffset)
    ensures log.config.fsync == Always && count > 0 ==> log.durableOffset == Some(log.NextOffset() - 1)
    ensures (old(log.Bounded()) ==> log.Bounded()) && (old(log.SegmentsFit()) ==> log.SegmentsFit())
  {
    hide Fits, Log.Valid, Log.State, Stamped, Log.Bounded, Log.SegmentsFit;
    ghost var first := log.NextOffset();
    ghost var rs := Stamped(batch, clock, first);
    base, count, error := None, 0, None;
    assert rs[..0] == [];
    for i := 0 to |batch|
      invariant count == i && error == None
      invariant log.Valid() && log.start == old(log.start) && fresh(log.Repr - old(log.Repr))
      invariant log.records == old(log.records) + rs[..i] && log.NextOffset() == first + i
      invariant forall j {:trigger rs[j]} :: 0 <= j < i ==> Fits(rs[j], log.config)
      invariant base == if i == 0 then None else Some(first)
      invariant DurableGrows(old(log.durableOffset), log.durableOffset)
      invariant (old(log.Bounded()) ==> log.Bounded()) && (old(log.SegmentsFit()) ==> log.SegmentsFit())
      invariant log.config.fsync == Always && i > 0 ==> log.durableOffset == Some(first + i - 1)
    {
      InRepr(log);
      StampedGrows(batch, clock, first, i);
      var info := log.Append(batch[i].key, batch[i].value, clock[i], false);
      if info.Err? {
        error := Some(MapStorageErr(info.error));
        return;
      }
      if base.None? {
        base := Some(info.value.offset);
      }
      count := count + 1;
    }
  }

  lemma InRepr(log: Log)
    requires log.Valid()
    ensures log in log.Repr && log.disk in log.Repr && log.active in log.Repr && log.active.index in log.Repr
  {
    hide Inv;
  }

  /** The offsets of a replicated batch continue the log one by one, and every record fits. */
  ghost predicate Continues(rs: seq<Record>, next: nat, cfg: LogConfig) {
    forall i {:trigger rs[i]} :: 0 <= i < |rs| ==> rs[i].offset == next + i && Fits(rs[i], cfg)
  }

  /** A follower's batch, appended up to the first record that the log refuses. */
  method AppendReplicatedAll(log: Log, batch: seq<Record>) returns (error: Option<ErrorCode>, ghost count: nat)
    requires log.Valid()
    modifies log.Repr
    ensures log.Valid() && log.start == old(log.start) && fresh(log.Repr - old(log.Repr))
    ensures count <= |batch| && log.records == old(log.records) + batch[..count]
    ensures Continues(batch[..count], old(log.NextOffset()), log.config)
    ensures error == if count == |batch| then None
                     else if batch[count].offset != old(log.NextOffset()) + count then Some(Storage)
                     else Some(Malformed)
    ensures count < |batch| ==> batch[count].offset != old(log.NextOffset()) + count || !Fits(batch[count], log.config)
    ensures log.NextOffset() == old(log.NextOffset()) + count
    ensures DurableGrows(old(log.durableOffset), log.durableOffset)
    ensures (old(log.Bounded()) ==> log.Bounded()) && (old(log.SegmentsFit()) ==> log.SegmentsFit())
  {
    hide Fits, Log.Valid, Log.State, Log.Bounded, Log.SegmentsFit;
    error, count := None, 0;
    assert batch[..0] == [];
    for i := 0 to |batch|
      invariant count == i && error == None
      invariant log.Valid() && log.start == old(log.start) && fresh(log.Repr - old(log.Repr))
      invariant log.records == old(log.records) + batch[..i] && log.NextOffset() == old(log.NextOffset()) + i
      invariant Continues(batch[..i], old(log.NextOffset()), log.config)
      invariant DurableGrows(old(log.durableOffset), log.durableOffset)
      invariant (old(log.Bounded()) ==> log.Bounded()) && (old(log.SegmentsFit()) ==> log.SegmentsFit())
    {
      InRepr(log);
      assert batch[..i + 1] == batch[..i] + [batch[i]];
      var info := log.AppendReplicated(batch[i], false);
      if info.Err? {
        error := Some(MapStorageErr(info.error));
        return;
      }
      count := count + 1;
    }
    assert batch[..|batch|] == batch;
  }

  /** What the thread receives. `windowOver` says that the flush window has run out at this timeout. */
  datatype Event =
    | AppendCmd(batch: seq<ProduceRecord>, clock: seq<i64>, acks: Acks, reply: Option<nat>)
    | ReadCmd(offset: nat, maxBytes: nat)
    | AppendReplicatedCmd(records: seq<Record>)
    | TruncateToCmd(offset: nat)
    | RecordEpochCmd(epoch: u64)
    | EpochStatusCmd
    | EpochEndForCmd(epoch: u64)
    | TimedOut(windowOver: bool)
    | Disconnected

  /** The commands that clients, timers and epoch bookkeeping send, but not a follower's fetcher. */
  predicate FromClient(e: Event) {
    !e.AppendReplicatedCmd? && !e.TruncateToCmd?
  }

  function Growth(e: Event): nat {
    match e
    case AppendCmd(batch, _, _, _) => |batch|
    case AppendReplicatedCmd(records) => |records|
    case _ => 0
  }

  function Tickets(e: Event): set<nat> {
    if e.AppendCmd? && e.reply.Some? then {e.reply.value} else {}
  }

  /** Every reply channel is used once, and the 64-bit offsets do not run out. */
  ghost predicate Feasible(events: seq<Event>, used: set<nat>, room: int) {
    events == [] ||
    var e := events[0];
    && (e.AppendCmd? ==> |e.clock| == |e.batch|)
    && Growth(e) < room && Tickets(e) !! used
    && Feasible(events[1..], used + Tickets(e), room - Growth(e))
  }

  lemma FeasibleTail(events: seq<Event>, i: nat, used: set<nat>, room: int)
    requires i < |events| && Feasible(events[i..], used, room)
    ensures var e := events[i];
            && (e.AppendCmd? ==> |e.clock| == |e.batch|)
            && Growth(e) < room && Tickets(e) !! used
            && Feasible(events[i + 1..], used + Tickets(e), room - Growth(e))
  {
    assert events[i..][1..] == events[i + 1..];
  }

  /** An epoch may be recorded at `next`: the last one starts no later. */
  predicate Follows(es: seq<EpochStart>, next: nat) {
    es != [] ==> es[|es| - 1].start <= next
  }

  lemma EmptyLedger(start: nat, records: seq<Record>, durable: Option<nat>, policy: FsyncPolicy)
    ensures OnceEach(Ledger([], []))
    ensures LedgerInv(Ledger([], []), map[], start, records, durable, false, policy)
  {
  }

  /** Cutting a log that has no unflushed tail leaves none. */
  lemma CutKeepsClean(n: nat, next: nat, durable: Option<nat>, newNext: nat, newDurable: Option<nat>)
    requires if n < next then newNext == n && newDurable == OldestFirst(durable, n)
             else newNext == next && newDurable == durable
    ensures IsDirty(newNext, newDurable) ==> IsDirty(next, durable)
  {
  }

  class Writer {
    const log: Log
    const epochs: EpochCheckpoint
    const policy: FsyncPolicy
    var pending: seq<Pending>
    /** Everything sent on the reply channels of appends so far. */
    var sent: seq<Sent>
    /** Whether the clock of the unflushed tail is running (`dirty_since`). */
    var dirty: bool
    /** The log end as published to long polls and to the replication layer. */
    var published: nat
    /** What was asked with each ticket. */
    ghost var asks: map<nat, Asked>

    function Parked(): Ledger
      reads this
    {
      Ledger(pending, sent)
    }

    ghost predicate Apart()
      reads this, log
    {
      this !in log.Repr && epochs !in log.Repr && epochs.store !in log.Repr
    }

    ghost predicate Valid()
      reads this, log, log.Repr, epochs, epochs.store
    {
      && Apart() && log.Valid() && epochs.Valid()
      && log.config.fsync == LogPolicy(policy)
      && published == log.NextOffset()
      && (IsDirty(log.NextOffset(), log.durableOffset) ==> dirty)
      && OnceEach(Parked())
    }

    lemma EndIs()
      requires Valid()
      ensures published == log.NextOffset() == log.start + |log.records|
    {
      hide Log.Valid, OnceEach, Monotone;
      log.EndIs();
    }

    lemma OffsetIs(i: nat)
      requires Valid() && i < |log.records|
      ensures log.records[i].offset == log.start + i
    {
      hide Log.Valid, OnceEach, Monotone;
      log.OffsetIs(i);
    }

    lemma IsApart()
      requires Valid()
      ensures Apart()
    {
      hide Log.Valid, OnceEach, Monotone;
    }

    /** No epoch starts past the end of the log. */
    ghost predicate Consistent()
      reads this, log, log.active, epochs
    {
      Within(epochs.entries, log.NextOffset())
    }

    /** What holds as long as nothing is cut under a waiting acknowledgement: every answer is the one owed, whatever
        has been acknowledged as durable is, and whatever waits is already durable or has the flush timer running. */
    ghost predicate Kept()
      reads this, log
    {
      && LedgerSound(Parked(), asks, log.start, log.records, log.durableOffset, policy)
      && forall i {:trigger pending[i]} ::
           0 <= i < |pending| && !IsCovered(log.durableOffset, pending[i].last) ==> dirty
    }

    /** What holds besides as long as nothing is replicated under it: nothing durable waits. */
    ghost predicate Promises()
      reads this, log
    {
      LedgerInv(Parked(), asks, log.start, log.records, log.durableOffset, dirty, policy)
    }

    /** Segments are as large as configured, and what is not durable is bounded as the policy says. */
    ghost predicate Bounded()
      reads this, log, log.disk, log.active, log.active.index
    {
      log.Bounded() && log.SegmentsFit()
    }

    /** What a crash can cost: nothing when every append is flushed, less than the byte limit of a group commit. */
    lemma AtRisk()
      requires Valid() && Bounded()
      ensures var bytes := Size(Unflushed(log.records, log.start, log.durableOffset));
              && (policy == Always ==> bytes == 0)
              && (policy.Batch? ==> bytes == 0 || bytes < policy.maxBytes)
      ensures var v := log.active.View(); v.size <= log.config.maxSegmentBytes || v.next == v.base + 1
      ensures forall b {:trigger log.views[b]} :: b in log.views ==>
                log.views[b].size <= log.config.maxSegmentBytes || log.views[b].next == log.views[b].base + 1
    {
      hide Log.Valid, OnceEach, Monotone, Size, Unflushed, Segment.View;
    }

    lemma PromisesAreKept()
      ensures Promises() ==> Kept()
    {
      hide LedgerSound;
    }

    /** A freshly opened log, and the checkpoint found beside it. */
    constructor (log: Log, epochs: EpochCheckpoint, policy: FsyncPolicy)
      requires log.Valid() && epochs.Valid() && epochs !in log.Repr && epochs.store !in log.Repr
      requires log.config.fsync == LogPolicy(policy)
      requires !IsDirty(log.NextOffset(), log.durableOffset)
      ensures Valid() && Promises() && this.log == log && this.epochs == epochs && this.policy == policy
      ensures sent == [] && pending == [] && asks == map[]
    {
      hide Log.Valid, LedgerInv, IsDirty, Monotone;
      EmptyLedger(log.start, log.records, log.durableOffset, policy);
      this.log, this.epochs, this.policy := log, epochs, policy;
      pending, sent, dirty, published, asks := [], [], false, log.NextOffset(), map[];
    }

    /** Acknowledges the covered front of the queue. */
    method DrainPending()
      modifies `pending, `sent
      ensures Parked() == Drain(old(Parked()), log.durableOffset)
    {
      var durable := log.durableOffset;
      while pending != [] && IsCovered(durable, pending[0].last)
        invariant Drain(Parked(), durable) == Drain(old(Parked()), durable)
        decreases |pending|
      {
        var p := pending[0];
        pending, sent := pending[1..], sent + [Sent(p.ticket, Ok((p.base, p.count)))];
      }
    }

    /** The reply to one append, sent or parked. */
    method Reply(reply: Option<nat>, acks: Acks, base: Option<nat>, count: nat, error: Option<ErrorCode>)
      requires base.Some? ==> log.NextOffset() > 0
      modifies `pending, `sent
      ensures Parked() == Answer(old(Parked()), reply, acks, base, count, error,
          log.NextOffset(), log.durableOffset, policy)
    {
      if reply.None? {
        return;
      }
      if error.Some? {
        sent := sent + [Sent(reply.value, Err(error.value))];
      } else if base.None? {
        sent := sent + [Sent(reply.value, Ok((log.NextOffset(), 0)))];
      } else {
        var last := log.NextOffset() - 1;
        if AckedNow(acks, policy, log.durableOffset, last) {
          sent := sent + [Sent(reply.value, Ok((base.value, count)))];
        } else {
          pending := pending + [Pending(last, base.value, count, reply.value)];
        }
      }
    }

    method NoteAppended()
      modifies `published, `dirty
      ensures published == log.NextOffset() && dirty == IsDirty(log.NextOffset(), log.durableOffset)
    {
      published := log.NextOffset();
      dirty := IsDirty(log.NextOffset(), log.durableOffset);
    }

    /** A produce: the batch is appended up to the first record that is too large, and answered at once or
        when a flush has covered it. */
    method Append(batch: seq<ProduceRecord>, clock: seq<i64>, acks: Acks, reply: Option<nat>) returns (ghost count: nat)
      requires Valid() && |clock| == |batch| && log.NextOffset() + |batch| < U64_RANGE
      requires reply.Some? ==> !Used(Parked(), reply.value)
      modifies this, log.Repr
      ensures Valid() && fresh(log.Repr - old(log.Repr))
      ensures count <= |batch| && log.NextOffset() == old(log.NextOffset()) + count && log.start == old(log.start)
      ensures var rs := Stamped(batch, clock, old(log.NextOffset()));
              StopsAt(rs, count, log.config) && log.records == old(log.records) + rs[..count]
      ensures reply.Some? ==>
                Replied(old(Parked()), Parked(), reply.value, acks, old(log.NextOffset()), |batch|, count,
                        log.durableOffset, policy)
      ensures Parked() == Drain(Answer(old(Parked()), reply, acks,
                                       if count == 0 then None else Some(old(log.NextOffset())), count,
                                       if count < |batch| then Some(Malformed) else None,
                                       log.NextOffset(), log.durableOffset, policy), log.durableOffset)
      ensures asks == if reply.None? then old(asks)
                      else old(asks)[reply.value :=
                                       Asked(acks, old(log.NextOffset()), Stamped(batch, clock, old(log.NextOffset())),
                                             if count < |batch| then Some(Malformed) else None)]
      ensures old(Kept()) ==> Promises()
      ensures (old(Consistent()) ==> Consistent()) && (old(Bounded()) ==> Bounded())
    {
      hide Fits, Log.Valid, Log.State, Stamped, Answer, Drain, LedgerInv, Used, IsDirty, OnceEach, DurableGrows,
        Replied, Log.Bounded, Log.SegmentsFit;
      ghost var rs := Stamped(batch, clock, log.NextOffset());
      ghost var l, before, d0 := Parked(), log.records, log.durableOffset;
      log.EndIs();
      var base, n, error := AppendAll(log, batch, clock);
      count := n;
      NoteAppended();
      if reply.Some? {
        AnswerIs(l, reply.value, acks, log.start + |before|, |batch|, n, log.durableOffset, policy);
      }
      Settle(reply, acks, base, n, error, before, rs[..n], d0, Asked(acks, log.start + |before|, rs, error));
    }

    /** Answers one append, now or later, and releases what has become durable. */
    method Settle(reply: Option<nat>, acks: Acks, base: Option<nat>, count: nat, error: Option<ErrorCode>,
                  ghost before: seq<Record>, ghost more: seq<Record>, ghost d0: Option<nat>, ghost a: Asked)
      requires OnceEach(Parked()) && (reply.Some? ==> !Used(Parked(), reply.value))
      requires count == |more| && log.NextOffset() == log.start + |before| + count
      requires base == if more == [] then None else Some(log.start + |before|)
      requires DurableGrows(d0, log.durableOffset)
      requires policy == Always && more != [] ==> log.durableOffset == Some(log.NextOffset() - 1)
      requires a.acks == acks && a.base == log.start + |before| && a.error == error
      requires error.None? ==> more == a.records
      modifies `pending, `sent, `asks
      ensures OnceEach(Parked()) && asks == Ask(old(asks), reply, a)
      ensures Parked() == Drain(Answer(old(Parked()), reply, acks, base, count, error, log.NextOffset(),
                                       log.durableOffset, policy), log.durableOffset)
      ensures old(LedgerSound(Parked(), asks, log.start, before, d0, policy)) ==>
                LedgerInv(Parked(), asks, log.start, before + more, log.durableOffset,
                          IsDirty(log.NextOffset(), log.durableOffset), policy)
    {
      hide Answer, Drain, LedgerInv, Used, Ask, IsDirty, OnceEach, DurableGrows;
      ghost var l := Parked();
      AnswerKeepsOnce(l, reply, acks, base, count, error, log.NextOffset(), log.durableOffset, policy);
      DrainKeepsOnce(Answer(l, reply, acks, base, count, error, log.NextOffset(), log.durableOffset, policy),
                     log.durableOffset);
      Reply(reply, acks, base, count, error);
      DrainPending();
      if LedgerSound(l, asks, log.start, before, d0, policy) {
        AppendKeeps(l, asks, log.start, before, more, d0, log.durableOffset, policy, reply, a);
      }
      asks := Ask(asks, reply, a);
    }

    method Read(offset: nat, maxBytes: nat) returns (r: Result<ReadOk, ErrorCode>)
      requires Valid()
      ensures offset < log.start || offset > log.NextOffset() ==> r == Err(OutOfRange)
      ensures log.start <= offset <= log.NextOffset() ==>
                r.Ok? && r.value.logStart == log.start && r.value.nextOffset == log.NextOffset()
      ensures offset == log.NextOffset() && log.start <= offset ==> r.value.records == []
      ensures log.start <= offset < log.NextOffset() ==> ReadResult(log.State(), r.value.records, offset, maxBytes)
    {
      hide Log.Valid, ReadResult, OnceEach;
      log.EndIs();
      var records := log.Read(offset, maxBytes);
      if records.Err? {
        return Err(MapStorageErr(records.error));
      }
      var first := log.StartOffset();
      return Ok(ReadOk(first, log.NextOffset(), records.value));
    }

    /** A follower appends what it fetched. Waiting acknowledgements are not drained here. */
    method AppendReplicated(batch: seq<Record>) returns (r: Result<nat, ErrorCode>, ghost count: nat)
      requires Valid()
      modifies this, log.Repr
      ensures Valid() && fresh(log.Repr - old(log.Repr))
      ensures count <= |batch| && log.records == old(log.records) + batch[..count] && log.start == old(log.start)
      ensures Continues(batch[..count], old(log.NextOffset()), log.config)
      ensures count < |batch| ==>
                batch[count].offset != old(log.NextOffset()) + count || !Fits(batch[count], log.config)
      ensures r == if count == |batch| then Ok(log.NextOffset())
                   else if batch[count].offset != old(log.NextOffset()) + count then Err(Storage) else Err(Malformed)
      ensures log.NextOffset() == old(log.NextOffset()) + count && Parked() == old(Parked())
      ensures (old(Consistent()) ==> Consistent()) && (old(Bounded()) ==> Bounded())
      ensures old(Kept()) ==> Kept()
    {
      hide Fits, Log.Valid, Log.State, OnceEach, IsDirty, LedgerSound, DurableGrows, Log.Bounded, Log.SegmentsFit;
      ghost var before, d0 := log.records, log.durableOffset;
      var error;
      error, count := AppendReplicatedAll(log, batch);
      NoteAppended();
      if LedgerSound(Parked(), asks, log.start, before, d0, policy) {
        ReplicatedKeeps(Parked(), asks, log.start, before, batch[..count], d0, log.durableOffset, policy);
        log.EndIs();
        WaitsForFlush(Parked(), asks, log.start, log.records, log.durableOffset, policy);
      }
      r := if error.Some? then Err(error.value) else Ok(log.NextOffset());
    }

    /** Drops the log from `offset` on, and the epochs that began there. */
    method TruncateTo(offset: nat) returns (r: Result<nat, ErrorCode>)
      requires Valid()
      modifies this, log.Repr, epochs, epochs.store
      ensures Valid() && fresh(log.Repr - old(log.Repr))
      ensures log.start == old(log.start) && Parked() == old(Parked())
      ensures if offset < log.start && offset < old(log.NextOffset())
              then
                && r == Err(OutOfRange) && log.NextOffset() == old(log.NextOffset())
                && log.records == old(log.records) && epochs.entries == old(epochs.entries)
              else
                && r == Ok(log.NextOffset())
                && log.NextOffset() == (if offset < old(log.NextOffset()) then offset else old(log.NextOffset()))
                && log.records == old(log.records)[..log.NextOffset() - log.start]
                && epochs.entries == old(epochs.entries)[..KeptEntries(old(epochs.entries), offset)]
      ensures (old(Consistent()) ==> Consistent()) && (old(Bounded()) ==> Bounded())
    {
      hide Log.Valid, Log.State, OnceEach, KeptEntries, IsDirty, OldestFirst, Log.Bounded, Log.SegmentsFit;
      log.EndIs();
      InRepr(log);
      var cut := log.TruncateSuffix(offset);
      published := log.NextOffset();
      if cut.Err? {
        return Err(MapStorageErr(cut.error));
      }
      KeptIsBelow(epochs.entries, offset);
      CutKeepsClean(offset, old(log.NextOffset()), old(log.durableOffset), log.NextOffset(), log.durableOffset);
      epochs.TruncateTo(offset);
      log.EndIs();
      return Ok(log.NextOffset());
    }

    /** A new epoch starts at the present log end. A consistent checkpoint never refuses it. */
    method RecordEpoch(epoch: u64)
      requires Valid() && log.NextOffset() < U64_RANGE
      modifies epochs, epochs.store
      ensures Valid() && Parked() == old(Parked())
      ensures var es := old(epochs.entries);
              epochs.entries
              == if if es == [] then epoch > 0
                    else epoch > es[|es| - 1].epoch && log.NextOffset() >= es[|es| - 1].start
                 then es + [EpochStart(epoch, log.NextOffset())] else es
      ensures old(Consistent()) ==> Consistent() && Follows(old(epochs.entries), log.NextOffset())
    {
      hide Log.Valid, OnceEach, IsDirty;
      if epoch > CurrentEpoch(epochs.entries) {
        var _ := epochs.Append(epoch, log.NextOffset());
      }
    }

    method EpochStatus() returns (epoch: u64, end: nat)
      requires Valid()
      ensures epoch == CurrentEpoch(epochs.entries) && end == log.NextOffset()
    {
      return CurrentEpoch(epochs.entries), log.NextOffset();
    }

    /** In a consistent checkpoint, never past the log end. */
    method EpochEndFor(epoch: u64) returns (end: nat)
      requires Valid()
      ensures end == EndOf(epochs.entries, epoch, log.NextOffset())
      ensures Consistent() ==> end <= log.NextOffset()
    {
      hide EndOf, Log.Valid, OnceEach, IsDirty;
      if Within(epochs.entries, log.NextOffset()) {
        EndOfGrows(epochs.entries, epoch, epoch, log.NextOffset());
      }
      end := epochs.EndOffsetFor(epoch, log.NextOffset());
    }

    /** Flushes the log and acknowledges everything that waits for it. */
    method Flush()
      requires Valid()
      modifies this, log.Repr
      ensures Valid() && log.Repr == old(log.Repr) && !dirty
      ensures log.records == old(log.records) && log.start == old(log.start)
          && log.NextOffset() == old(log.NextOffset())
      ensures log.durableOffset == LastOffset(log.NextOffset())
      ensures Parked() == Drain(old(Parked()), log.durableOffset)
      ensures old(Kept()) ==> Promises() && pending == []
      ensures old(Bounded()) ==> Bounded()
    {
      hide Log.Valid, Log.State, Drain, LedgerInv, OnceEach, Log.Accounted, Log.SegmentsFit;
      InRepr(log);
      log.EndIs();
      log.DurableBelowEnd();
      ghost var d0 := log.durableOffset;
      log.Flush();
      dirty := false;
      DrainPending();
      DrainKeepsOnce(old(Parked()), log.durableOffset);
      if old(Kept()) {
        FlushKeeps(old(Parked()), asks, log.start, log.records, d0, policy);
      }
    }

    /** The receive timeout: flushes once the window of the oldest unflushed append is over. */
    method Timeout(windowOver: bool)
      requires Valid()
      modifies this, log.Repr
      ensures Valid() && log.Repr == old(log.Repr)
      ensures log.records == old(log.records) && log.start == old(log.start)
          && log.NextOffset() == old(log.NextOffset())
      ensures old(Promises()) ==> Promises() && (windowOver ==> pending == [])
      ensures old(Kept()) ==> Kept()
      ensures Parked() == if old(dirty) && policy.Batch? && windowOver
                          then Drain(old(Parked()), log.durableOffset) else old(Parked())
      ensures if old(dirty) && policy.Batch? && windowOver
              then log.durableOffset == (if log.NextOffset() == 0 then None else Some(log.NextOffset() - 1)) && !dirty
              else log.durableOffset == old(log.durableOffset) && dirty == old(dirty)
      ensures old(Bounded()) ==> Bounded()
    {
      hide Log.Valid, Log.State, Drain, OnceEach, Bounded;
      if dirty && policy.Batch? && windowOver {
        Flush();
      }
    }

    ghost predicate InBounds(used: set<nat>, room: int)
      reads this, log, log.active
    {
      log.NextOffset() + room <= U64_RANGE && forall t {:trigger t in used} {:trigger Used(Parked(), t)} ::
          Used(Parked(), t) ==> t in used
    }

    /** One produce inside a run. */
    method HandleAppend(e: Event, ghost used: set<nat>, ghost room: int)
      requires Valid() && InBounds(used, room) && e.AppendCmd?
      requires |e.clock| == |e.batch| < room && Tickets(e) !! used
      modifies this, log.Repr
      ensures Valid() && fresh(log.Repr - old(log.Repr))
      ensures InBounds(used + Tickets(e), room - Growth(e))
      ensures old(Kept()) ==> Promises()
      ensures old(sent) <= sent && (old(Consistent()) ==> Consistent()) && (old(Bounded()) ==> Bounded())
    {
      hide Log.Valid, LedgerInv, Used, OnceEach, Answer, Drain, IsDirty, Stamped, StopsAt;
      ghost var l, first := Parked(), log.NextOffset();
      ghost var count := Append(e.batch, e.clock, e.acks, e.reply);
      ghost var base := if count == 0 then None else Some(first);
      ghost var error := if count < |e.batch| then Some(Malformed) else None;
      AnswersStay(l, e.reply, e.acks, base, count, error, log.NextOffset(), log.durableOffset, policy);
      forall t | Used(Parked(), t) ensures t in used + Tickets(e) {
        NoOtherTickets(l, e.reply, e.acks, base, count, error, log.NextOffset(), log.durableOffset, policy, t);
      }
    }

    method HandleFlush(e: Event, ghost used: set<nat>, ghost room: int)
      requires Valid() && InBounds(used, room) && (e.TimedOut? || e.Disconnected?)
      modifies this, log.Repr
      ensures Valid() && log.Repr == old(log.Repr) && InBounds(used, room)
      ensures old(Promises()) ==> Promises() && (e.Disconnected? || e.windowOver ==> pending == [])
      ensures old(Kept()) ==> Kept() && (e.Disconnected? ==> pending == [])
      ensures old(sent) <= sent && (old(Consistent()) ==> Consistent()) && (old(Bounded()) ==> Bounded())
    {
      hide Log.Valid, LedgerInv, Used, OnceEach, Drain, IsDirty;
      ghost var l := Parked();
      PromisesAreKept();
      if e.TimedOut? {
        Timeout(e.windowOver);
      } else {
        Flush();
      }
      PromisesAreKept();
      AnswersStay(l, None, AcksNone, None, 0, None, 0, log.durableOffset, policy);
      forall t | Used(Parked(), t) ensures t in used {
        if Parked() != l {
          DrainAddsNoTicket(l, log.durableOffset, t);
        }
      }
    }

    /** The thread's loop. Whatever is received: the log and the checkpoint stay good, every ticket is answered
        at most once, and an unflushed tail has its clock running. With nothing received from a fetcher, every
        positive answer to a durable append is true, nothing durable waits, and whatever waits has the flush
        timer armed; at the end nothing waits. With records from a fetcher but nothing cut, the answers are still
        true, whatever waits is durable or has the timer armed, and at the end nothing waits. */
    method Run(events: seq<Event>, ghost used: set<nat>, ghost room: int)
      requires Valid() && InBounds(used, room) && Feasible(events, used, room)
      modifies this, log.Repr, epochs, epochs.store
      ensures Valid() && old(sent) <= sent
      ensures (old(Consistent()) ==> Consistent()) && (old(Bounded()) ==> Bounded())
      ensures old(Promises()) && (forall e :: e in events ==> FromClient(e)) ==>
                Promises() && (Disconnected in events ==> pending == [])
      ensures old(Kept()) && (forall e :: e in events ==> !e.TruncateToCmd?) ==>
                Kept() && (Disconnected in events ==> pending == [])
    {
      hide Log.Valid, LedgerInv, Used, OnceEach, IsDirty, InBounds, Tickets, Growth, Feasible;
      ghost var u, m := used, room;
      assert events[0..] == events;
      for i := 0 to |events|
        invariant Valid() && fresh(log.Repr - old(log.Repr)) && old(sent) <= sent
        invariant (old(Consistent()) ==> Consistent()) && (old(Bounded()) ==> Bounded())
        invariant InBounds(u, m) && Feasible(events[i..], u, m)
        invariant old(Promises()) && (forall e :: e in events[..i] ==> FromClient(e)) ==> Promises()
        invariant old(Kept()) && (forall e :: e in events[..i] ==> !e.TruncateToCmd?) ==> Kept()
        invariant Disconnected !in events[..i]
      {
        var e := events[i];
        FeasibleTail(events, i, u, m);
        assert events[..i + 1] == events[..i] + [e];
        Handle(e, u, m);
        u, m := u + Tickets(e), m - Growth(e);
        if e.Disconnected? {
          break;
        }
      }
      assert events[..|events|] == events;
    }

    /** One turn of the loop. */
    method Handle(e: Event, ghost used: set<nat>, ghost room: int)
      requires Valid() && InBounds(used, room)
      requires (e.AppendCmd? ==> |e.clock| == |e.batch|) && Growth(e) < room && Tickets(e) !! used
      modifies this, log.Repr, epochs, epochs.store
      ensures Valid() && fresh(log.Repr - old(log.Repr)) && old(sent) <= sent
      ensures (old(Consistent()) ==> Consistent()) && (old(Bounded()) ==> Bounded())
      ensures InBounds(used + Tickets(e), room - Growth(e))
      ensures FromClient(e) && old(Promises()) ==> Promises() && (e.Disconnected? ==> pending == [])
      ensures !e.TruncateToCmd? && old(Kept()) ==> Kept() && (e.Disconnected? ==> pending == [])
    {
      hide Log.Valid, LedgerInv, Used, OnceEach, IsDirty, Within, ReadResult, KeptEntries, EndOf, Monotone, Continues,
        LedgerSound;
      PromisesAreKept();
      match e {
        case AppendCmd(_, _, _, _) =>
          HandleAppend(e, used, room);
          PromisesAreKept();
        case ReadCmd(offset, maxBytes) =>
          var _ := Read(offset, maxBytes);
        case AppendReplicatedCmd(_) =>
          HandleFetched(e, used, room);
        case TruncateToCmd(_) =>
          HandleFetched(e, used, room);
        case RecordEpochCmd(epoch) =>
          RecordEpoch(epoch);
        case EpochStatusCmd =>
          var _, _ := EpochStatus();
        case EpochEndForCmd(epoch) =>
          var _ := EpochEndFor(epoch);
        case TimedOut(_) =>
          HandleFlush(e, used, room);
        case Disconnected =>
          HandleFlush(e, used, room);
      }
    }

    method HandleFetched(e: Event, ghost used: set<nat>, ghost room: int)
      requires Valid() && InBounds(used, room) && (e.AppendReplicatedCmd? || e.TruncateToCmd?)
      modifies this, log.Repr, epochs, epochs.store
      ensures Valid() && fresh(log.Repr - old(log.Repr)) && InBounds(used, room - Growth(e))
      ensures old(sent) <= sent && (old(Consistent()) ==> Consistent()) && (old(Bounded()) ==> Bounded())
      ensures e.AppendReplicatedCmd? && old(Kept()) ==> Kept()
    {
      hide Log.Valid, LedgerInv, Used, OnceEach, IsDirty, Within, KeptEntries, Monotone, Continues, Kept;
      if e.AppendReplicatedCmd? {
        var _, _ := AppendReplicated(e.records);
      } else {
        var _ := TruncateTo(e.offset);
      }
    }
  }

  /** Starting the thread again on what a crash left. `s` and `l` are the log and the ledger at the crash: every
      batch that had been acknowledged as durable is in the log that comes back. */
  method SpawnAfterCrash(disk: Directory, store: EpochStore, cfg: LogConfig, ghost s: LogState,
                         ghost inflight: seq<Record>, ghost l: Ledger, ghost asks: map<nat, Asked>)
    returns (r: Option<Writer>)
    requires var c := cfg.(fsync := LogPolicy(cfg.fsync));
             && Inv(s, c) && s.active.base in s.logs && Admitted(s, inflight, c)
             && CrashImage(s, inflight, disk.logs, disk.indexes, c)
    requires LedgerSound(l, asks, s.start, s.records, s.durable, cfg.fsync)
    modifies disk
    ensures r.Some? <==> store.file.None? || exists es :: Readable(store.file.value, es)
    ensures r.Some? ==> fresh(r.value) && r.value.Valid() && r.value.Promises() && r.value.policy == cfg.fsync
    ensures r.Some? ==> r.value.log.start == s.start && r.value.log.records <= s.records + inflight
    ensures r.Some? ==>
              forall i {:trigger l.sent[i]} :: 0 <= i < |l.sent| && l.sent[i].result.Ok? ==>
                && l.sent[i].ticket in asks
                && var a := asks[l.sent[i].ticket];
                   (a.acks == Durable || a.acks == All) && cfg.fsync != Os && a.records != [] ==>
                     InLog(a, s.start, r.value.log.records)
  {
    hide Inv, Admitted, CrashImage, LedgerInv, Log.Valid, Readable, InLog, Truthful, Monotone;
    var logConfig := cfg.(fsync := LogPolicy(cfg.fsync));
    var log := OpenAfterCrash(disk, logConfig, s, inflight);
    log.value.EndIs();
    var epochs := EpochCheckpoint.Load(store);
    if epochs.None? {
      return None;
    }
    forall i | 0 <= i < |l.sent| && l.sent[i].result.Ok?
      ensures l.sent[i].ticket in asks
      ensures var a := asks[l.sent[i].ticket];
              (a.acks == Durable || a.acks == All) && cfg.fsync != Os && a.records != [] ==>
                InLog(a, s.start, log.value.records)
    {
      AckedSurvives(l, asks, s.start, s.records, s.durable, cfg.fsync,
          s.records + inflight, log.value.records, i);
    }
    var w := new Writer(log.value, epochs.value, cfg.fsync);
    return Some(w);
  }

  /** A crash can leave a checkpoint that starts past the end of the log: the checkpoint is fsynced at once, the
      records before it are not. Such a checkpoint refuses the next epoch. */
  lemma CrashStrandsCheckpoint(r: Record, cfg: LogConfig)
    returns (s: LogState, logs: map<nat, LogFile>, indexes: map<nat, seq<byte>>, es: seq<EpochStart>)
    requires Validate(cfg) && r.offset == 0 && Fits(r, cfg)
    ensures Inv(s, cfg) && s.active.base in s.logs && CrashImage(s, [], logs, indexes, cfg)
    ensures Monotone(es) && Within(es, s.active.next)
    ensures s.active.base in logs && s.start <= s.active.base <= s.start + |s.records|
    ensures !Follows(es, s.start + |SurvivingRecords(s, [], logs, cfg)|)
  {
    hide Inv, EncodedLen, Fits, Encode, EncodeEntries, Validate;
    var e := EmptyLog();
    EmptyLogIsGood(cfg);
    RoomForRecord(e, r, cfg);
    var v := ViewAfterAppend(e.active, r, cfg);
    ViewAfterAppendBase(e.active, r, cfg);
    hide ViewAfterAppend;
    s := LogState(0, [r], map[], v, map[0 := LogFile([] + Encode(r, cfg.crc), 0)],
        map[0 := EncodeEntries(v.entries)], None);
    assert [] + [r] == [r];
    ItAppended(e, s, r, cfg);
    AppendKeepsInv(e, s, r, cfg);
    logs, indexes := map[0 := LogFile([], 0)], map[];
    es := [EpochStart(1, 0), EpochStart(2, 1)];
    NothingWhole(Intended(s, [], cfg));
  }

  /** The exact condition: no crash can strand the checkpoint if and only if everything before its last epoch is
      on stable media. */
  lemma CheckpointSurvives(s: LogState, es: seq<EpochStart>, cfg: LogConfig)
    requires Inv(s, cfg) && s.active.base in s.logs
    ensures NeverStranded(s, es, cfg) <==> Within(es, SecuredEnd(s))
  {
    hide Inv, Admitted, CrashImage, SurvivingRecords, SecuredEnd;
    if Within(es, SecuredEnd(s)) {
      forall inflight, logs, indexes | CrashImage(s, inflight, logs, indexes, cfg) && Admitted(s, inflight, cfg)
        ensures InsideAfter(s, es, inflight, logs, cfg)
      {
        SecuredSurvives(s, inflight, logs, indexes, cfg);
      }
    } else {
      var logs, indexes := WorstCrash(s, cfg);
      NothingInFlight(s, cfg);
      assert !InsideAfter(s, es, [], logs, cfg);
    }
  }

  ghost predicate InsideAfter(s: LogState, es: seq<EpochStart>, inflight: seq<Record>, logs: map<nat, LogFile>,
                              cfg: LogConfig) {
    && s.active.base in logs && s.start <= s.active.base <= s.start + |s.records|
    && Within(es, s.start + |SurvivingRecords(s, inflight, logs, cfg)|)
  }

  /** Whatever a crash leaves of the log, the checkpoint stays inside it. */
  ghost predicate NeverStranded(s: LogState, es: seq<EpochStart>, cfg: LogConfig)
    requires s.active.base in s.logs
  {
    forall inflight, logs, indexes :: CrashImage(s, inflight, logs, indexes, cfg) && Admitted(s, inflight, cfg) ==>
      InsideAfter(s, es, inflight, logs, cfg)
  }

  lemma NothingInFlight(s: LogState, cfg: LogConfig)
    ensures Admitted(s, [], cfg)
  {
  }

  lemma NothingWhole(rs: seq<Record>)
    ensures WholeCount(rs, 0) == 0
  {
  }
}
