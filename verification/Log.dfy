/** One partition's log: closed segments by base offset, one active segment, and how far the log is durable
    (src/storage/log.rs). */
module PartitionLog {
  import opened Wrappers
  import opened Bytes
  import opened RecordCodec
  import opened Config
  import opened Disk
  import opened Layout
  import opened SegmentSpec
  import opened SegmentFile
  import opened LogSpec
  import opened Truncation
  import opened LogBounds

  datatype AppendInfo = AppendInfo(offset: nat, durable: Option<nat>)

  /** The least of a non-empty set of keys. */
  function Least(keys: set<nat>): (m: nat)
    requires keys != {}
    ensures m in keys && forall k :: k in keys ==> m <= k
  {
    var some :| some in keys;
    LeastExists(keys, some);
    var m :| m in keys && forall k :: k in keys ==> m <= k;
    m
  }

  lemma {:induction false} LeastExists(keys: set<nat>, some: nat)
    requires some in keys
    ensures exists m :: m in keys && forall k :: k in keys ==> m <= k
    decreases some
  {
    if k :| k in keys && k < some {
      LeastExists(keys, k);
    }
  }

  /** The greatest key below `bound`. */
  function GreatestBelow(keys: set<nat>, bound: nat): (m: nat)
    requires exists k :: k in keys && k < bound
    ensures m in keys && m < bound
    ensures forall k :: k in keys && k < bound ==> k <= m
    decreases bound
  {
    if bound - 1 in keys then bound - 1 else GreatestBelow(keys, bound - 1)
  }

  class Log {
    const disk: Directory
    const config: LogConfig
    var closed: map<nat, Segment>
    var active: Segment
    var durableOffset: Option<nat>
    var dirtyBytes: nat
    /** The log's meaning: the records it holds, from offset `start` on. */
    ghost var start: nat
    ghost var records: seq<Record>
    ghost var views: map<nat, SegView>
    ghost var Repr: set<object>

    ghost function State(): LogState
      reads this, disk, active, active.index
    {
      LogState(start, records, views, active.View(), disk.logs, disk.indexes, durableOffset)
    }

    /** The segment objects are wired to the directory, are distinct from the active one, and read as the
        ghost views say. */
    ghost predicate Linked()
      reads this, Repr
    {
      && this in Repr && disk in Repr && active in Repr && active.index in Repr
      && active.Wired(disk)
      && views.Keys == closed.Keys
      && forall b {:trigger closed[b]} :: b in closed ==>
           && closed[b] in Repr && closed[b].index in Repr
           && closed[b].Wired(disk) && closed[b].baseOffset == b != active.baseOffset
           && closed[b].View() == views[b]
    }

    ghost predicate Valid()
      reads this, Repr
    {
      Linked() && Inv(State(), config)
    }

    /** No segment is larger than configured unless it holds a single record. */
    ghost predicate SegmentsFit()
      reads this, disk, active, active.index
    {
      AllFit(State(), config)
    }

    /** The byte counter is not below what is at risk. */
    ghost predicate Accounted()
      reads this
    {
      Size(Unflushed(records, start, durableOffset)) <= dirtyBytes
    }

    /** Between commands: what is not durable is bounded as the policy says. */
    ghost predicate Bounded()
      reads this
    {
      Accounted() && CounterOk(config.fsync, dirtyBytes)
    }

    /** The offset the next record will get. */
    function NextOffset(): nat
      reads this, active
    {
      active.nextOffset
    }

    constructor Of(disk: Directory, config: LogConfig, closed: map<nat, Segment>, active: Segment,
                   durable: Option<nat>, ghost start: nat, ghost records: seq<Record>, ghost views: map<nat, SegView>)
      ensures this.disk == disk && this.config == config && this.closed == closed && this.active == active
      ensures durableOffset == durable && dirtyBytes == 0
      ensures this.start == start && this.records == records && this.views == views
      ensures Repr == {this, disk, active, active.index}
                      + (set b | b in closed :: closed[b] as object)
                          + (set b | b in closed :: closed[b].index as object)
    {
      this.disk, this.config, this.closed, this.active := disk, config, closed, active;
      durableOffset, dirtyBytes := durable, 0;
      this.start, this.records, this.views := start, records, views;
      Repr := {this, disk, active, active.index}
              + (set b | b in closed :: closed[b] as object) + (set b | b in closed :: closed[b].index as object);
    }

    /** Everything appended so far is forced to stable media: one fsync, of the active file. */
    method Flush()
      requires Valid()
      modifies this, disk
      ensures Valid() && Flushed(old(State()), State()) && dirtyBytes == 0
      ensures durableOffset == LastOffset(active.nextOffset)
      ensures closed == old(closed) && active == old(active) && start == old(start) && records == old(records)
      ensures Repr == old(Repr)
      ensures durableOffset == if NextOffset() == 0 then None else Some(NextOffset() - 1)
      ensures Accounted() && (old(SegmentsFit()) ==> SegmentsFit())
    {
      hide Inv, ActiveInv, Flushed, SegmentFits;
      ghost var s := State();
      NextIsEnd(s, config);
      UnflushedAfterFlush(records, start);
      HasActiveFile(s, config);
      active.Flush();
      durableOffset := LastOffset(active.nextOffset);
      dirtyBytes := 0;
      ItFlushed(s, State());
      FlushKeepsInv(s, State(), config);
      SizeOfNone();
    }

    /** The outgoing segment is fsynced before the new one exists: recovery trusts closed segments. */
    method Roll()
      requires Valid() && active.size > 0
      modifies this, disk
      ensures Valid() && start == old(start) && records == old(records)
      ensures active.View() == SegView(old(active.nextOffset), old(active.nextOffset), 0, 0, [])
      ensures fresh(active) && fresh(active.index) && Repr == old(Repr) + {active, active.index}
      ensures closed == old(closed)[old(active.baseOffset) := old(active)]
      ensures dirtyBytes == 0 && durableOffset == LastOffset(old(active.nextOffset))
      ensures Accounted() && (old(SegmentsFit()) ==> SegmentsFit())
    {
      hide Inv, Flushed, SegmentsFit;
      Flush();
      WhatFlushDid(old(State()), State());
      OpenNext();
    }

    /** Closes the active segment, already synced, and starts a new one at the end of the log. */
    method OpenNext()
      requires Valid() && active.size > 0 && active.baseOffset in disk.logs
      requires FullySynced(disk.logs[active.baseOffset]) && durableOffset == LastOffset(active.nextOffset)
      modifies this, disk
      ensures Valid() && start == old(start) && records == old(records)
      ensures active.View() == SegView(old(active.nextOffset), old(active.nextOffset), 0, 0, [])
      ensures fresh(active) && fresh(active.index) && Repr == old(Repr) + {active, active.index}
      ensures closed == old(closed)[old(active.baseOffset) := old(active)]
      ensures dirtyBytes == old(dirtyBytes) && durableOffset == old(durableOffset)
      ensures old(SegmentsFit()) ==> SegmentsFit()
    {
      hide Inv, Rolled, Segment.View, AllFit;
      active.ViewFields();
      ghost var s := State();
      RollIsFresh(s, config);
      var created := Segment.Create(disk, active.nextOffset);
      created.value.ViewFields();
      ghost var t := State().(closed := s.closed[s.active.base := s.active], active := created.value.View());
      ItRolled(s, t);
      RollKeepsInv(s, t, config);
      if AllFit(s, config) {
        RollKeepsFit(s, t, config);
      }
      Adopt(created.value);
    }

    /** The old active segment joins the closed ones and `next` takes its place. */
    method Adopt(next: Segment)
      requires Linked() && active.baseOffset !in closed
      requires next.Wired(disk) && next !in Repr && next.index !in Repr
      requires next.baseOffset !in closed && next.baseOffset != active.baseOffset
      modifies this
      ensures Linked()
      ensures State() == old(State()).(closed := old(views)[old(active.baseOffset) := old(active.View())],
                                       active := next.View())
      ensures active == next && Repr == old(Repr) + {next, next.index}
      ensures closed == old(closed)[old(active.baseOffset) := old(active)]
      ensures dirtyBytes == old(dirtyBytes) && durableOffset == old(durableOffset)
    {
      hide Segment.View;
      views := views[active.baseOffset := active.View()];
      closed := closed[active.baseOffset := active];
      active := next;
      Repr := Repr + {next, next.index};
    }

    /** The record goes to the active segment, which has room for it. */
    method AppendToActive(record: Record)
      requires Valid() && record.offset == active.nextOffset && Fits(record, config)
      requires active.size + EncodedLen(record) <= ONE_GIB
      modifies this, disk, active, active.index
      ensures Valid() && start == old(start) && records == old(records) + [record]
      ensures closed == old(closed) && active == old(active) && durableOffset == old(durableOffset)
      ensures active.nextOffset == old(active.nextOffset) + 1 && Repr == old(Repr)
      ensures dirtyBytes == old(dirtyBytes) + EncodedLen(record)
      ensures old(Accounted()) ==> Accounted()
      ensures active.size == old(active.size) + EncodedLen(record) && active.baseOffset == old(active.baseOffset)
      ensures old(SegmentsFit()) && (old(active.size) == 0 || active.size <= config.maxSegmentBytes) ==> SegmentsFit()
    {
      hide Inv, Appended, EncodedLen, Fits, ViewAfterAppend, Encode, EncodeEntries, AllFit, Unflushed;
      ghost var s := State();
      DurableBelowNext(s, config);
      NextIsEnd(s, config);
      UnflushedGrows(records, record, start, durableOffset);
      HasActiveFile(s, config);
      var written := active.Append(record, config);
      dirtyBytes := dirtyBytes + written;
      records := records + [record];
      ItAppended(s, State(), record, config);
      AppendKeepsInv(s, State(), record, config);
      NextAfterAppend(s.active, record, config);
      if AllFit(s, config) && (s.active.size == 0 || s.active.size + EncodedLen(record) <= config.maxSegmentBytes) {
        AppendKeepsFit(s, State(), record, config);
      }
    }

    lemma Room(record: Record)
      requires Valid() && Fits(record, config)
      ensures EncodedLen(record) <= ONE_GIB
      ensures !RollDue(active.size, record, config) ==> active.size + EncodedLen(record) <= ONE_GIB
    {
      hide Inv, Linked, RollDue, EncodedLen;
      RoomForRecord(State(), record, config);
    }

    /** The record goes to the active segment, or to a new one if that is full. */
    method Write(record: Record)
      requires Valid() && record.offset == NextOffset() && Fits(record, config)
      modifies this, disk, active, active.index
      ensures Valid() && start == old(start) && records == old(records) + [record]
      ensures fresh(Repr - old(Repr))
      ensures active.nextOffset == record.offset + 1
      ensures var rolls := RollDue(old(active.size), record, config);
              && dirtyBytes == (if rolls then 0 else old(dirtyBytes)) + EncodedLen(record)
              && durableOffset == (if rolls then LastOffset(record.offset) else old(durableOffset))
              && active.baseOffset == (if rolls then record.offset else old(active.baseOffset))
      ensures (old(Accounted()) ==> Accounted()) && (old(SegmentsFit()) ==> SegmentsFit())
    {
      hide Inv, EncodedLen, Fits, Linked, Valid, State, SegmentsFit, Accounted;
      Room(record);
      if RollDue(active.size, record, config) {
        Roll();
      }
      AppendToActive(record);
    }

    /** Appends one record and flushes when the policy says so. `expired` says that the policy's time window
        has run out. */
    method AppendRecord(record: Record, expired: bool) returns (r: Result<AppendInfo, StorageError>)
      requires Valid() && record.offset == NextOffset()
      modifies this, disk, active, active.index
      ensures Valid() && start == old(start) && fresh(Repr - old(Repr))
      ensures EncodedLen(record) > config.maxRecordBytes ==>
                && r == Err(RecordTooLarge(EncodedLen(record))) && State() == old(State())
                && dirtyBytes == old(dirtyBytes) && durableOffset == old(durableOffset)
                && records == old(records) && NextOffset() == old(NextOffset())
      ensures EncodedLen(record) <= config.maxRecordBytes ==>
                && r == Ok(AppendInfo(record.offset, durableOffset))
                && records == old(records) + [record]
                && NextOffset() == record.offset + 1
                && var rolls := old(active.size) > 0
                                && old(active.size) + EncodedLen(record) > config.maxSegmentBytes;
                   var dirty := (if rolls then 0 else old(dirtyBytes)) + EncodedLen(record);
                   var flushes := match config.fsync
                                  case Always => true
                                  case Batch(maxBytes, _) => dirty >= maxBytes || expired
                                  case Os => false;
                   && active.baseOffset == (if rolls then record.offset else old(active.baseOffset))
                   && dirtyBytes == (if flushes then 0 else dirty)
                   && durableOffset == if flushes then Some(record.offset)
                                       else if !rolls then old(durableOffset)
                                       else if record.offset == 0 then None else Some(record.offset - 1)
      ensures (old(Bounded()) ==> Bounded()) && (old(SegmentsFit()) ==> SegmentsFit())
    {
      hide Inv, Flushed, EncodedLen, Linked, SegmentsFit, Accounted;
      var len := EncodedLen(record);
      if len > config.maxRecordBytes {
        return Err(RecordTooLarge(len));
      }
      Write(record);
      if FlushDue(config.fsync, dirtyBytes, expired) {
        Flush();
      }
      return Ok(AppendInfo(record.offset, durableOffset));
    }

    /** A leader's append: the log assigns the offset. `now` is the wall clock. */
    method Append(key: Option<seq<byte>>, value: seq<byte>, now: i64, expired: bool)
      returns (r: Result<AppendInfo, StorageError>)
      requires Valid() && NextOffset() < U64_RANGE
      modifies this, disk, active, active.index
      ensures Valid() && start == old(start) && fresh(Repr - old(Repr))
      ensures var record := Record(old(NextOffset()), now, key, value);
              if Fits(record, config)
              then r == Ok(AppendInfo(record.offset, durableOffset)) && records == old(records) + [record]
                   && NextOffset() == record.offset + 1
                   && (config.fsync == Always ==> durableOffset == Some(record.offset))
              else r == Err(RecordTooLarge(EncodedLen(record))) && State() == old(State())
      ensures r.Ok? <==> EncodedLen(Record(old(NextOffset()), now, key, value)) <= config.maxRecordBytes
      ensures r.Err? ==>
          records == old(records) && NextOffset() == old(NextOffset()) && durableOffset == old(durableOffset)
      ensures DurableGrows(old(durableOffset), durableOffset)
      ensures (old(Bounded()) ==> Bounded()) && (old(SegmentsFit()) ==> SegmentsFit())
    {
      hide Inv, Linked, State, Bounded, SegmentsFit;
      var record := Record(NextOffset(), now, key, value);
      DurableBelowEnd();
      r := AppendRecord(record, expired);
    }

    /** A follower's append: the record keeps its offset, which must continue this log exactly. */
    method AppendReplicated(record: Record, expired: bool) returns (r: Result<AppendInfo, StorageError>)
      requires Valid()
      modifies this, disk, active, active.index
      ensures Valid() && start == old(start) && fresh(Repr - old(Repr))
      ensures if record.offset != old(NextOffset()) then r == Err(InvalidLayout) && State() == old(State())
              else if Fits(record, config)
              then r == Ok(AppendInfo(record.offset, durableOffset)) && records == old(records) + [record]
                   && NextOffset() == record.offset + 1
              else r == Err(RecordTooLarge(EncodedLen(record))) && State() == old(State())
      ensures r.Ok? <==> record.offset == old(NextOffset()) && EncodedLen(record) <= config.maxRecordBytes
      ensures r.Err? ==>
          records == old(records) && NextOffset() == old(NextOffset()) && durableOffset == old(durableOffset)
      ensures DurableGrows(old(durableOffset), durableOffset)
      ensures (old(Bounded()) ==> Bounded()) && (old(SegmentsFit()) ==> SegmentsFit())
    {
      hide Inv, Linked, State, Bounded, SegmentsFit;
      if record.offset != NextOffset() {
        return Err(InvalidLayout);
      }
      DurableBelowEnd();
      r := AppendRecord(record, expired);
    }

    /** The first offset the log still has. */
    method StartOffset() returns (r: nat)
      requires Valid()
      ensures r == start
    {
      hide Inv, Linked, Segment.View;
      LinkedFacts();
      FirstBase(State(), config);
      r := if closed == map[] then active.baseOffset else Least(closed.Keys);
    }

    /** Records from `offset` on, up to roughly `maxBytes`, at least one if there is one, all from the segment
        that holds `offset`. */
    method Read(offset: nat, maxBytes: nat) returns (r: Result<seq<Record>, StorageError>)
      requires Valid()
      ensures offset < start || offset > NextOffset() ==> r == Err(OffsetOutOfRange(offset))
      ensures offset == NextOffset() ==> r == Ok([])
      ensures start <= offset < NextOffset() ==> r.Ok? && ReadResult(State(), r.value, offset, maxBytes)
    {
      hide Inv, Segment.View, ReadSpec;
      active.ViewFields();
      HasActiveFile(State(), config);
      var first := StartOffset();
      if offset < first || offset > active.nextOffset {
        return Err(OffsetOutOfRange(offset));
      }
      if offset == active.nextOffset {
        return Ok([]);
      }
      if offset >= active.baseOffset {
        ReadActive(State(), offset, maxBytes, config);
        r := active.ReadFrom(offset, maxBytes, config);
      } else {
        var b := Covering(offset);
        ReadClosed(State(), b, offset, maxBytes, config);
        r := closed[b].ReadFrom(offset, maxBytes, config);
      }
    }

    /** The closed segment that holds an offset below the active one. */
    method Covering(offset: nat) returns (b: nat)
      requires Valid() && start <= offset < active.baseOffset
      ensures b in closed && b in views && b in disk.logs && b <= offset < views[b].next
    {
      hide ActiveInv, ClosedStored;
      FirstBase(State(), config);
      b := GreatestBelow(closed.Keys, offset + 1);
      SegmentCovers(State(), b, offset, config);
    }

    lemma DurableBelowEnd()
      requires Valid()
      ensures durableOffset.Some? ==> durableOffset.value < NextOffset()
    {
      hide Linked;
      DurableBelowNext(State(), config);
    }

    lemma OffsetIs(i: nat)
      requires Valid() && i < |records|
      ensures records[i].offset == start + i
    {
      hide Inv, Linked, Segment.View;
      RecordAt(State(), i, config);
    }

    lemma EndIs()
      requires Valid()
      ensures NextOffset() == start + |records|
    {
      hide Inv, Linked, Segment.View;
      active.ViewFields();
      HasActiveFile(State(), config);
    }

    /** The segment that keeps the tail: the one covering `n - 1`, or the first when the log is emptied. */
    method TailSegment(n: nat) returns (target: nat)
      requires Valid() && start <= n < NextOffset()
      ensures KeepsTail(State(), n, target)
    {
      hide Inv, KeepsTail;
      var first := StartOffset();
      if n == first {
        target := first;
      } else if active.baseOffset < n {
        target := active.baseOffset;
      } else {
        SomethingBelow(State(), n, config);
        target := GreatestBelow(closed.Keys, n);
      }
      TailIsKept(State(), n, target, config);
    }

    /** Forgets and deletes every segment after `target`, oldest first. */
    method DropAfter(target: nat)
      requires active.baseOffset !in closed && active.baseOffset !in views
      modifies this, disk
      ensures active == old(active) && Repr == old(Repr) && start == old(start) && records == old(records)
      ensures durableOffset == old(durableOffset) && dirtyBytes == old(dirtyBytes)
      ensures var gone := Gone(old(closed).Keys, active.baseOffset, target);
              && closed == old(closed) - gone && views == old(views) - gone
              && disk.logs == old(disk.logs) - gone && disk.indexes == old(disk.indexes) - gone
    {
      hide Segment.View, Linked;
      var doomed := set b | b in closed && b > target;
      ghost var removed := {};
      NothingRemoved(closed, views, disk.logs, disk.indexes);
      while doomed != {}
        invariant removed + doomed == set b | b in old(closed) && b > target
        invariant closed == old(closed) - removed && views == old(views) - removed
        invariant disk.logs == old(disk.logs) - removed && disk.indexes == old(disk.indexes) - removed
        invariant active == old(active) && Repr == old(Repr) && start == old(start) && records == old(records)
        invariant durableOffset == old(durableOffset) && dirtyBytes == old(dirtyBytes)
      {
        var b := Least(doomed);
        doomed := doomed - {b};
        RemoveOneMore(old(closed), old(views), old(disk.logs), old(disk.indexes), removed, b);
        removed := removed + {b};
        closed, views := closed - {b}, views - {b};
        disk.RemoveSegment(b);
      }
      if active.baseOffset != target {
        RemoveOneMore(old(closed), old(views), old(disk.logs), old(disk.indexes), removed, active.baseOffset);
        disk.RemoveSegment(active.baseOffset);
        RemoveAbsent(closed, active.baseOffset);
        RemoveAbsent(views, active.baseOffset);
      }
    }

    method DropSegments(target: nat)
      requires Linked() && active.baseOffset !in closed
      modifies this, disk
      ensures Linked()
      ensures active == old(active) && Repr == old(Repr) && start == old(start) && records == old(records)
      ensures durableOffset == old(durableOffset) && dirtyBytes == old(dirtyBytes)
      ensures var gone := Gone(old(closed).Keys, active.baseOffset, target);
              && closed == old(closed) - gone && views == old(views) - gone
              && disk.logs == old(disk.logs) - gone && disk.indexes == old(disk.indexes) - gone
    {
      hide Segment.View, Gone;
      DropAfter(target);
    }

    /** Cuts the segment's file at the record at offset `n` and reopens it. */
    method CutFile(seg: Segment, n: nat, ghost all: seq<Record>) returns (r: Result<Segment, StorageError>)
      requires Linked() && Validate(config) && seg.disk == disk && seg.baseOffset in disk.logs
      requires Holds(seg.View(), disk.logs[seg.baseOffset].bytes, all, config)
      requires seg.baseOffset <= n <= seg.baseOffset + |all|
      modifies disk
      ensures Linked()
      ensures var base := seg.baseOffset;
              var rs := all[..n - base];
              && r.Ok? && fresh(r.value) && fresh(r.value.index) && r.value.Wired(disk)
              && r.value.View() == Rebuilt(base, rs, config)
              && disk.logs == old(disk.logs)[base := LogFile(EncodeAll(rs, config.crc), Size(rs))]
              && disk.indexes == old(disk.indexes)[base := EncodeEntries(r.value.View().entries)]
    {
      hide Recovered, Holds, EncodeAll, EncodeEntries, Rebuilt, Size, Segment.View, PositionSpec;
      seg.ViewFields();
      ghost var v, f := seg.View(), disk.logs[seg.baseOffset];
      HoldsLength(v, f.bytes, all, config);
      PositionIsPos(v, f.bytes, all, n, config);
      RecoverCut(v, f, all, n - seg.baseOffset, IndexFile(disk.indexes, seg.baseOffset), config);
      RebuiltSize(seg.baseOffset, all[..n - seg.baseOffset], config);
      var position := seg.PositionOf(n, config);
      disk.SetLenAndFsync(seg.baseOffset, position.value);
      r := Segment.Recover(disk, seg.baseOffset, config, true);
    }

    /** The segment object with the given base. */
    method SegmentFor(target: nat) returns (seg: Segment)
      requires Valid() && (target == active.baseOffset || target in closed)
      ensures seg in Repr && seg.index in Repr && seg.Wired(disk) && seg.baseOffset == target
      ensures (target == State().active.base || target in views) && seg.View() == SegmentAt(State(), target)
    {
      hide Inv, Segment.View;
      active.ViewFields();
      seg := if target == active.baseOffset then active else closed[target];
    }

    /** Makes the recovered segment the active one, in a log that ends at `n`. */
    method Install(seg: Segment, target: nat, n: nat)
      requires Linked() && start <= n <= start + |records|
      requires seg.Wired(disk) && seg !in Repr && seg.index !in Repr && seg.baseOffset == target
      modifies this
      ensures Linked() && active == seg && Repr == old(Repr) + {seg, seg.index}
      ensures start == old(start) && records == old(records)[..n - start]
      ensures closed == old(closed) - {target} && views == old(views) - {target}
      ensures durableOffset == OldestFirst(old(durableOffset), n) && dirtyBytes == old(dirtyBytes)
    {
      hide Segment.View, OldestFirst;
      closed, views := closed - {target}, views - {target};
      records := records[..n - start];
      durableOffset := OldestFirst(durableOffset, n);
      Reactivate(seg);
    }

    method Reactivate(seg: Segment)
      requires Linked()
      requires seg.Wired(disk) && seg !in Repr && seg.index !in Repr && seg.baseOffset !in closed
      modifies this
      ensures Linked() && active == seg && Repr == old(Repr) + {seg, seg.index}
      ensures start == old(start) && records == old(records) && closed == old(closed) && views == old(views)
      ensures durableOffset == old(durableOffset) && dirtyBytes == old(dirtyBytes)
    {
      hide Segment.View;
      active := seg;
      Repr := Repr + {seg, seg.index};
    }

    lemma LinkedFacts()
      requires Linked()
      ensures views.Keys == closed.Keys && active.disk == disk
      ensures active.View().base == active.baseOffset && active.View().next == active.nextOffset
    {
    }

    /** The work of `truncate_suffix`, once the offset is known to lie inside the log. */
    method CutTail(n: nat)
      requires Valid() && start <= n < NextOffset()
      modifies this, disk
      ensures Valid() && start == old(start) && fresh(Repr - old(Repr))
      ensures records == old(records)[..n - start] && NextOffset() == n
      ensures durableOffset == OldestFirst(old(durableOffset), n) && dirtyBytes == old(dirtyBytes)
      ensures (old(Accounted()) ==> Accounted()) && (old(SegmentsFit()) ==> SegmentsFit())
    {
      hide Inv, KeepsTail, Cut, Rebuilt, EncodeAll, EncodeEntries, Size, Segment.View, Holds, Gone, Below, Part, Linked,
        AllFit, Unflushed;
      ghost var s := State();
      LinkedFacts();
      DurableBelowNext(s, config);
      NextIsEnd(s, config);
      UnflushedAfterCut(records, start, durableOffset, n);
      HasActiveFile(s, config);
      var target := TailSegment(n);
      TailIsSegment(s, n, target);
      ghost var all := TargetPart(s, n, target, config);
      InvValid(s, config);
      GoneKeeps(s.closed.Keys, s.active.base, target);
      var seg := SegmentFor(target);
      DropSegments(target);
      var rebuilt := CutFile(seg, n, all);
      rebuilt.value.ViewFields();
      RebuiltSize(target, all[..n - target], config);
      Install(rebuilt.value, target, n);
      ItCut(s, State(), n, target, config);
      CutKeepsInv(s, State(), n, target, config);
      if AllFit(s, config) {
        CutKeepsFit(s, State(), n, target, config);
      }
    }

    /** Removes the records at `n` and beyond; a tail-only operation, for every segment layout. */
    method TruncateSuffix(n: nat) returns (r: Result<(), StorageError>)
      requires Valid()
      modifies this, disk
      ensures Valid() && start == old(start) && fresh(Repr - old(Repr))
      ensures if n >= old(NextOffset()) then r == Ok(()) && State() == old(State())
              else if n < start then r == Err(OffsetOutOfRange(n)) && State() == old(State())
              else r == Ok(()) && records == old(records)[..n - start] && NextOffset() == n
                   && durableOffset == OldestFirst(old(durableOffset), n)
      ensures n >= old(NextOffset()) || r.Err? ==>
                records == old(records) && NextOffset() == old(NextOffset()) && durableOffset == old(durableOffset)
      ensures n < old(NextOffset()) && r.Ok? ==>
                durableOffset == if old(durableOffset).None? || n == 0 then None
                                 else if old(durableOffset).value < n then old(durableOffset) else Some(n - 1)
      ensures dirtyBytes == old(dirtyBytes)
      ensures (old(Bounded()) ==> Bounded()) && (old(SegmentsFit()) ==> SegmentsFit())
    {
      hide Inv, Linked, SegmentsFit, Accounted;
      if n >= NextOffset() {
        return Ok(());
      }
      var first := StartOffset();
      if n < first {
        return Err(OffsetOutOfRange(n));
      }
      CutTail(n);
      return Ok(());
    }
  }

  lemma ItCut(s: LogState, t: LogState, n: nat, target: nat, cfg: LogConfig)
    requires Inv(s, cfg) && KeepsTail(s, n, target) && s.start <= n <= s.start + |s.records|
    requires t.start == s.start && t.records == s.records[..n - s.start]
    requires t.durable == OldestFirst(s.durable, n)
    requires var rs := Part(s.records, s.start, target, n);
             var gone := Gone(s.closed.Keys, s.active.base, target);
             && t.active == Rebuilt(target, rs, cfg)
             && t.closed == s.closed - gone - {target}
             && t.logs == (s.logs - gone)[target := LogFile(EncodeAll(rs, cfg.crc), Size(rs))]
             && t.indexes == (s.indexes - gone)[target := EncodeEntries(t.active.entries)]
    ensures Cut(s, t, n, target, cfg)
  {
    hide ActiveInv, ClosedStored, Rebuilt, EncodeAll, EncodeEntries, Size, Part, InPlace;
    TargetInPlace(s, n, target, cfg);
    BelowIsMinusGone(s.closed, s.closed.Keys, s.active.base, target);
    BelowIsMinusGone(s.logs, s.closed.Keys, s.active.base, target);
    BelowIsMinusGone(s.indexes, s.closed.Keys, s.active.base, target);
    UpdateAt(s.logs - Gone(s.closed.Keys, s.active.base, target), target, t.logs[target]);
    UpdateAt(s.indexes - Gone(s.closed.Keys, s.active.base, target), target, t.indexes[target]);
  }

  lemma UpdateAt<T>(m: map<nat, T>, k: nat, x: T)
    ensures m[k := x] == (m - {k})[k := x]
  {
  }

  lemma TargetInPlace(s: LogState, n: nat, target: nat, cfg: LogConfig)
    requires Inv(s, cfg) && KeepsTail(s, n, target)
    ensures target <= s.active.base && forall b :: b in s.closed ==> b < s.active.base
    ensures s.logs.Keys == s.indexes.Keys == s.closed.Keys + {s.active.base}
  {
    hide ActiveInv, ClosedStored;
    forall b | b in s.closed ensures b < s.active.base {
      assert InPlace(s.start, s.closed, s.active.base, b);
    }
  }

  lemma BelowIsMinusGone<T>(m: map<nat, T>, closed: set<nat>, active: nat, target: nat)
    requires m.Keys <= closed + {active} && target <= active && forall b :: b in closed ==> b < active
    ensures m - Gone(closed, active, target) - {target} == Below(m, target)
  {
    var gone := Gone(closed, active, target);
    forall b ensures b in m - gone && b != target <==> b in Below(m, target) {
    }
  }

  lemma TailIsSegment(s: LogState, n: nat, target: nat)
    requires KeepsTail(s, n, target)
    ensures target == s.active.base || target in s.closed
  {
  }

  lemma GoneKeeps(closed: set<nat>, active: nat, target: nat)
    ensures target !in Gone(closed, active, target)
  {
  }

  lemma RebuiltSize(base: nat, rs: seq<Record>, cfg: LogConfig)
    ensures Rebuilt(base, rs, cfg).size == Size(rs)
    ensures Rebuilt(base, rs, cfg).base == base
    ensures Rebuilt(base, rs, cfg).next == base + |rs|
  {
  }

  lemma NothingRemoved<A, B, C, D>(a: map<nat, A>, b: map<nat, B>, c: map<nat, C>, d: map<nat, D>)
    ensures a == a - {} && b == b - {} && c == c - {} && d == d - {}
  {
  }

  lemma RemoveOneMore<A, B, C, D>(a: map<nat, A>, b: map<nat, B>, c: map<nat, C>, d: map<nat, D>, s: set<nat>, k: nat)
    ensures a - s - {k} == a - (s + {k})
    ensures b - s - {k} == b - (s + {k})
    ensures c - s - {k} == c - (s + {k})
    ensures d - s - {k} == d - (s + {k})
  {
  }

  lemma RemoveAbsent<A>(a: map<nat, A>, k: nat)
    requires k !in a
    ensures a - {k} == a
  {
  }

  /** The segments after `target`. */
  function Gone(closed: set<nat>, active: nat, target: nat): set<nat> {
    (set b | b in closed && b > target) + (if active == target then {} else {active})
  }

  lemma SomethingBelow(s: LogState, n: nat, cfg: LogConfig)
    requires Inv(s, cfg) && s.start < n <= s.active.base
    ensures s.start in s.closed
  {
    FirstBase(s, cfg);
  }

  lemma TailIsKept(s: LogState, n: nat, target: nat, cfg: LogConfig)
    requires Inv(s, cfg) && s.start <= n < s.active.next
    requires if n == s.start then target == s.start
             else if s.active.base < n then target == s.active.base
             else target in s.closed && target < n && forall c :: c in s.closed && c < n ==> c <= target
    ensures KeepsTail(s, n, target)
  {
    hide Inv;
    FirstBase(s, cfg);
    HasActiveFile(s, cfg);
    if n == s.start {
      if s.start in s.closed {
        ClosedInPlace(s, s.start, cfg);
      }
    } else if n <= s.active.base {
      ClosedInPlace(s, target, cfg);
    }
  }

  lemma ClosedInPlace(s: LogState, b: nat, cfg: LogConfig)
    requires Inv(s, cfg) && b in s.closed
    ensures s.closed[b].base == b && s.start <= b < s.closed[b].next <= s.active.base
    ensures s.closed[b].next == s.active.base || s.closed[b].next in s.closed
  {
    hide ActiveInv, ClosedStored, FilesMatch;
    assert InPlace(s.start, s.closed, s.active.base, b);
  }

  /** Durability is never taken back. */
  predicate DurableGrows(before: Option<nat>, after: Option<nat>) {
    before.Some? ==> after.Some? && before.value <= after.value
  }

  ghost predicate IsBoundary(s: LogState, offset: nat) {
    offset in s.closed || offset == s.active.base || offset == s.active.next
  }

  /** A contiguous run from `offset`: the longest within the budget that stays in the segment, or one record. */
  ghost predicate ReadResult(s: LogState, out: seq<Record>, offset: nat, max: nat) {
    && s.start <= offset < s.start + |s.records|
    && out != [] && out <= s.records[offset - s.start..]
    && (|out| == 1 || Size(out) <= max)
    && (IsBoundary(s, offset + |out|) || Size(Part(s.records, s.start, offset, offset + |out| + 1)) > max)
  }

  lemma BudgetedIsReadResult(s: LogState, out: seq<Record>, lo: nat, hi: nat, offset: nat, max: nat)
    requires s.start <= lo <= offset < hi <= s.start + |s.records| && IsBoundary(s, hi)
    requires BudgetedRun(out, Part(s.records, s.start, lo, hi)[offset - lo..], max)
    ensures ReadResult(s, out, offset, max)
  {
    hide Size, IsBoundary;
    var rs := Part(s.records, s.start, lo, hi)[offset - lo..];
    assert rs == s.records[offset - s.start..hi - s.start];
    if |out| < |rs| {
      assert rs[..|out| + 1] == Part(s.records, s.start, offset, offset + |out| + 1);
    }
  }

  lemma ReadSegment(s: LogState, v: SegView, bytes: seq<byte>, all: seq<Record>, offset: nat, max: nat, cfg: LogConfig)
    requires Validate(cfg) && Holds(v, bytes, all, cfg) && all == Part(s.records, s.start, v.base, v.next)
    requires s.start <= v.base <= offset < v.next <= s.start + |s.records| && IsBoundary(s, v.next)
    ensures var o := ReadSpec(v, bytes, offset, max, cfg);
            o.Ok? && ReadResult(s, o.value, offset, max)
  {
    hide Holds, BudgetedRun, ReadSpec, ReadResult, Part, IsBoundary;
    ReadIsRun(v, bytes, all, offset, max, cfg);
    BudgetedIsReadResult(s, ReadSpec(v, bytes, offset, max, cfg).value, v.base, v.next, offset, max);
  }

  lemma ReadActive(s: LogState, offset: nat, max: nat, cfg: LogConfig)
    requires Inv(s, cfg) && s.active.base <= offset < s.active.next
    ensures s.active.base in s.logs
    ensures var o := ReadSpec(s.active, s.logs[s.active.base].bytes, offset, max, cfg);
            o.Ok? && ReadResult(s, o.value, offset, max)
  {
    HasActiveFile(s, cfg);
    hide Inv, Holds, ReadSpec, ReadResult, Part, Validate;
    InvValid(s, cfg);
    var all := ActiveHolds(s, cfg);
    ReadSegment(s, s.active, s.logs[s.active.base].bytes, all, offset, max, cfg);
  }

  lemma ReadClosed(s: LogState, b: nat, offset: nat, max: nat, cfg: LogConfig)
    requires Inv(s, cfg) && b in s.closed && b <= offset < s.closed[b].next
    ensures b in s.logs
    ensures var o := ReadSpec(s.closed[b], s.logs[b].bytes, offset, max, cfg);
            o.Ok? && ReadResult(s, o.value, offset, max)
  {
    hide Inv, Holds, ReadSpec, ReadResult, IsBoundary, Part, Validate;
    InvValid(s, cfg);
    NextIsBoundary(s, b, cfg);
    var all := ClosedHolds(s, b, cfg);
    ReadSegment(s, s.closed[b], s.logs[b].bytes, all, offset, max, cfg);
  }

  lemma NextIsBoundary(s: LogState, b: nat, cfg: LogConfig)
    requires Inv(s, cfg) && b in s.closed
    ensures IsBoundary(s, s.closed[b].next)
  {
    hide Inv;
    ClosedInPlace(s, b, cfg);
  }

  lemma FirstBase(s: LogState, cfg: LogConfig)
    requires Inv(s, cfg)
    ensures if s.closed == map[] then s.start == s.active.base else s.start in s.closed
    ensures forall b {:trigger s.closed[b]} :: b in s.closed ==> s.start <= b
    ensures s.start < s.active.base ==> s.start in s.closed
  {
    hide ActiveInv, ClosedStored, FilesMatch;
    forall b | b in s.closed ensures s.start <= b < s.active.base {
      assert InPlace(s.start, s.closed, s.active.base, b);
    }
    if s.closed != map[] {
      var b :| b in s.closed;
    }
  }

  lemma SegmentCovers(s: LogState, b: nat, offset: nat, cfg: LogConfig)
    requires Inv(s, cfg) && b in s.closed && b <= offset < s.active.base
    requires forall c :: c in s.closed && c <= offset ==> c <= b
    ensures offset < s.closed[b].next && b in s.logs
  {
    hide ActiveInv, ClosedStored;
    ClosedInPlace(s, b, cfg);
  }

  /** Every record sits at its own offset. */
  lemma RecordAt(s: LogState, i: nat, cfg: LogConfig)
    requires Inv(s, cfg) && i < |s.records|
    ensures s.records[i].offset == s.start + i
  {
    hide Inv, Holds, Part, Least;
    HasActiveFile(s, cfg);
    var o := s.start + i;
    if o >= s.active.base {
      var all := ActiveHolds(s, cfg);
      PartAt(s.records, s.start, s.active.base, s.active.next, o);
      RunAt(s.active, s.logs[s.active.base].bytes, all, o - s.active.base, cfg);
    } else {
      var b := SegmentOf(s, o, cfg);
      var all := ClosedHolds(s, b, cfg);
      PartAt(s.records, s.start, b, s.closed[b].next, o);
      RunAt(s.closed[b], s.logs[b].bytes, all, o - b, cfg);
    }
  }

  lemma SegmentOf(s: LogState, offset: nat, cfg: LogConfig) returns (b: nat)
    requires Inv(s, cfg) && s.start <= offset < s.active.base
    ensures b in s.closed && b in s.logs && b <= offset < s.closed[b].next
  {
    hide Inv;
    FirstBase(s, cfg);
    b := GreatestBelow(s.closed.Keys, offset + 1);
    SegmentCovers(s, b, offset, cfg);
  }

  lemma PartAt(records: seq<Record>, start: nat, lo: nat, hi: nat, o: nat)
    requires start <= lo <= o < hi <= start + |records|
    ensures |Part(records, start, lo, hi)| == hi - lo && Part(records, start, lo, hi)[o - lo] == records[o - start]
  {
  }

  lemma RunAt(v: SegView, bytes: seq<byte>, rs: seq<Record>, i: nat, cfg: LogConfig)
    requires Holds(v, bytes, rs, cfg) && i < |rs|
    ensures rs[i].offset == v.base + i
  {
    hide Sound, EncodeAll, Size;
  }

  lemma NextIsEnd(s: LogState, cfg: LogConfig)
    requires Inv(s, cfg)
    ensures s.active.next == s.start + |s.records|
  {
    hide Tiled, ClosedStored, ActiveInv;
  }

  lemma DurableBelowNext(s: LogState, cfg: LogConfig)
    requires Inv(s, cfg)
    ensures s.durable.Some? ==> s.durable.value < s.active.next
  {
    hide ClosedStored, ActiveStored, Tiled;
    FilesHaveActive(s);
  }

  predicate RollDue(size: nat, r: Record, cfg: LogConfig) {
    size > 0 && size + EncodedLen(r) > cfg.maxSegmentBytes
  }

  predicate FlushDue(policy: FsyncPolicy, dirty: nat, expired: bool) {
    match policy
    case Always => true
    case Batch(maxBytes, _) => dirty >= maxBytes || expired
    case Os => false
  }

  lemma ItAppended(s: LogState, t: LogState, r: Record, cfg: LogConfig)
    requires s.active.base in s.logs && r.offset == s.active.next >= s.active.base
    requires t.start == s.start && t.records == s.records + [r] && t.closed == s.closed && t.durable == s.durable
    requires t.active == ViewAfterAppend(s.active, r, cfg)
    requires t.logs == s.logs[s.active.base :=
               LogFile(s.logs[s.active.base].bytes + Encode(r, cfg.crc), s.logs[s.active.base].synced)]
    requires t.indexes == s.indexes[s.active.base := EncodeEntries(t.active.entries)]
    ensures Appended(s, t, r, cfg)
  {
    hide ViewAfterAppend, Encode, EncodeEntries;
  }

  lemma NextAfterAppend(v: SegView, r: Record, cfg: LogConfig)
    requires v.base <= r.offset
    ensures ViewAfterAppend(v, r, cfg).next == v.next + 1
    ensures ViewAfterAppend(v, r, cfg).size == v.size + EncodedLen(r) && ViewAfterAppend(v, r, cfg).base == v.base
  {
    hide IndexStep, EncodedLen;
  }

  /** A record that passed the size test fits in an empty segment, or in one that need not roll. */
  lemma RoomForRecord(s: LogState, r: Record, cfg: LogConfig)
    requires Inv(s, cfg) && Fits(r, cfg)
    ensures 0 + EncodedLen(r) <= ONE_GIB
    ensures !RollDue(s.active.size, r, cfg) ==> s.active.size + EncodedLen(r) <= ONE_GIB
  {
    InvValid(s, cfg);
    hide Inv, EncodedLen;
  }

  lemma WhatFlushDid(s: LogState, t: LogState)
    requires Flushed(s, t)
    ensures t.active == s.active && t.durable == LastOffset(s.active.next)
    ensures t.active.base in t.logs && FullySynced(t.logs[t.active.base])
    ensures t.start == s.start && t.records == s.records && t.closed == s.closed
  {
  }

  lemma RollIsFresh(s: LogState, cfg: LogConfig)
    requires Inv(s, cfg) && s.active.size > 0
    ensures s.active.next !in s.logs && s.active.next !in s.closed && s.active.base < s.active.next
  {
    hide ClosedStored, Holds, IndexOf, EncodeEntries, DurableIsSynced, ActivePart;
    FilesHaveActive(s);
    StoredLength(ActivePart(s), s.active, s.logs[s.active.base], s.indexes[s.active.base], cfg);
    TiledAfterRoll(s.start, s.closed, s.active);
  }

  lemma ItRolled(s: LogState, t: LogState)
    requires s.active.base in s.logs
    requires t == s.(closed := s.closed[s.active.base := s.active],
                     active := SegView(s.active.next, s.active.next, 0, 0, []),
                     logs := s.logs[s.active.next := LogFile([], 0)],
                     indexes := s.indexes[s.active.next := []])
    ensures Rolled(s, t)
  {
  }

  lemma HasActiveFile(s: LogState, cfg: LogConfig)
    requires Inv(s, cfg)
    ensures s.active.base in s.logs && s.active.base in s.indexes
    ensures s.start <= s.active.base <= s.active.next == s.start + |s.records|
    ensures s.indexes[s.active.base] == EncodeEntries(s.active.entries)
    ensures s.active.base !in s.closed
  {
    hide Tiled, ClosedStored, ActivePart, Holds, IndexOf, EncodeEntries, DurableIsSynced;
    FilesHaveActive(s);
  }

  lemma ItFlushed(s: LogState, t: LogState)
    requires s.active.base in s.logs
    requires t == s.(logs := s.logs[s.active.base := SyncAll(s.logs[s.active.base])],
        durable := LastOffset(s.active.next))
    ensures Flushed(s, t)
  {
  }
}
