/** One hosted partition as the replication layer sees it: role, ISR, follower progress, the high-water mark and
    the acks=all queue (src/broker/cluster.rs, src/broker/mod.rs). Times are readings of a monotone clock. */
module ReplicaState {
  import opened Wrappers
  import opened Bytes
  import opened RecordCodec
  import opened Messages
  import opened Layout
  import opened LogSpec
  import opened SegmentFile
  import opened PartitionLog
  import opened AckLedger
  import opened PartitionThread
  import opened HighWatermark
  import opened Leadership
  import Follower

  /** What has been answered to an acks=all produce. */
  datatype Answer = Answer(ticket: nat, result: AppendResult)

  function Oks(ws: seq<Waiting>): (s: seq<Answer>)
    ensures |s| == |ws|
    ensures forall i {:trigger s[i]} :: 0 <= i < |s| ==> s[i] == Answer(ws[i].ticket, Ok((ws[i].base, ws[i].count)))
  {
    seq(|ws|, i requires 0 <= i < |ws| => Answer(ws[i].ticket, Ok((ws[i].base, ws[i].count))))
  }

  function NotLeaders(ws: seq<Waiting>): (s: seq<Answer>)
    ensures |s| == |ws|
    ensures forall i {:trigger s[i]} :: 0 <= i < |s| ==> s[i] == Answer(ws[i].ticket, Err(NotLeader))
  {
    seq(|ws|, i requires 0 <= i < |ws| => Answer(ws[i].ticket, Err(NotLeader)))
  }

  class Replica {
    const selfId: u32
    const writer: Writer
    var epoch: u64
    var isLeader: bool
    var isr: seq<u32>
    var replicas: seq<u32>
    var matchOffsets: map<u32, Progress>
    var pendingAll: seq<Waiting>
    var fetcherGeneration: nat
    var fetcherAlive: bool
    var leaderSince: nat
    var hwm: nat
    /** Everything answered to acks=all produces so far. */
    var answers: seq<Answer>

    /** What the leader's steps of `AcksAll` are about. */
    ghost function Lead(): Leader
      reads this
    {
      Leader(selfId, replicas, isr, matchOffsets, leaderSince, hwm, pendingAll)
    }

    constructor (selfId: u32, writer: Writer)
      ensures this.selfId == selfId && this.writer == writer && hwm == 0 && !isLeader && epoch == 0
      ensures pendingAll == [] && answers == [] && matchOffsets == map[] && isr == [] && !fetcherAlive
    {
      this.selfId, this.writer := selfId, writer;
      epoch, isLeader, isr, replicas, matchOffsets, pendingAll := 0, false, [], [], map[], [];
      fetcherGeneration, fetcherAlive, leaderSince, hwm, answers := 0, false, 0, 0, [];
    }

    /** Moves the mark up to what every ISR member has, never down, and answers what it has passed. */
    method AdvanceHwm()
      modifies `hwm, `pendingAll, `answers
      ensures !isLeader ==> hwm == old(hwm) && pendingAll == old(pendingAll) && answers == old(answers)
      ensures isLeader ==>
                && hwm == Max(old(hwm), Covered(isr, selfId, matchOffsets, writer.published))
                && answers == old(answers) + Oks(Passed(old(pendingAll), hwm))
                && pendingAll == NotPassed(old(pendingAll), hwm)
                && Lead() == Advanced(old(Lead()), writer.published)
      ensures isLeader && hwm != old(hwm) ==>
                && old(hwm) < hwm <= writer.published
                && forall id :: id in isr && id != selfId ==> id in matchOffsets && hwm <= matchOffsets[id].offset
      ensures isLeader ==>
                || hwm >= writer.published
                || exists id :: id in isr && id != selfId && (id in matchOffsets ==> matchOffsets[id].offset <= hwm)
      ensures isLeader ==> forall w :: w in pendingAll <==> w in old(pendingAll) && w.last >= hwm
    {
      hide Oks, Covered, Passed, NotPassed;
      if !isLeader {
        return;
      }
      var mark := IsrMark();
      CoveredIsLeast(isr, selfId, matchOffsets, writer.published);
      if mark > hwm {
        hwm := mark;
      }
      DrainPendingAll();
      DrainSplits(old(pendingAll), hwm);
    }

    /** The least of the log end and what the other members of the ISR have. */
    method IsrMark() returns (mark: nat)
      ensures mark == Covered(isr, selfId, matchOffsets, writer.published)
    {
      mark := writer.published;
      assert isr[..0] == [];
      for i := 0 to |isr|
        invariant mark == Covered(isr[..i], selfId, matchOffsets, writer.published)
      {
        assert isr[..i + 1][..i] == isr[..i];
        if isr[i] != selfId {
          var matched := if isr[i] in matchOffsets then matchOffsets[isr[i]].offset else 0;
          mark := if matched < mark then matched else mark;
        }
      }
      assert isr[..|isr|] == isr;
    }

    /** Answers every waiting produce that the mark has passed and keeps the others in order. */
    method DrainPendingAll()
      modifies `pendingAll, `answers
      ensures answers == old(answers) + Oks(Passed(old(pendingAll), hwm))
      ensures pendingAll == NotPassed(old(pendingAll), hwm)
    {
      hide Oks, Passed, NotPassed;
      var queue, ready, keep := pendingAll, [], [];
      PassedGrows([], Waiting(0, 0, 0, 0), hwm);
      assert queue[..0] == [];
      for i := 0 to |queue|
        invariant answers == old(answers)
        invariant ready == Passed(queue[..i], hwm) && keep == NotPassed(queue[..i], hwm)
      {
        assert queue[..i + 1] == queue[..i] + [queue[i]];
        PassedGrows(queue[..i], queue[i], hwm);
        if queue[i].last < hwm {
          ready := ready + [queue[i]];
        } else {
          keep := keep + [queue[i]];
        }
      }
      assert queue[..|queue|] == queue;
      pendingAll := keep;
      answers := answers + Oks(ready);
    }

    /** An acks=all batch that the log has taken waits for the mark. */
    method Park(base: nat, count: nat, ticket: nat)
      requires count > 0
      modifies `hwm, `pendingAll, `answers
      ensures var q := old(pendingAll) + [Waiting(base + count - 1, base, count, ticket)];
              if isLeader
              then hwm == Max(old(hwm), Covered(isr, selfId, matchOffsets, writer.published))
                   && answers == old(answers) + Oks(Passed(q, hwm)) && pendingAll == NotPassed(q, hwm)
                   && Lead() == Advanced(old(Lead()).(waiting := q), writer.published)
              else hwm == old(hwm) && answers == old(answers) && pendingAll == q
    {
      hide Oks, Passed, NotPassed, Covered;
      pendingAll := pendingAll + [Waiting(base + count - 1, base, count, ticket)];
      AdvanceHwm();
    }

    /** A produce arrives: it is refused before anything is appended, or its batch goes to the log. For acks=all
        `reply` is what the log says, at once; the other kinds are answered by the partition thread. */
    method StartProduce(batch: seq<ProduceRecord>, clock: seq<i64>, acks: Acks, leaderEpoch: u64, minInsync: nat,
                        ticket: nat)
      returns (refused: Option<ErrorCode>, reply: Option<AppendResult>, ghost count: nat)
      requires writer.Valid() && this !in writer.log.Repr && |clock| == |batch|
      requires writer.log.NextOffset() + |batch| < U64_RANGE && !Used(writer.Parked(), ticket)
      modifies writer, writer.log.Repr
      ensures writer.Valid() && fresh(writer.log.Repr - old(writer.log.Repr))
      ensures refused == if !isLeader then Some(NotLeader)
                         else if leaderEpoch != 0 && leaderEpoch != epoch then Some(FencedEpoch)
                         else if acks == All && |isr| < minInsync then Some(NotEnoughReplicas) else None
      ensures refused.Some? ==> writer.log.records == old(writer.log.records) && writer.Parked() == old(writer.Parked())
      ensures refused.None? ==>
                var rs := Stamped(batch, clock, old(writer.log.NextOffset()));
                StopsAt(rs, count, writer.log.config) && writer.log.records == old(writer.log.records) + rs[..count]
      ensures reply == if refused.Some? || acks != All then None
                       else if count < |batch| then Some(Err(Malformed))
                       else Some(Ok((old(writer.log.NextOffset()), count)))
      ensures writer.asks == if refused.Some? || acks == AcksNone then old(writer.asks)
                             else old(writer.asks)[ticket :=
                                    Asked(if acks == All then Written else acks, old(writer.log.NextOffset()),
                                          Stamped(batch, clock, old(writer.log.NextOffset())),
                                          if count < |batch| then Some(Malformed) else None)]
      ensures refused.None? && old(writer.Kept()) ==> writer.Promises()
    {
      hide Covered, Writer.Valid, Used, Stamped, StopsAt, Drain, AckLedger.Answer, LedgerInv;
      count, reply := 0, None;
      if !isLeader {
        return Some(NotLeader), None, 0;
      }
      if leaderEpoch != 0 && leaderEpoch != epoch {
        return Some(FencedEpoch), None, 0;
      }
      if acks == All && |isr| < minInsync {
        return Some(NotEnoughReplicas), None, 0;
      }
      if acks != All {
        count := writer.Append(batch, clock, acks, if acks == AcksNone then None else Some(ticket));
        return None, None, count;
      }
      var answered := |writer.sent|;
      count := writer.Append(batch, clock, Written, Some(ticket));
      return None, Some(writer.sent[answered].result), count;
    }

    /** The rest of an acks=all produce, whenever the log's reply is in and whatever has become of the role by
        then. A batch that is in the log waits for the mark; nothing else ever waits. */
    method FinishProduce(reply: AppendResult, ticket: nat)
      modifies `hwm, `pendingAll, `answers
      ensures reply.Err? || reply.value.1 == 0 ==>
                hwm == old(hwm) && pendingAll == old(pendingAll) && answers == old(answers) + [Answer(ticket, reply)]
      ensures reply.Ok? && reply.value.1 > 0 ==>
                var w := Waiting(reply.value.0 + reply.value.1 - 1, reply.value.0, reply.value.1, ticket);
                var q := old(pendingAll) + [w];
                if isLeader
                then
                  && Lead() == Advanced(old(Lead()).(waiting := q), writer.published)
                  && answers == old(answers) + Oks(Passed(q, hwm))
                  && (w in pendingAll <==> hwm <= w.last)
                else hwm == old(hwm) && pendingAll == q && answers == old(answers)
    {
      hide Oks, Passed, NotPassed, Covered;
      if reply.Ok? && reply.value.1 > 0 {
        ghost var queue :=
          pendingAll + [Waiting(reply.value.0 + reply.value.1 - 1, reply.value.0, reply.value.1, ticket)];
        Park(reply.value.0, reply.value.1, ticket);
        DrainSplits(queue, hwm);
      } else {
        answers := answers + [Answer(ticket, reply)];
      }
    }

    /** A follower's fetch at `offset` proves that it has everything before. It counts as caught up only when
        it reaches the log end. */
    method ReplicaFetch(follower: u32, leaderEpoch: u64, offset: nat, now: nat) returns (error: ErrorCode)
      modifies `matchOffsets, `hwm, `pendingAll, `answers
      ensures error == if !isLeader then NotLeader else if leaderEpoch != epoch then FencedEpoch else NoError
      ensures error != NoError ==> matchOffsets == old(matchOffsets) && hwm == old(hwm)
                                   && pendingAll == old(pendingAll) && answers == old(answers)
      ensures error == NoError ==>
                && matchOffsets.Keys == old(matchOffsets).Keys + {follower}
                && (forall id :: id in old(matchOffsets) && id != follower ==>
                      matchOffsets[id] == old(matchOffsets)[id])
                && matchOffsets[follower].offset == offset
                && (offset >= writer.published ==> matchOffsets[follower].caughtUp == now)
                && (offset < writer.published ==>
                      matchOffsets[follower].caughtUp ==
                      if follower in old(matchOffsets) then old(matchOffsets)[follower].caughtUp else leaderSince)
                && hwm == Max(old(hwm), Covered(isr, selfId, matchOffsets, writer.published))
                && answers == old(answers) + Oks(Passed(old(pendingAll), hwm))
                && pendingAll == NotPassed(old(pendingAll), hwm)
                && Lead() == Advanced(Noted(old(Lead()), follower, offset, now, writer.published), writer.published)
    {
      hide Oks, Passed, NotPassed, Covered;
      if !isLeader {
        return NotLeader;
      }
      if leaderEpoch != epoch {
        return FencedEpoch;
      }
      var caughtUp := if offset >= writer.published then now
                      else if follower in matchOffsets then matchOffsets[follower].caughtUp else leaderSince;
      matchOffsets := matchOffsets[follower := Progress(offset, caughtUp)];
      AdvanceHwm();
      return NoError;
    }

    /** Applies the partition's metadata: the new role, and whether a fetcher must be started for it. A new leader
        records its epoch at its log end. Produces that wait when the replica stops leading are refused. */
    method ApplyMetadata(p: PartitionMeta, now: nat) returns (transition: bool)
      requires writer.Valid() && this !in writer.log.Repr
      requires writer.log.start == 0 && |writer.log.records| < U64_RANGE
      modifies this, writer.epochs, writer.epochs.store
      ensures writer.Valid() && (old(writer.Consistent()) ==> writer.Consistent())
      ensures Follower.NodeOf(writer) ==
              if transition && isLeader then Follower.Stamped(old(Follower.NodeOf(writer)), p.leaderEpoch)
              else old(Follower.NodeOf(writer))
      ensures var leading := p.leader == selfId;
              var same := old(epoch) == p.leaderEpoch && old(isLeader) == leading;
              && isLeader == leading && epoch == p.leaderEpoch && isr == p.isr
              && replicas == (if same then old(replicas) else p.replicas)
              && transition == (!same || (!leading && !old(fetcherAlive) && p.leader >= 0))
              && fetcherGeneration == old(fetcherGeneration) + (if transition then 1 else 0)
              && fetcherAlive == (if same then old(fetcherAlive) || transition else !leading && p.leader >= 0)
              && (if !same && leading then matchOffsets == map[] && leaderSince == now
                  else matchOffsets == old(matchOffsets) && leaderSince == old(leaderSince))
              && (same && !leading ==> pendingAll == old(pendingAll) && answers == old(answers))
              && (!same && !leading ==>
                    pendingAll == [] && answers == old(answers) + NotLeaders(old(pendingAll)))
      ensures !isLeader ==> hwm == old(hwm)
      ensures isLeader ==>
                && hwm == Max(old(hwm), Covered(isr, selfId, matchOffsets, writer.published))
                && answers == old(answers) + Oks(Passed(old(pendingAll), hwm))
                && pendingAll == NotPassed(old(pendingAll), hwm)
    {
      hide Oks, Passed, NotPassed, Covered, NotLeaders, Writer.Valid, Writer.Parked, Writer.Consistent,
        Follower.Stamped;
      transition := SwitchRole(p, now);
      if transition && isLeader {
        StampEpoch();
      }
      if !transition || isLeader {
        AdvanceHwm();
      }
    }

    /** The part of it that happens under the state lock. */
    method SwitchRole(p: PartitionMeta, now: nat) returns (transition: bool)
      modifies `epoch, `replicas, `isr, `isLeader, `fetcherGeneration, `fetcherAlive, `matchOffsets, `leaderSince,
        `pendingAll, `answers
      ensures var leading := p.leader == selfId;
              var same := old(epoch) == p.leaderEpoch && old(isLeader) == leading;
              && isLeader == leading && epoch == p.leaderEpoch && isr == p.isr
              && replicas == (if same then old(replicas) else p.replicas)
              && transition == (!same || (!leading && !old(fetcherAlive) && p.leader >= 0))
              && fetcherGeneration == old(fetcherGeneration) + (if transition then 1 else 0)
              && fetcherAlive == (if same then old(fetcherAlive) || transition else !leading && p.leader >= 0)
              && (if !same && leading then matchOffsets == map[] && leaderSince == now
                  else matchOffsets == old(matchOffsets) && leaderSince == old(leaderSince))
              && (if !same && !leading then pendingAll == [] && answers == old(answers) + NotLeaders(old(pendingAll))
                  else pendingAll == old(pendingAll) && answers == old(answers))
    {
      hide NotLeaders;
      var leading := p.leader == selfId;
      transition := true;
      if epoch == p.leaderEpoch && isLeader == leading {
        isr := p.isr;
        if !isLeader && !fetcherAlive && p.leader >= 0 {
          fetcherGeneration, fetcherAlive := fetcherGeneration + 1, true;
        } else {
          transition := false;
        }
      } else {
        epoch, replicas, isr, isLeader := p.leaderEpoch, p.replicas, p.isr, leading;
        fetcherGeneration := fetcherGeneration + 1;
        if leading {
          matchOffsets, leaderSince, fetcherAlive := map[], now, false;
        } else {
          answers := answers + NotLeaders(pendingAll);
          pendingAll, fetcherAlive := [], p.leader >= 0;
        }
      }
    }

    /** The leader's epoch starts at its log end. */
    method StampEpoch()
      requires writer.Valid() && writer.log.start == 0 && |writer.log.records| < U64_RANGE
      modifies writer.epochs, writer.epochs.store
      ensures writer.Valid() && (old(writer.Consistent()) ==> writer.Consistent())
      ensures Follower.NodeOf(writer) == Follower.Stamped(old(Follower.NodeOf(writer)), epoch)
    {
      hide Writer.Valid, Writer.Parked, Writer.Consistent;
      EndOfWriter();
      writer.RecordEpoch(epoch);
    }

    lemma EndOfWriter()
      requires writer.Valid()
      ensures writer.published == writer.log.NextOffset() == writer.log.start + |writer.log.records|
    {
      hide Log.Valid, OnceEach;
      writer.EndIs();
    }

    /** The ISR that the leader asks the controller for, if it differs from the present one: itself and the
        followers that caught up within the lag window. What a follower holds plays no part. */
    method ProposeIsr(now: nat, lag: nat) returns (r: Option<seq<u32>>)
      ensures !isLeader ==> r.None?
      ensures isLeader ==> r == Proposal(Lead(), now, lag)
      ensures r.Some? ==> Ascending(r.value) && multiset(r.value) != multiset(isr)
      ensures isLeader ==>
                var wanted := if r.Some? then r.value else isr;
                forall id :: id in wanted <==>
                  (id == selfId
                   || (id in replicas && if id in matchOffsets then now <= matchOffsets[id].caughtUp + lag
                                         else now <= leaderSince + lag))
    {
      hide SortIds;
      if !isLeader {
        return None;
      }
      var desired := [selfId];
      assert replicas[..0] == [];
      for i := 0 to |replicas|
        invariant desired == DesiredIsr(replicas[..i], selfId, matchOffsets, leaderSince, now, lag)
      {
        assert replicas[..i + 1][..i] == replicas[..i];
        var id := replicas[i];
        if id != selfId {
          var caughtUp := if id in matchOffsets then matchOffsets[id].caughtUp else leaderSince;
          if now <= caughtUp + lag {
            desired := desired + [id];
          }
        }
      }
      assert replicas[..|replicas|] == replicas;
      WantedIsRecent(Lead(), now, lag);
      var sorted, current := SortIds(desired), SortIds(isr);
      if sorted == current {
        return None;
      }
      if multiset(desired) == multiset(isr) {
        SortedIsUnique(sorted, current);
      }
      return Some(sorted);
    }

    /** The controller has accepted the proposal that was made in `proposed`. */
    method IsrAccepted(proposed: u64, desired: seq<u32>)
      modifies `isr, `hwm, `pendingAll, `answers
      ensures isr == if isLeader && epoch == proposed then desired else old(isr)
      ensures !isLeader ==> hwm == old(hwm) && pendingAll == old(pendingAll) && answers == old(answers)
      ensures isLeader ==>
                && hwm == Max(old(hwm), Covered(isr, selfId, matchOffsets, writer.published))
                && answers == old(answers) + Oks(Passed(old(pendingAll), hwm))
                && pendingAll == NotPassed(old(pendingAll), hwm)
      ensures isLeader && epoch == proposed ==>
                Lead() == Advanced(old(Lead()).(isr := desired), writer.published)
    {
      hide Oks, Passed, NotPassed, Covered;
      if isLeader && epoch == proposed {
        isr := desired;
      }
      AdvanceHwm();
    }

    /** One attempt at a consumer fetch: None means that nothing at `offset` is committed yet and the caller
        waits for the mark. Otherwise a run of records from `offset`, all of them below the mark. */
    method TryFetch(offset: nat, maxBytes: nat) returns (r: Option<Result<seq<Record>, ErrorCode>>)
      requires writer.Valid()
      ensures offset > writer.published ==> r == Some(Err(OutOfRange))
      ensures offset <= writer.published && offset >= hwm ==> r.None?
      ensures offset <= writer.published && offset < hwm && offset < writer.log.start ==> r == Some(Err(OutOfRange))
      ensures offset < writer.published && offset < hwm && offset >= writer.log.start ==>
                r.Some? && r.value.Ok? && r.value.value != []
      ensures r.Some? && r.value.Ok? ==> CommittedRun(writer.log.records, writer.log.start, offset, hwm, r.value.value)
    {
      hide Log.Valid, OnceEach, IsDirty, ReadResult, Segment.View;
      writer.log.EndIs();
      var logEnd := writer.published;
      if offset > logEnd {
        return Some(Err(OutOfRange));
      }
      if offset >= hwm {
        return None;
      }
      var read := writer.Read(offset, maxBytes);
      if read.Err? {
        return Some(Err(read.error));
      }
      var all := read.value.records;
      if offset < logEnd {
        ResultIsRun(writer.log.State(), all, offset, maxBytes);
      }
      var n := 0;
      while n < |all| && all[n].offset < hwm
        invariant n <= |all|
        invariant forall k {:trigger all[k]} :: 0 <= k < n ==> all[k].offset < hwm
      {
        n := n + 1;
      }
      if n == 0 && offset < logEnd {
        writer.log.OffsetIs(offset - writer.log.start);
      }
      if n > 0 {
        writer.log.OffsetIs(offset - writer.log.start + n - 1);
      }
      FirstOf(writer.log.records, writer.log.start, offset, hwm, all, n);
      return Some(Ok(all[..n]));
    }
  }

  lemma ResultIsRun(s: LogState, out: seq<Record>, offset: nat, max: nat)
    requires ReadResult(s, out, offset, max)
    ensures s.start <= offset && out != [] && offset + |out| <= s.start + |s.records|
    ensures forall k {:trigger out[k]} :: 0 <= k < |out| ==> out[k] == s.records[offset - s.start + k]
  {
    hide IsBoundary, Size, Part;
  }

  lemma FirstOf(records: seq<Record>, start: nat, offset: nat, hwm: nat, all: seq<Record>, n: nat)
    requires start <= offset && n <= |all| && offset + |all| <= start + |records|
    requires forall k {:trigger all[k]} :: 0 <= k < |all| ==> all[k] == records[offset - start + k]
    requires n > 0 ==> all[n - 1].offset == offset + n - 1 < hwm
    ensures CommittedRun(records, start, offset, hwm, all[..n])
  {
    assert all[..n] == records[offset - start..offset - start + n];
  }
}
