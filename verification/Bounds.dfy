/** How much a log has at risk and how large its segments get: the records past the durable offset against the byte
    counter of group commit, and segments against the configured size (src/storage/log.rs). Pure. */
module LogBounds {
  import opened Wrappers
  import opened Bytes
  import opened RecordCodec
  import opened Config
  import opened Layout
  import opened SegmentSpec
  import opened LogSpec
  import opened Truncation

  // ---------------------------------------------------------------- what is not durable

  /** The records past the durable offset. */
  function Unflushed(records: seq<Record>, start: nat, durable: Option<nat>): seq<Record> {
    var k := if durable.None? || durable.value + 1 < start then 0 else durable.value + 1 - start;
    if k <= |records| then records[k..] else []
  }

  /** What the byte counter may be between commands: nothing under a policy that always flushes, below the limit of
      a group commit, anything under one that never flushes. */
  predicate CounterOk(policy: FsyncPolicy, dirty: nat) {
    match policy
    case Always => dirty == 0
    case Batch(maxBytes, _) => dirty == 0 || dirty < maxBytes
    case Os => true
  }

  lemma SizeOfBoth(a: seq<Record>, b: seq<Record>)
    ensures Size(a + b) == Size(a) + Size(b)
  {
    EncodeAllAppend(a, b, x => 0);
  }

  lemma UnflushedGrows(records: seq<Record>, r: Record, start: nat, durable: Option<nat>)
    requires durable.Some? ==> durable.value < start + |records|
    ensures Size(Unflushed(records + [r], start, durable)) == Size(Unflushed(records, start, durable)) + EncodedLen(r)
  {
    hide Size, EncodedLen;
    var k := if durable.None? || durable.value + 1 < start then 0 else durable.value + 1 - start;
    assert (records + [r])[k..] == records[k..] + [r];
    SizeOfBoth(records[k..], [r]);
    EncodeAllOne(r, x => 0);
  }

  /** After a flush of everything nothing is at risk, and after it one record at most. */
  lemma UnflushedAfterFlush(records: seq<Record>, start: nat)
    ensures Unflushed(records, start, LastOffset(start + |records|)) == []
  {
  }

  lemma UnflushedAfterCut(records: seq<Record>, start: nat, durable: Option<nat>, n: nat)
    requires start <= n <= start + |records| && (durable.Some? ==> durable.value < start + |records|)
    ensures Size(Unflushed(records[..n - start], start, OldestFirst(durable, n)))
         <= Size(Unflushed(records, start, durable))
  {
    hide Size;
    var before := Unflushed(records, start, durable);
    var after := Unflushed(records[..n - start], start, OldestFirst(durable, n));
    if after == [] {
      SizeOfNone();
    } else {
      assert before == after + before[|after|..];
      SizeOfBoth(after, before[|after|..]);
    }
  }

  lemma SizeOfNone()
    ensures Size([]) == 0
  {
  }

  /** A crash costs no more than what was not durable: whatever prefix comes back that reaches past the durable offset,
      the bytes of the records that are missing are at most those of the records that were unflushed. */
  lemma LossIsBounded(records: seq<Record>, start: nat, durable: Option<nat>, recovered: seq<Record>)
    requires recovered <= records && (durable.Some? ==> durable.value < start + |recovered|)
    ensures Size(records[|recovered|..]) <= Size(Unflushed(records, start, durable))
  {
    hide Size;
    var all, lost := Unflushed(records, start, durable), records[|recovered|..];
    assert all == all[..|all| - |lost|] + lost;
    SizeOfBoth(all[..|all| - |lost|], lost);
  }

  // ---------------------------------------------------------------- how large segments get

  /** A segment is no larger than configured, unless it holds a single record. */
  predicate SegmentFits(v: SegView, cfg: LogConfig) {
    v.size <= cfg.maxSegmentBytes || v.next == v.base + 1
  }

  ghost predicate AllFit(s: LogState, cfg: LogConfig) {
    SegmentFits(s.active, cfg) && forall b {:trigger s.closed[b]} :: b in s.closed ==> SegmentFits(s.closed[b], cfg)
  }

  lemma EmptySegment(s: LogState, cfg: LogConfig)
    requires Inv(s, cfg) && s.active.size == 0
    ensures s.active.next == s.active.base
  {
    hide Tiled, ClosedStored;
    var all := ActiveHolds(s, cfg);
    SizeBoundsCount(all);
  }

  lemma AppendKeepsFit(s: LogState, t: LogState, r: Record, cfg: LogConfig)
    requires Inv(s, cfg) && Appended(s, t, r, cfg) && AllFit(s, cfg)
    requires s.active.size == 0 || s.active.size + EncodedLen(r) <= cfg.maxSegmentBytes
    ensures AllFit(t, cfg)
  {
    hide Inv, EncodedLen, IndexStep, Encode, EncodeEntries;
    if s.active.size == 0 {
      EmptySegment(s, cfg);
    }
  }

  lemma RollKeepsFit(s: LogState, t: LogState, cfg: LogConfig)
    requires Rolled(s, t) && AllFit(s, cfg)
    ensures AllFit(t, cfg)
  {
  }

  lemma CutKeepsFit(s: LogState, t: LogState, n: nat, target: nat, cfg: LogConfig)
    requires Inv(s, cfg) && KeepsTail(s, n, target) && Cut(s, t, n, target, cfg) && AllFit(s, cfg)
    ensures AllFit(t, cfg)
  {
    hide Inv, Holds, EncodeAll, EncodeEntries, IndexOf, Part, Size;
    var all := TargetPart(s, n, target, cfg);
    var k := n - target;
    assert t.active.size == Size(all[..k]) && t.active.next == target + k;
    CutFits(SegmentAt(s, target), s.logs[target].bytes, all, k, cfg);
  }

  lemma CutFits(v: SegView, bytes: seq<byte>, all: seq<Record>, k: nat, cfg: LogConfig)
    requires Holds(v, bytes, all, cfg) && k <= |all| && SegmentFits(v, cfg)
    ensures Size(all[..k]) <= cfg.maxSegmentBytes || k == 1
  {
    hide EncodeAll, Sound, Run;
    Split(all, k, cfg.crc);
    if v.next == v.base + 1 && k != 1 {
      assert all[..k] == [];
    }
  }
}
