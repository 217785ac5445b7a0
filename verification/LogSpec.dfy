/** What it means for a directory of segments to hold one sequence of records, and why appending, flushing
    and rolling keep it so. Pure: the objects are in Log.dfy. */
module LogSpec {
  import opened Wrappers
  import opened Bytes
  import opened RecordCodec
  import opened Config
  import opened Disk
  import opened Layout
  import opened SegmentSpec
  import opened SegmentFile

  /** A log, as memory and disk see it, together with the sequence of records that it stands for. */
  datatype LogState = LogState(
    start: nat,
    records: seq<Record>,
    closed: map<nat, SegView>,
    active: SegView,
    logs: map<nat, LogFile>,
    indexes: map<nat, seq<byte>>,
    durable: Option<nat>)

  /** The records at offsets `lo` to `hi` of a log that starts at `start`. */
  function Part(records: seq<Record>, start: nat, lo: nat, hi: nat): seq<Record> {
    if start <= lo <= hi <= start + |records| then records[lo - start..hi - start] else []
  }

  /** The closed segments, in order of base, followed by the active one, cover the log without gap. */
  ghost predicate Tiled(start: nat, closed: map<nat, SegView>, base: nat) {
    && (forall b {:trigger InPlace(start, closed, base, b)} :: b in closed ==> InPlace(start, closed, base, b))
    && (forall b, c {:trigger closed[b], closed[c]} :: b in closed && c in closed && b < c ==> closed[b].next <= c)
    && (start == base || start in closed)
  }

  ghost predicate InPlace(start: nat, closed: map<nat, SegView>, base: nat, b: nat)
    requires b in closed
  {
    && closed[b].base == b
    && start <= b < closed[b].next <= base
    && (closed[b].next == base || closed[b].next in closed)
  }

  ghost predicate FullySynced(f: LogFile) {
    f.synced == |f.bytes|
  }

  /** A segment and its two files hold exactly the records `rs`. */
  ghost predicate Stored(rs: seq<Record>, v: SegView, f: LogFile, ix: seq<byte>, cfg: LogConfig) {
    && Holds(v, f.bytes, rs, cfg)
    && ix == EncodeEntries(v.entries)
    && f.synced <= |f.bytes|
  }

  ghost predicate ClosedStored(start: nat, records: seq<Record>, closed: map<nat, SegView>,
                               logs: map<nat, LogFile>, indexes: map<nat, seq<byte>>, cfg: LogConfig) {
    forall b {:trigger closed[b]} :: b in closed ==>
      && b in logs && b in indexes
      && ClosedSegment(start, records, closed[b], logs[b], indexes[b], cfg)
  }

  /** `bytes_since_index` counts from the position of the last index entry. */
  ghost predicate CountsSince(v: SegView) {
    v.since + (if v.entries == [] then 0 else v.entries[|v.entries| - 1].pos) == v.size
  }

  /** A closed segment holds its part of the log, all of it on stable media. */
  ghost predicate ClosedSegment(start: nat, records: seq<Record>, v: SegView, f: LogFile, ix: seq<byte>,
                                cfg: LogConfig) {
    && start <= v.base <= v.next <= start + |records|
    && Stored(Part(records, start, v.base, v.next), v, f, ix, cfg)
    && FullySynced(f) && CountsSince(v)
  }

  /** The active segment's index is the one that appends, or a rebuild, would leave. */
  ghost predicate ActiveStored(rs: seq<Record>, v: SegView, f: LogFile, ix: seq<byte>, cfg: LogConfig) {
    && Stored(rs, v, f, ix, cfg)
    && IndexOf(rs, cfg.indexIntervalBytes) == Indexed(v.entries, v.since)
  }

  /** Every byte of the active segment's records up to the durable offset is on stable media. */
  ghost predicate DurableIsSynced(durable: Option<nat>, base: nat, rs: seq<Record>, synced: nat) {
    durable.Some? ==>
      && durable.value < base + |rs|
      && (durable.value >= base ==> Pos(rs, durable.value + 1 - base) <= synced)
  }

  /** The records of the active segment. */
  function ActivePart(s: LogState): seq<Record> {
    Part(s.records, s.start, s.active.base, s.start + |s.records|)
  }

  ghost predicate FilesMatch(s: LogState) {
    s.logs.Keys == s.indexes.Keys == s.closed.Keys + {s.active.base}
  }

  ghost predicate ActiveInv(s: LogState, cfg: LogConfig)
    requires s.active.base in s.logs && s.active.base in s.indexes
  {
    && ActiveStored(ActivePart(s), s.active, s.logs[s.active.base], s.indexes[s.active.base], cfg)
    && DurableIsSynced(s.durable, s.active.base, ActivePart(s), s.logs[s.active.base].synced)
  }

  ghost predicate Inv(s: LogState, cfg: LogConfig) {
    && Validate(cfg)
    && s.start <= s.active.base <= s.active.next == s.start + |s.records|
    && s.active.base !in s.closed
    && Tiled(s.start, s.closed, s.active.base)
    && FilesMatch(s)
    && ClosedStored(s.start, s.records, s.closed, s.logs, s.indexes, cfg)
    && ActiveInv(s, cfg)
  }

  // ---------------------------------------------------------------- append

  /** `t` is `s` after the active segment has taken the record. */
  ghost predicate Appended(s: LogState, t: LogState, r: Record, cfg: LogConfig) {
    && s.active.base in s.logs && r.offset == s.active.next >= s.active.base
    && t.start == s.start && t.records == s.records + [r] && t.closed == s.closed && t.durable == s.durable
    && t.active == ViewAfterAppend(s.active, r, cfg)
    && t.logs == s.logs[s.active.base :=
         LogFile(s.logs[s.active.base].bytes + Encode(r, cfg.crc), s.logs[s.active.base].synced)]
    && t.indexes == s.indexes[s.active.base := EncodeEntries(t.active.entries)]
  }

  lemma ViewAfterAppendBase(v: SegView, r: Record, cfg: LogConfig)
    requires v.base <= r.offset
    ensures var w := ViewAfterAppend(v, r, cfg);
            w.base == v.base && w.next == v.next + 1 && w.size == v.size + EncodedLen(r)
  {
    hide IndexStep, EncodedLen;
  }

  lemma PartGrows(records: seq<Record>, more: seq<Record>, start: nat, lo: nat, hi: nat)
    requires start <= lo <= hi <= start + |records|
    ensures Part(records + more, start, lo, hi) == Part(records, start, lo, hi)
  {
  }

  lemma RunExtends(rs: seq<Record>, base: nat, r: Record, cfg: LogConfig)
    requires Run(rs, base, cfg) && r.offset == base + |rs| && Fits(r, cfg)
    ensures Run(rs + [r], base, cfg)
  {
  }

  /** One more record at the end of a good segment leaves a good segment. */
  lemma HoldsAfterAppend(v: SegView, bytes: seq<byte>, rs: seq<Record>, r: Record, cfg: LogConfig)
    requires Validate(cfg) && Holds(v, bytes, rs, cfg)
    requires IndexOf(rs, cfg.indexIntervalBytes) == Indexed(v.entries, v.since)
    requires r.offset == v.next && Fits(r, cfg) && v.size + EncodedLen(r) <= ONE_GIB
    ensures var w := ViewAfterAppend(v, r, cfg);
            && Holds(w, bytes + Encode(r, cfg.crc), rs + [r], cfg)
            && IndexOf(rs + [r], cfg.indexIntervalBytes) == Indexed(w.entries, w.since)
  {
    hide Encode, EncodedLen, Sound, IndexOf, Size, EncodeAll, Run;
    RunExtends(rs, v.base, r, cfg);
    IndexGrows(rs, r, cfg.indexIntervalBytes);
    EncodeAllAppend(rs, [r], cfg.crc);
    EncodeAllOne(r, cfg.crc);
    IndexIsSound(rs + [r], cfg.indexIntervalBytes, cfg.crc);
  }

  lemma ActiveStoredAfterAppend(v: SegView, f: LogFile, ix: seq<byte>, rs: seq<Record>, r: Record, cfg: LogConfig)
    requires Validate(cfg) && ActiveStored(rs, v, f, ix, cfg)
    requires r.offset == v.next && Fits(r, cfg) && v.size + EncodedLen(r) <= ONE_GIB
    ensures var w := ViewAfterAppend(v, r, cfg);
            ActiveStored(rs + [r], w, LogFile(f.bytes + Encode(r, cfg.crc), f.synced), EncodeEntries(w.entries), cfg)
  {
    hide Encode, EncodedLen, IndexOf, Holds, ViewAfterAppend, EncodeEntries;
    HoldsAfterAppend(v, f.bytes, rs, r, cfg);
  }

  lemma DurableAfterAppend(durable: Option<nat>, base: nat, rs: seq<Record>, r: Record, synced: nat)
    requires DurableIsSynced(durable, base, rs, synced)
    ensures DurableIsSynced(durable, base, rs + [r], synced)
  {
    hide Size;
    if durable.Some? && durable.value >= base {
      var n := durable.value + 1 - base;
      assert (rs + [r])[..n] == rs[..n];
    }
  }

  lemma ClosedSegmentAfterAppend(start: nat, records: seq<Record>, r: Record, v: SegView, f: LogFile, ix: seq<byte>,
                                 cfg: LogConfig)
    requires ClosedSegment(start, records, v, f, ix, cfg)
    ensures ClosedSegment(start, records + [r], v, f, ix, cfg)
  {
    hide Stored;
    PartGrows(records, [r], start, v.base, v.next);
  }

  lemma ClosedAfterAppend(s: LogState, t: LogState, r: Record, cfg: LogConfig)
    requires ClosedStored(s.start, s.records, s.closed, s.logs, s.indexes, cfg)
    requires Appended(s, t, r, cfg) && s.active.base !in s.closed
    ensures ClosedStored(t.start, t.records, t.closed, t.logs, t.indexes, cfg)
  {
    hide ClosedSegment, ViewAfterAppend, Encode, EncodeEntries;
    forall b | b in t.closed
      ensures b in t.logs && b in t.indexes
      ensures ClosedSegment(t.start, t.records, t.closed[b], t.logs[b], t.indexes[b], cfg)
    {
      ClosedSegmentAfterAppend(s.start, s.records, r, s.closed[b], s.logs[b], s.indexes[b], cfg);
    }
  }

  lemma ActivePartAfterAppend(s: LogState, t: LogState, r: Record, cfg: LogConfig)
    requires Appended(s, t, r, cfg) && s.start <= s.active.base <= s.start + |s.records|
    ensures ActivePart(t) == ActivePart(s) + [r] && t.active.base == s.active.base
    ensures t.active.next == s.active.next + 1
  {
    ViewAfterAppendBase(s.active, r, cfg);
    hide ViewAfterAppend, Encode, EncodeEntries;
    assert t.active.base == s.active.base && t.records == s.records + [r];
    PartEnds(s.records, r, s.start, s.active.base);
  }

  lemma PartEnds(records: seq<Record>, r: Record, start: nat, lo: nat)
    requires start <= lo <= start + |records|
    ensures Part(records + [r], start, lo, start + |records| + 1) == Part(records, start, lo, start + |records|) + [r]
  {
  }

  lemma ActiveAfterAppend(s: LogState, t: LogState, r: Record, cfg: LogConfig)
    requires Validate(cfg) && s.start <= s.active.base <= s.active.next == s.start + |s.records|
    requires s.active.base in s.logs && s.active.base in s.indexes && ActiveInv(s, cfg)
    requires Appended(s, t, r, cfg) && Fits(r, cfg) && s.active.size + EncodedLen(r) <= ONE_GIB
    ensures t.active.base in t.logs && t.active.base in t.indexes && ActiveInv(t, cfg)
  {
    ActivePartAfterAppend(s, t, r, cfg);
    hide ActivePart, ActiveStored, DurableIsSynced, ViewAfterAppend, Encode, EncodeEntries, EncodedLen;
    ActiveStoredAfterAppend(s.active, s.logs[s.active.base], s.indexes[s.active.base], ActivePart(s), r, cfg);
    DurableAfterAppend(s.durable, s.active.base, ActivePart(s), r, s.logs[s.active.base].synced);
  }

  lemma FilesAfterAppend(s: LogState, t: LogState, r: Record, cfg: LogConfig)
    requires Appended(s, t, r, cfg) && FilesMatch(s) && s.start <= s.active.base <= s.start + |s.records|
    ensures FilesMatch(t)
  {
    ActivePartAfterAppend(s, t, r, cfg);
    hide ViewAfterAppend, Encode, EncodeEntries;
  }

  lemma AppendKeepsInv(s: LogState, t: LogState, r: Record, cfg: LogConfig)
    requires Inv(s, cfg) && Appended(s, t, r, cfg) && Fits(r, cfg)
    requires s.active.size + EncodedLen(r) <= ONE_GIB
    ensures Inv(t, cfg)
  {
    hide Tiled, ClosedStored, ActiveInv, FilesMatch, ViewAfterAppend, Encode, EncodeEntries, EncodedLen;
    FilesHaveActive(s);
    ClosedAfterAppend(s, t, r, cfg);
    ActivePartAfterAppend(s, t, r, cfg);
    ActiveAfterAppend(s, t, r, cfg);
    FilesAfterAppend(s, t, r, cfg);
  }

  lemma FilesHaveActive(s: LogState)
    requires FilesMatch(s)
    ensures s.active.base in s.logs && s.active.base in s.indexes
  {
  }

  // ---------------------------------------------------------------- flush and roll

  function LastOffset(next: nat): Option<nat> {
    if next == 0 then None else Some(next - 1)
  }

  function SyncAll(f: LogFile): LogFile {
    LogFile(f.bytes, |f.bytes|)
  }

  /** `t` is `s` after an fsync of the active file. */
  ghost predicate Flushed(s: LogState, t: LogState) {
    && s.active.base in s.logs
    && t == s.(logs := s.logs[s.active.base := SyncAll(s.logs[s.active.base])], durable := LastOffset(s.active.next))
  }

  /** A good file is as long as the records it holds. */
  lemma StoredLength(rs: seq<Record>, v: SegView, f: LogFile, ix: seq<byte>, cfg: LogConfig)
    requires Stored(rs, v, f, ix, cfg)
    ensures |rs| == v.next - v.base && Pos(rs, |rs|) == |f.bytes| == v.size == Size(rs)
  {
    hide Run, Sound, EncodeEntries;
    assert rs[..|rs|] == rs;
  }

  lemma ActiveAfterFlush(s: LogState, t: LogState, cfg: LogConfig)
    requires s.active.base in s.logs && s.active.base in s.indexes && ActiveInv(s, cfg) && Flushed(s, t)
    ensures ActiveInv(t, cfg) && FullySynced(t.logs[t.active.base])
  {
    hide Holds, IndexOf, EncodeEntries, ActivePart;
    StoredLength(ActivePart(s), s.active, s.logs[s.active.base], s.indexes[s.active.base], cfg);
    assert ActivePart(t) == ActivePart(s) by { ActivePartIgnoresFiles(s, t); }
  }

  lemma ActivePartIgnoresFiles(s: LogState, t: LogState)
    requires t.records == s.records && t.start == s.start && t.active.base == s.active.base
    ensures ActivePart(t) == ActivePart(s)
  {
  }

  lemma ClosedIgnoresActiveFile(s: LogState, f: LogFile, cfg: LogConfig)
    requires ClosedStored(s.start, s.records, s.closed, s.logs, s.indexes, cfg) && s.active.base !in s.closed
    ensures ClosedStored(s.start, s.records, s.closed, s.logs[s.active.base := f], s.indexes, cfg)
  {
    hide ClosedSegment;
  }

  lemma FlushKeepsInv(s: LogState, t: LogState, cfg: LogConfig)
    requires Inv(s, cfg) && Flushed(s, t)
    ensures Inv(t, cfg) && FullySynced(t.logs[t.active.base])
  {
    hide Tiled, ClosedStored, ActiveInv;
    FilesHaveActive(s);
    ActiveAfterFlush(s, t, cfg);
    ClosedIgnoresActiveFile(s, SyncAll(s.logs[s.active.base]), cfg);
  }

  /** `t` is `s` after its active segment has been closed and a new one opened at the end of the log. */
  ghost predicate Rolled(s: LogState, t: LogState) {
    && s.active.base in s.logs
    && t == s.(closed := s.closed[s.active.base := s.active],
               active := SegView(s.active.next, s.active.next, 0, 0, []),
               logs := s.logs[s.active.next := LogFile([], 0)],
               indexes := s.indexes[s.active.next := []])
  }

  lemma TiledAfterRoll(start: nat, closed: map<nat, SegView>, v: SegView)
    requires Tiled(start, closed, v.base) && start <= v.base < v.next && v.base !in closed
    ensures v.next !in closed
    ensures Tiled(start, closed[v.base := v], v.next)
  {
    var longer := closed[v.base := v];
    assert v.next in closed ==> InPlace(start, closed, v.base, v.next);
    forall b | b in longer ensures InPlace(start, longer, v.next, b) {
      assert b in closed ==> InPlace(start, closed, v.base, b);
    }
    forall b, c | b in longer && c in longer && b < c ensures longer[b].next <= c {
      assert b in closed ==> InPlace(start, closed, v.base, b);
      assert c in closed ==> InPlace(start, closed, v.base, c);
    }
  }

  lemma EmptySegmentStored(base: nat, cfg: LogConfig)
    ensures ActiveStored([], SegView(base, base, 0, 0, []), LogFile([], 0), [], cfg)
  {
  }

  lemma ClosedAfterRoll(s: LogState, t: LogState, cfg: LogConfig)
    requires ClosedStored(s.start, s.records, s.closed, s.logs, s.indexes, cfg)
    requires Rolled(s, t) && s.active.next !in s.closed && s.active.base != s.active.next
    requires s.active.base in s.indexes
    requires ClosedSegment(s.start, s.records, s.active, s.logs[s.active.base], s.indexes[s.active.base], cfg)
    ensures ClosedStored(t.start, t.records, t.closed, t.logs, t.indexes, cfg)
  {
    hide ClosedSegment;
  }

  lemma FilesAfterRoll(s: LogState, t: LogState)
    requires FilesMatch(s) && Rolled(s, t)
    ensures FilesMatch(t)
  {
  }

  ghost predicate Counts(x: Indexed, size: nat) {
    x.since + (if x.entries == [] then 0 else x.entries[|x.entries| - 1].pos) == size
  }

  lemma {:induction false} IndexCounts(rs: seq<Record>, interval: nat)
    requires Size(rs) < U32_RANGE
    ensures Counts(IndexOf(rs, interval), Size(rs))
    decreases |rs|
  {
    hide EncodedLen, Size, Counts, IndexStep, IndexOf;
    if rs == [] {
      CountsNothing(rs);
    } else {
      var init, last := rs[..|rs| - 1], rs[|rs| - 1];
      assert rs == init + [last];
      IndexGrows(init, last, interval);
      IndexCounts(init, interval);
      StepCounts(IndexOf(init, interval), |init|, Size(init), EncodedLen(last), interval);
    }
  }

  /** How far a scan starts from the record that it looks for. */
  function ScanStartsAt(entries: seq<Entry>, i: nat): nat {
    match Lookup(entries, i)
    case None => 0
    case Some(e) => e.pos
  }

  /** The index is dense enough: from the entry that a lookup finds, or from the start of the file, a scan passes fewer
      than `interval` and one longest record's bytes before it reaches the record. */
  lemma {:induction false} ScanIsShort(rs: seq<Record>, interval: nat, longest: nat, i: nat, crc: Checksum)
    requires Size(rs) < U32_RANGE && i <= |rs| && interval > 0
    requires forall k {:trigger rs[k]} :: 0 <= k < |rs| ==> EncodedLen(rs[k]) <= longest
    ensures ScanStartsAt(IndexOf(rs, interval).entries, i) <= Pos(rs, i)
         < ScanStartsAt(IndexOf(rs, interval).entries, i) + interval + longest
    decreases |rs|
  {
    hide EncodedLen, Size, Sound, Counts, IndexStep, IndexOf, Lookup, Pos, ScanStartsAt;
    if i == |rs| {
      IndexIsSound(rs, interval, crc);
      SinceIsShort(rs, interval, longest);
      IndexCounts(rs, interval);
      ScanFromLast(IndexOf(rs, interval), rs);
      WholePos(rs);
    } else {
      var n := |rs| - 1;
      var init, last := rs[..n], rs[n];
      assert rs == init + [last];
      IndexGrows(init, last, interval);
      assert forall k {:trigger init[k]} :: 0 <= k < n ==> init[k] == rs[k];
      ScanIsShort(init, interval, longest, i, crc);
      PosOfPrefix(rs, n, i);
      SizeBoundsCount(init);
      LastEntryIsLater(IndexOf(init, interval), n, Size(init), EncodedLen(last), interval, i);
      if i == n {
        WholePos(init);
        LongerThanNothing(last);
      }
    }
  }

  lemma WholePos(rs: seq<Record>)
    ensures Pos(rs, |rs|) == Size(rs)
  {
    assert rs[..|rs|] == rs;
  }

  lemma LongerThanNothing(r: Record)
    ensures EncodedLen(r) > 0
  {
  }

  /** An entry that the last record adds is found for that record alone. */
  lemma LastEntryIsLater(was: Indexed, n: nat, pos: nat, len: nat, interval: nat, i: nat)
    requires i <= n < U32_RANGE && pos < U32_RANGE
    ensures var entries := IndexStep(was, n, pos, len, interval).entries;
            || ScanStartsAt(entries, i) == ScanStartsAt(was.entries, i)
            || (i == n && ScanStartsAt(entries, i) == pos)
  {
    var x := IndexStep(was, n, pos, len, interval);
    if x.entries != was.entries {
      assert x.entries[..|x.entries| - 1] == was.entries;
    }
  }

  lemma {:induction false} SinceIsShort(rs: seq<Record>, interval: nat, longest: nat)
    requires interval > 0 && forall k {:trigger rs[k]} :: 0 <= k < |rs| ==> EncodedLen(rs[k]) <= longest
    ensures IndexOf(rs, interval).since < interval + longest
    decreases |rs|
  {
    hide EncodedLen, Size;
    if rs != [] {
      SinceIsShort(rs[..|rs| - 1], interval, longest);
    }
  }

  /** At the end of the file a lookup finds the last entry. */
  lemma ScanFromLast(x: Indexed, rs: seq<Record>)
    requires Sound(x.entries, rs) && Counts(x, Size(rs))
    ensures ScanStartsAt(x.entries, |rs|) + x.since == Size(rs)
  {
    hide Size, Sorted, Pos;
    if x.entries != [] {
      LastIsFound(x.entries, |rs|);
    }
  }

  lemma LastIsFound(entries: seq<Entry>, target: nat)
    requires entries != [] && entries[|entries| - 1].rel <= target
    ensures Lookup(entries, target) == Some(entries[|entries| - 1])
  {
  }

  lemma CountsNothing(rs: seq<Record>)
    requires rs == []
    ensures forall i: nat :: Counts(IndexOf(rs, i), Size(rs))
  {
  }

  lemma StepCounts(x: Indexed, rel: nat, pos: nat, len: nat, interval: nat)
    requires Counts(x, pos) && pos < U32_RANGE
    ensures Counts(IndexStep(x, rel, pos, len, interval), pos + len)
  {
  }

  lemma ActiveCountsSince(rs: seq<Record>, v: SegView, f: LogFile, ix: seq<byte>, cfg: LogConfig)
    requires ActiveStored(rs, v, f, ix, cfg)
    ensures CountsSince(v)
  {
    hide Size, IndexOf, EncodeEntries, Sound, Run;
    IndexCounts(rs, cfg.indexIntervalBytes);
  }

  lemma ActiveIsClosable(s: LogState, cfg: LogConfig)
    requires s.start <= s.active.base <= s.active.next == s.start + |s.records|
    requires s.active.base in s.logs && s.active.base in s.indexes && ActiveInv(s, cfg)
    requires FullySynced(s.logs[s.active.base])
    ensures ClosedSegment(s.start, s.records, s.active, s.logs[s.active.base], s.indexes[s.active.base], cfg)
    ensures s.active.size > 0 ==> s.active.base < s.active.next
  {
    hide Holds, IndexOf, EncodeEntries, CountsSince;
    var f, ix := s.logs[s.active.base], s.indexes[s.active.base];
    ActiveCountsSince(ActivePart(s), s.active, f, ix, cfg);
    StoredLength(ActivePart(s), s.active, f, ix, cfg);
  }

  lemma ActiveAfterRoll(s: LogState, t: LogState, cfg: LogConfig)
    requires s.start <= s.active.next == s.start + |s.records| && Rolled(s, t)
    requires s.durable == LastOffset(s.active.next)
    ensures t.active.base in t.logs && t.active.base in t.indexes && ActiveInv(t, cfg)
  {
    hide ActiveStored;
    EmptySegmentStored(s.active.next, cfg);
    assert ActivePart(t) == [];
  }

  lemma RollKeepsInv(s: LogState, t: LogState, cfg: LogConfig)
    requires Inv(s, cfg) && Rolled(s, t)
    requires s.active.size > 0 && FullySynced(s.logs[s.active.base]) && s.durable == LastOffset(s.active.next)
    ensures s.active.next !in s.logs && Inv(t, cfg)
  {
    hide Tiled, ClosedStored, ClosedSegment, ActiveInv;
    FilesHaveActive(s);
    ActiveIsClosable(s, cfg);
    TiledAfterRoll(s.start, s.closed, s.active);
    ClosedAfterRoll(s, t, cfg);
    ActiveAfterRoll(s, t, cfg);
    FilesAfterRoll(s, t);
  }
}
