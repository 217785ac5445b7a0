/** Recovering the files of a good log, torn or whole, and cutting a log's tail. Pure. */
module Truncation {
  import opened Wrappers
  import opened Bytes
  import opened RecordCodec
  import opened Config
  import opened Disk
  import opened Layout
  import opened SegmentSpec
  import opened SegmentFile
  import opened LogSpec

  // ---------------------------------------------------------------- recovering one segment

  /** The segment that a full scan of the records gives. */
  function Rebuilt(base: nat, rs: seq<Record>, cfg: LogConfig): SegView {
    var x := IndexOf(rs, cfg.indexIntervalBytes);
    SegView(base, base + |rs|, Size(rs), x.since, x.entries)
  }

  lemma RebuiltIsStored(base: nat, rs: seq<Record>, synced: nat, cfg: LogConfig)
    requires Validate(cfg) && Run(rs, base, cfg) && Size(rs) <= ONE_GIB && synced <= Size(rs)
    ensures var v := Rebuilt(base, rs, cfg);
            ActiveStored(rs, v, LogFile(EncodeAll(rs, cfg.crc), synced), EncodeEntries(v.entries), cfg)
  {
    hide Sound, EncodeEntries, EncodeAll, IndexOf, Size, Run;
    IndexIsSound(rs, cfg.indexIntervalBytes, cfg.crc);
  }

  /** The newest segment, torn anywhere: every whole record is kept, nothing else is. */
  lemma RecoverTorn(base: nat, rs: seq<Record>, n: nat, idx: Option<seq<byte>>, cfg: LogConfig)
    requires Validate(cfg) && Run(rs, base, cfg) && n <= Size(rs)
    ensures Recovered(base, EncodeAll(rs, cfg.crc)[..n], idx, cfg, true)
            == Ok(Rebuilt(base, rs[..WholeCount(rs, n)], cfg))
  {
    hide ScanFrom, EncodeAll, Size, IndexOf, Run, WholeCount;
    ScanTorn(rs, base, n, cfg);
    var bytes := EncodeAll(rs, cfg.crc)[..n];
    assert bytes[0..] == bytes;
    assert StartOf(idx, true) == ScanStart([], 0, 0, true);
  }

  /** A closed segment under an index that has lost any entries, or all of them, or cannot be read. */
  lemma RecoverClosed(base: nat, rs: seq<Record>, idx: Option<seq<byte>>, cfg: LogConfig)
    requires Validate(cfg) && Run(rs, base, cfg) && Size(rs) <= ONE_GIB
    requires idx.Some? && ParseEntries(idx.value).Some? ==> Sound(ParseEntries(idx.value).value, rs)
    ensures var o := Recovered(base, EncodeAll(rs, cfg.crc), idx, cfg, false);
            o.Ok? && o.value.base == base && Holds(o.value, EncodeAll(rs, cfg.crc), rs, cfg) && CountsSince(o.value)
  {
    hide CountsSince, ScanFrom, EncodeAll, Size, IndexOf, Run, Sound, ParseEntries;
    var st := StartOf(idx, false);
    var i := ScanStartIsRecord(rs, idx);
    Split(rs, i, cfg.crc);
    SuffixRun(rs, base, i, cfg);
    ScanWhole(rs[i..], base + i, cfg);
    if st.rebuild {
      assert rs[i..] == rs;
      IndexIsSound(rs, cfg.indexIntervalBytes, cfg.crc);
      IndexCountsSince(base, rs, cfg);
    } else {
      LoadedCountsSince(st, base, base + |rs|, Size(rs[i..]));
    }
  }

  lemma LoadedCountsSince(st: ScanStart, base: nat, next: nat, consumed: nat)
    requires if st.entries == [] then st.pos == 0 else st.pos == st.entries[|st.entries| - 1].pos
    ensures CountsSince(SegView(base, next, st.pos + consumed, consumed, st.entries))
  {
  }

  lemma IndexCountsSince(base: nat, rs: seq<Record>, cfg: LogConfig)
    requires Size(rs) < U32_RANGE
    ensures CountsSince(Rebuilt(base, rs, cfg))
  {
    hide Size, IndexOf;
    IndexCounts(rs, cfg.indexIntervalBytes);
  }

  /** A closed segment, once recovered, is recovered to the very same fields again. */
  lemma RecoverClosedAgain(v: SegView, rs: seq<Record>, cfg: LogConfig)
    requires Validate(cfg) && Holds(v, EncodeAll(rs, cfg.crc), rs, cfg) && CountsSince(v)
    ensures Recovered(v.base, EncodeAll(rs, cfg.crc), Some(EncodeEntries(v.entries)), cfg, false) == Ok(v)
  {
    hide ScanFrom, EncodeAll, Size, IndexOf, Run, Sound, ParseEntries, EncodeEntries;
    SoundIsSorted(v.entries, rs);
    ParseEncodeEntries(v.entries);
    var idx := Some(EncodeEntries(v.entries));
    var st := StartOf(idx, false);
    var i := ScanStartIsRecord(rs, idx);
    Split(rs, i, cfg.crc);
    SuffixRun(rs, v.base, i, cfg);
    ScanWhole(rs[i..], v.base + i, cfg);
  }

  lemma SoundIsSorted(entries: seq<Entry>, rs: seq<Record>)
    requires Sound(entries, rs)
    ensures Sorted(entries)
  {
  }

  lemma ScanStartIsRecord(rs: seq<Record>, idx: Option<seq<byte>>) returns (i: nat)
    requires idx.Some? && ParseEntries(idx.value).Some? ==> Sound(ParseEntries(idx.value).value, rs)
    ensures var st := StartOf(idx, false);
            && i <= |rs| && st.rel == i && st.pos == Pos(rs, i) && Sound(st.entries, rs)
            && (st.rebuild ==> i == 0)
  {
    hide ParseEntries;
    i := StartOf(idx, false).rel;
    NoRecordsNoBytes(rs);
  }

  // ---------------------------------------------------------------- cutting the tail

  function OldestFirst(durable: Option<nat>, n: nat): Option<nat> {
    if durable.Some? && n > 0 then Some(if durable.value < n - 1 then durable.value else n - 1) else None
  }

  /** The segment whose base is `base`. */
  function SegmentAt(s: LogState, base: nat): SegView
    requires base == s.active.base || base in s.closed
  {
    if base == s.active.base then s.active else s.closed[base]
  }

  /** `target` is the segment that keeps the tail of a log cut at `n`: the one that covers `n - 1`, or the
      first when nothing is kept. */
  ghost predicate KeepsTail(s: LogState, n: nat, target: nat) {
    && (target == s.active.base || target in s.closed)
    && target <= n <= SegmentAt(s, target).next
    && (target == n ==> target == s.start)
  }

  /** The entries of a map below a key. */
  function Below<T>(m: map<nat, T>, bound: nat): (r: map<nat, T>)
    ensures forall b {:trigger b in r} :: b in r <==> b in m && b < bound
    ensures forall b {:trigger r[b]} :: b in r ==> r[b] == m[b]
  {
    map b | b in m && b < bound :: m[b]
  }

  /** `t` is `s` cut at offset `n`, with segment `target` recovered and active. */
  ghost predicate Cut(s: LogState, t: LogState, n: nat, target: nat, cfg: LogConfig) {
    && s.start <= n <= s.start + |s.records|
    && t.start == s.start && t.records == s.records[..n - s.start]
    && t.closed == Below(s.closed, target)
    && t.durable == OldestFirst(s.durable, n)
    && var rs := Part(s.records, s.start, target, n);
       && t.active == Rebuilt(target, rs, cfg)
       && t.logs == Below(s.logs, target)[target := LogFile(EncodeAll(rs, cfg.crc), Size(rs))]
       && t.indexes == Below(s.indexes, target)[target := EncodeEntries(t.active.entries)]
  }

  lemma TiledAfterCut(s: LogState, target: nat)
    requires Tiled(s.start, s.closed, s.active.base) && s.active.base !in s.closed
    requires target == s.active.base || target in s.closed
    ensures Tiled(s.start, Below(s.closed, target), target)
    ensures s.start <= target
  {
    hide Below;
    var closed := Below(s.closed, target);
    assert target in s.closed ==> InPlace(s.start, s.closed, s.active.base, target);
    assert s.start in s.closed ==> InPlace(s.start, s.closed, s.active.base, s.start);
    forall b | b in closed ensures InPlace(s.start, closed, target, b) {
      assert InPlace(s.start, s.closed, s.active.base, b);
      assert target in s.closed ==> s.closed[b].next <= target;
    }
  }

  lemma NextBelow(s: LogState, target: nat, b: nat)
    requires Tiled(s.start, s.closed, s.active.base)
    requires target == s.active.base || target in s.closed
    requires b in s.closed && b < target
    ensures s.closed[b].next <= target
  {
    assert InPlace(s.start, s.closed, s.active.base, b);
  }

  lemma ClosedAfterCut(s: LogState, t: LogState, n: nat, target: nat, cfg: LogConfig)
    requires Tiled(s.start, s.closed, s.active.base)
    requires ClosedStored(s.start, s.records, s.closed, s.logs, s.indexes, cfg)
    requires Cut(s, t, n, target, cfg) && KeepsTail(s, n, target)
    ensures ClosedStored(t.start, t.records, t.closed, t.logs, t.indexes, cfg)
  {
    hide ClosedSegment, Rebuilt, EncodeAll, EncodeEntries, Size, Tiled, Below, Part;
    forall b | b in t.closed
      ensures b in t.logs && b in t.indexes
      ensures ClosedSegment(t.start, t.records, t.closed[b], t.logs[b], t.indexes[b], cfg)
    {
      NextBelow(s, target, b);
      ClosedSegmentAfterCut(s.start, s.records, n, s.closed[b], s.logs[b], s.indexes[b], cfg);
    }
  }

  lemma ClosedSegmentAfterCut(start: nat, records: seq<Record>, n: nat, v: SegView, f: LogFile, ix: seq<byte>,
                              cfg: LogConfig)
    requires ClosedSegment(start, records, v, f, ix, cfg) && v.next <= n <= start + |records|
    ensures ClosedSegment(start, records[..n - start], v, f, ix, cfg)
  {
    hide Stored;
    assert Part(records[..n - start], start, v.base, v.next) == Part(records, start, v.base, v.next);
  }

  /** What the target segment holds, and how much of it survives the cut. */
  lemma TargetPart(s: LogState, n: nat, target: nat, cfg: LogConfig) returns (all: seq<Record>)
    requires Inv(s, cfg) && KeepsTail(s, n, target)
    ensures s.start <= target <= n <= s.start + |s.records|
    ensures target in s.logs && target in s.indexes
    ensures Holds(SegmentAt(s, target), s.logs[target].bytes, all, cfg) && SegmentAt(s, target).base == target
    ensures n - target <= |all| && Part(s.records, s.start, target, n) == all[..n - target]
    ensures SegmentAt(s, target).next <= s.start + |s.records|
  {
    hide Holds, EncodeEntries, IndexOf, ClosedStored, ActiveInv, Tiled, Part, ClosedSegment, DurableIsSynced;
    var v := SegmentAt(s, target);
    if target == s.active.base {
      FilesHaveActive(s);
      all := ActiveHolds(s, cfg);
    } else {
      all := ClosedHolds(s, target, cfg);
    }
    HoldsLength(v, s.logs[target].bytes, all, cfg);
    PartPrefix(s.records, s.start, target, v.next, n);
  }

  lemma HoldsLength(v: SegView, bytes: seq<byte>, rs: seq<Record>, cfg: LogConfig)
    requires Holds(v, bytes, rs, cfg)
    ensures v.next == v.base + |rs|
  {
  }

  lemma PartPrefix(records: seq<Record>, start: nat, lo: nat, hi: nat, n: nat)
    requires start <= lo <= n <= hi <= start + |records|
    ensures Part(records, start, lo, n) == Part(records, start, lo, hi)[..n - lo]
  {
  }

  lemma ActiveHolds(s: LogState, cfg: LogConfig) returns (all: seq<Record>)
    requires Inv(s, cfg)
    ensures s.start <= s.active.base && s.active.base in s.logs
    ensures all == Part(s.records, s.start, s.active.base, s.active.next)
    ensures Holds(s.active, s.logs[s.active.base].bytes, all, cfg)
  {
    hide Holds, ClosedStored, Tiled, FilesMatch, ActiveInv;
    FilesHaveActive(s);
    ActiveInvHolds(s, cfg);
    all := ActivePart(s);
  }

  lemma ActiveInvHolds(s: LogState, cfg: LogConfig)
    requires s.active.base in s.logs && s.active.base in s.indexes && ActiveInv(s, cfg)
    ensures Holds(s.active, s.logs[s.active.base].bytes, ActivePart(s), cfg)
  {
    hide Holds, EncodeEntries, IndexOf, ActivePart, DurableIsSynced;
  }

  lemma InvValid(s: LogState, cfg: LogConfig)
    requires Inv(s, cfg)
    ensures Validate(cfg)
  {
    hide Tiled, ClosedStored, ActiveInv, FilesMatch;
  }

  lemma ClosedHolds(s: LogState, b: nat, cfg: LogConfig) returns (all: seq<Record>)
    requires Inv(s, cfg) && b in s.closed
    ensures b in s.logs && b in s.indexes
    ensures s.start <= b == s.closed[b].base < s.closed[b].next <= s.start + |s.records|
    ensures all == Part(s.records, s.start, b, s.closed[b].next)
    ensures Holds(s.closed[b], s.logs[b].bytes, all, cfg) && FullySynced(s.logs[b])
    ensures s.indexes[b] == EncodeEntries(s.closed[b].entries)
  {
    hide Holds, EncodeEntries, ActiveInv, FilesMatch, Part;
    assert InPlace(s.start, s.closed, s.active.base, b);
    assert ClosedSegment(s.start, s.records, s.closed[b], s.logs[b], s.indexes[b], cfg);
    all := Part(s.records, s.start, b, s.closed[b].next);
  }

  lemma HoldsRun(v: SegView, bytes: seq<byte>, rs: seq<Record>, k: nat, cfg: LogConfig)
    requires Holds(v, bytes, rs, cfg) && k <= |rs|
    ensures Run(rs[..k], v.base, cfg) && Size(rs[..k]) <= ONE_GIB
    ensures Pos(rs, k) <= |bytes| && bytes[..Pos(rs, k)] == EncodeAll(rs[..k], cfg.crc)
  {
    hide Sound, EncodeAll, Size;
    Split(rs, k, cfg.crc);
  }

  lemma ActiveAfterCut(s: LogState, t: LogState, n: nat, target: nat, cfg: LogConfig)
    requires Inv(s, cfg) && Cut(s, t, n, target, cfg) && KeepsTail(s, n, target)
    ensures t.active.base == target && s.start <= target <= t.active.next == n
    ensures t.active.base in t.logs && t.active.base in t.indexes && ActiveInv(t, cfg)
  {
    hide Holds, Run, Part, Size, EncodeAll, Rebuilt, SegmentAt, Inv, ActiveInv, Cut;
    InvValid(s, cfg);
    var all := TargetPart(s, n, target, cfg);
    HoldsRun(SegmentAt(s, target), s.logs[target].bytes, all, n - target, cfg);
    CutActive(s, t, n, target, cfg);
  }

  lemma CutActive(s: LogState, t: LogState, n: nat, target: nat, cfg: LogConfig)
    requires Validate(cfg) && s.start <= target <= n && Cut(s, t, n, target, cfg)
    requires Run(Part(s.records, s.start, target, n), target, cfg)
    requires Size(Part(s.records, s.start, target, n)) <= ONE_GIB
    ensures t.active.base == target && t.active.next == n
    ensures t.active.base in t.logs && t.active.base in t.indexes && ActiveInv(t, cfg)
  {
    hide ActiveStored, EncodeAll, EncodeEntries, IndexOf, Run, Size;
    var rs := Part(s.records, s.start, target, n);
    RebuiltIsStored(target, rs, Size(rs), cfg);
    assert ActivePart(t) == rs;
    if t.durable.Some? && t.durable.value >= target {
      Split(rs, t.durable.value + 1 - target, cfg.crc);
    }
  }

  lemma FilesAfterCut(s: LogState, t: LogState, n: nat, target: nat, cfg: LogConfig)
    requires FilesMatch(s) && Cut(s, t, n, target, cfg) && KeepsTail(s, n, target)
    requires Tiled(s.start, s.closed, s.active.base)
    ensures FilesMatch(t) && t.active.base !in t.closed
  {
    hide EncodeAll, EncodeEntries, IndexOf, Size, Part, Below, Rebuilt, Tiled;
    RebuiltBase(target, Part(s.records, s.start, target, n), cfg);
    TargetNotAfter(s, target);
    BelowKeys(s.closed, s.logs, s.active.base, target);
    BelowKeys(s.closed, s.indexes, s.active.base, target);
  }

  lemma TargetNotAfter(s: LogState, target: nat)
    requires Tiled(s.start, s.closed, s.active.base)
    requires target == s.active.base || target in s.closed
    ensures target <= s.active.base
  {
    if target in s.closed {
      assert InPlace(s.start, s.closed, s.active.base, target);
    }
  }

  lemma RebuiltBase(base: nat, rs: seq<Record>, cfg: LogConfig)
    ensures Rebuilt(base, rs, cfg).base == base
  {
  }

  lemma BelowKeys<A, B>(closed: map<nat, A>, files: map<nat, B>, active: nat, target: nat)
    requires files.Keys == closed.Keys + {active} && target <= active
    ensures Below(files, target).Keys == Below(closed, target).Keys
    ensures target !in Below(closed, target)
  {
    hide Below;
    var f, c := Below(files, target), Below(closed, target);
    forall b ensures b in f.Keys <==> b in c.Keys {
    }
  }

  /** Cutting the tail keeps the log good, for every segment layout. */
  lemma CutKeepsInv(s: LogState, t: LogState, n: nat, target: nat, cfg: LogConfig)
    requires Inv(s, cfg) && Cut(s, t, n, target, cfg) && KeepsTail(s, n, target)
    ensures Inv(t, cfg)
  {
    hide ClosedStored, ActiveInv, Rebuilt, EncodeAll, EncodeEntries, Size, Tiled, Below, FilesMatch, Part;
    ActiveAfterCut(s, t, n, target, cfg);
    ClosedAfterCut(s, t, n, target, cfg);
    TiledAfterCut(s, target);
    FilesAfterCut(s, t, n, target, cfg);
  }

  lemma WholeCountAtRecord(rs: seq<Record>, k: nat, crc: Checksum)
    requires k <= |rs|
    ensures WholeCount(rs, Pos(rs, k)) == k
  {
    WholeCountOfAll(rs, k, Pos(rs, k), crc);
    var w := WholeCount(rs, Pos(rs, k));
    if k < w {
      PosGrows(rs, k, w, crc);
    }
  }

  /** A good file cut at a record boundary recovers as the records before the cut, and is not cut further. */
  lemma RecoverCut(v: SegView, f: LogFile, all: seq<Record>, k: nat, idx: Option<seq<byte>>, cfg: LogConfig)
    requires Validate(cfg) && Holds(v, f.bytes, all, cfg) && k <= |all|
    ensures Pos(all, k) <= |f.bytes|
    ensures var rs := all[..k];
            var cut := LogFile(f.bytes[..Pos(all, k)], Pos(all, k));
            && Recovered(v.base, cut.bytes, idx, cfg, true) == Ok(Rebuilt(v.base, rs, cfg))
            && TrimmedTo(cut, Size(rs)) == cut == LogFile(EncodeAll(rs, cfg.crc), Size(rs))
  {
    hide Recovered, Sound, IndexOf, EncodeAll, Size, WholeCount, Run;
    HoldsRun(v, f.bytes, all, k, cfg);
    RecoverTorn(v.base, all, Pos(all, k), idx, cfg);
    WholeCountAtRecord(all, k, cfg.crc);
  }
}
