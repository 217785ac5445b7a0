/** Opening a directory after a crash. Pure: the method that does it is in Open.dfy. */
module CrashRecovery {
  import opened Wrappers
  import opened Bytes
  import opened RecordCodec
  import opened Config
  import opened Disk
  import opened Layout
  import opened SegmentSpec
  import opened SegmentFile
  import opened LogSpec
  import opened Truncation
  import opened PartitionLog

  // ---------------------------------------------------------------- what open computes

  datatype Opened = Opened(closed: map<nat, SegView>, active: SegView)

  /** Recovers the segments with these bases, in order; only the last may have its tail cut. */
  function OpenFrom(keys: set<nat>, expected: Option<nat>, logs: map<nat, LogFile>, indexes: map<nat, seq<byte>>,
                    cfg: LogConfig): Result<Opened, StorageError>
    requires keys != {} && keys <= logs.Keys
    decreases keys
  {
    var b := Least(keys);
    var rest := keys - {b};
    match Recovered(b, logs[b].bytes, IndexFile(indexes, b), cfg, rest == {})
    case Err(e) => Err(e)
    case Ok(v) =>
      if expected.Some? && b != expected.value then Err(InvalidLayout)
      else if rest == {} then Ok(Opened(map[], v))
      else
        match OpenFrom(rest, Some(v.next), logs, indexes, cfg)
        case Err(e) => Err(e)
        case Ok(o) => Ok(Opened(map[b := v] + o.closed, o.active))
  }

  // ---------------------------------------------------------------- crashes

  /** The bytes of the active file if the append that the crash interrupted had completed. */
  function Intended(s: LogState, inflight: seq<Record>, cfg: LogConfig): seq<Record> {
    ActivePart(s) + inflight
  }

  /** At most one append was in flight: the next record, admitted to the active segment. */
  ghost predicate Admitted(s: LogState, inflight: seq<Record>, cfg: LogConfig) {
    inflight == [] || (|inflight| == 1 && inflight[0].offset == s.active.next && Fits(inflight[0], cfg)
                       && s.active.size + EncodedLen(inflight[0]) <= ONE_GIB)
  }

  /** A crash keeps every synced byte and a prefix of what was written beyond. Index files, which are never
      synced, may lose any tail or vanish; what survives is what the media holds. */
  ghost predicate CrashImage(s: LogState, inflight: seq<Record>, logs: map<nat, LogFile>,
                             indexes: map<nat, seq<byte>>, cfg: LogConfig)
    requires s.active.base in s.logs
  {
    && logs.Keys == s.logs.Keys && indexes.Keys <= s.indexes.Keys
    && (forall b {:trigger s.closed[b]} :: b in s.closed && b in logs && b in s.logs ==>
          Survives(s.logs[b].bytes, s.logs[b].synced, logs[b]))
    && (s.active.base in logs ==>
          Survives(EncodeAll(Intended(s, inflight, cfg), cfg.crc), s.logs[s.active.base].synced, logs[s.active.base]))
    && (forall b {:trigger s.closed[b]} :: b in s.closed && b in indexes && b in s.indexes ==>
          indexes[b] <= s.indexes[b])
  }

  ghost predicate Survives(written: seq<byte>, synced: nat, f: LogFile) {
    f.bytes <= written && synced <= |f.bytes| == f.synced
  }

  // ---------------------------------------------------------------- one closed segment

  /** A closed segment comes back with all of its records, under any surviving part of its index. */
  lemma ClosedComesBack(v: SegView, f: LogFile, ix: seq<byte>, g: LogFile, idx: Option<seq<byte>>, rs: seq<Record>,
                        cfg: LogConfig)
    requires Validate(cfg) && Stored(rs, v, f, ix, cfg) && FullySynced(f)
    requires Survives(f.bytes, f.synced, g)
    requires idx.Some? ==> idx.value <= ix
    ensures g.bytes == f.bytes
    ensures var o := Recovered(v.base, g.bytes, idx, cfg, false);
            && o.Ok? && o.value.base == v.base && o.value.next == v.next
            && Stored(rs, o.value, g, EncodeEntries(o.value.entries), cfg) && FullySynced(g)
            && TrimmedTo(g, o.value.size) == g && CountsSince(o.value)
  {
    hide CountsSince, Recovered, EncodeAll, EncodeEntries, Size, Sound, Run, ParseEntries;
    assert g.bytes == f.bytes;
    if idx.Some? {
      SurvivingIndex(v.entries, idx.value, rs);
    }
    RecoverClosed(v.base, rs, idx, cfg);
  }

  lemma SurvivingIndex(entries: seq<Entry>, b: seq<byte>, rs: seq<Record>)
    requires Sound(entries, rs) && b <= EncodeEntries(entries)
    ensures ParseEntries(b).Some? ==> Sound(ParseEntries(b).value, rs)
  {
    hide ParseEntries, EncodeEntries, Size;
    TornIndex(entries, |b|);
    assert b == EncodeEntries(entries)[..|b|];
    if |b| % 8 == 0 {
      SoundPrefix(entries, |b| / 8, rs);
    }
  }

  // ---------------------------------------------------------------- the active segment

  lemma ActiveComesBack(v: SegView, f: LogFile, ix: seq<byte>, rs: seq<Record>, inflight: seq<Record>, g: LogFile,
                        idx: Option<seq<byte>>, cfg: LogConfig)
    requires Validate(cfg) && Stored(rs, v, f, ix, cfg)
    requires inflight == [] || (|inflight| == 1 && inflight[0].offset == v.next && Fits(inflight[0], cfg)
                                && v.size + EncodedLen(inflight[0]) <= ONE_GIB)
    requires Survives(EncodeAll(rs + inflight, cfg.crc), f.synced, g)
    ensures var k := WholeCount(rs + inflight, |g.bytes|);
            var kept := (rs + inflight)[..k];
            var w := Rebuilt(v.base, kept, cfg);
            && Recovered(v.base, g.bytes, idx, cfg, true) == Ok(w)
            && w.size <= |g.bytes|
            && ActiveStored(kept, w, TrimmedTo(g, w.size), EncodeEntries(w.entries), cfg)
            && FullySynced(TrimmedTo(g, w.size))
  {
    hide Recovered, EncodeAll, EncodeEntries, Size, Sound, Run, IndexOf, EncodedLen, WholeCount, Fits;
    var all := rs + inflight;
    IntendedRun(v, f.bytes, rs, inflight, cfg);
    var n := |g.bytes|;
    assert g.bytes == EncodeAll(all, cfg.crc)[..n];
    RecoverTorn(v.base, all, n, idx, cfg);
    var k := WholeCount(all, n);
    var kept := all[..k];
    PrefixRun(all, v.base, k, cfg);
    Split(all, k, cfg.crc);
    RebuiltIsStored(v.base, kept, Size(kept), cfg);
    RebuiltSize(v.base, kept, cfg);
    assert g.bytes[..Size(kept)] == EncodeAll(kept, cfg.crc);
  }

  lemma PrefixRun(rs: seq<Record>, base: nat, k: nat, cfg: LogConfig)
    requires Run(rs, base, cfg) && k <= |rs|
    ensures Run(rs[..k], base, cfg)
  {
  }

  lemma IntendedRun(v: SegView, bytes: seq<byte>, rs: seq<Record>, inflight: seq<Record>, cfg: LogConfig)
    requires Holds(v, bytes, rs, cfg)
    requires inflight == [] || (|inflight| == 1 && inflight[0].offset == v.next && Fits(inflight[0], cfg)
                                && v.size + EncodedLen(inflight[0]) <= ONE_GIB)
    ensures Run(rs + inflight, v.base, cfg) && Size(rs + inflight) <= ONE_GIB
  {
    hide Sound, EncodedLen, EncodeAll, Size;
    if inflight == [] {
      assert rs + inflight == rs;
    } else {
      assert inflight == [inflight[0]];
      RunExtends(rs, v.base, inflight[0], cfg);
      EncodeAllAppend(rs, inflight, cfg.crc);
      EncodeAllOne(inflight[0], cfg.crc);
    }
  }

  /** Nothing durable is lost: every record below the durable offset survives whole. */
  lemma DurableSurvives(durable: Option<nat>, base: nat, rs: seq<Record>, inflight: seq<Record>, synced: nat, n: nat,
                        crc: Checksum)
    requires DurableIsSynced(durable, base, rs, synced) && synced <= n
    ensures durable.Some? ==> durable.value < base + WholeCount(rs + inflight, n)
  {
    hide Size, WholeCount;
    if durable.Some? && durable.value >= base {
      var k := durable.value + 1 - base;
      assert (rs + inflight)[..k] == rs[..k];
      WholeCountOfAll(rs + inflight, k, n, crc);
    }
  }

  // ---------------------------------------------------------------- the whole directory

  /** The closed segment at `b` has come back with its records. */
  ghost predicate CameBack(s: LogState, b: nat, w: SegView, logs: map<nat, LogFile>, cfg: LogConfig)
    requires b in s.closed && b in logs
  {
    && w.base == b && w.next == s.closed[b].next
    && Stored(Part(s.records, s.start, b, w.next), w, logs[b], EncodeEntries(w.entries), cfg)
    && FullySynced(logs[b]) && TrimmedTo(logs[b], w.size) == logs[b] && CountsSince(w)
  }

  /** The segments from some base on. */
  ghost predicate FromSomeBase(s: LogState, keys: set<nat>) {
    && s.active.base in keys
    && keys <= s.closed.Keys + {s.active.base}
    && forall b, c :: b in keys && c in s.closed.Keys + {s.active.base} && b <= c ==> c in keys
  }

  lemma ActiveIsLast(s: LogState, keys: set<nat>, cfg: LogConfig)
    requires Inv(s, cfg) && FromSomeBase(s, keys)
    ensures forall c :: c in keys ==> c <= s.active.base
    ensures keys != {} && (keys - {Least(keys)} == {} <==> Least(keys) == s.active.base)
  {
    hide ClosedStored, ActiveInv, FilesMatch;
    forall c | c in keys ensures c <= s.active.base {
      if c != s.active.base {
        assert InPlace(s.start, s.closed, s.active.base, c);
      }
    }
    var b := Least(keys);
    if b == s.active.base {
      forall c | c in keys ensures c == b {
      }
      assert keys - {b} == {};
    } else {
      assert s.active.base in keys - {b};
    }
  }

  /** The next segment starts where this one ends. */
  lemma NextFollows(s: LogState, keys: set<nat>, b: nat, cfg: LogConfig)
    requires Inv(s, cfg) && FromSomeBase(s, keys) && b in keys && b in s.closed
    requires forall c :: c in keys ==> b <= c
    ensures FromSomeBase(s, keys - {b})
    ensures s.closed[b].next in keys - {b}
    ensures forall c :: c in keys - {b} ==> s.closed[b].next <= c
  {
    hide ClosedStored, ActiveInv, FilesMatch;
    assert InPlace(s.start, s.closed, s.active.base, b);
    forall c | c in keys - {b} ensures s.closed[b].next <= c {
      assert b < c;
    }
  }

  lemma LastIsActive(s: LogState, keys: set<nat>, cfg: LogConfig)
    requires Inv(s, cfg) && FromSomeBase(s, keys)
    ensures keys != {}
    ensures var b := Least(keys);
            var rest := keys - {b};
            && (rest == {} <==> b == s.active.base)
            && (rest != {} ==> b in s.closed && FromSomeBase(s, rest) && Least(rest) == s.closed[b].next)
  {
    hide Inv;
    ActiveIsLast(s, keys, cfg);
    var b := Least(keys);
    if b != s.active.base {
      NextFollows(s, keys, b, cfg);
    }
  }

  lemma {:induction false} OpenComesBack(s: LogState, inflight: seq<Record>, keys: set<nat>, expected: Option<nat>,
                                         logs: map<nat, LogFile>, indexes: map<nat, seq<byte>>, cfg: LogConfig)
    requires Inv(s, cfg) && Admitted(s, inflight, cfg) && s.active.base in s.logs
    requires CrashImage(s, inflight, logs, indexes, cfg) && FromSomeBase(s, keys) && keys <= logs.Keys
    requires keys != {} && (expected.Some? ==> expected.value == Least(keys))
    ensures var o := OpenFrom(keys, expected, logs, indexes, cfg);
            && o.Ok? && o.value.closed.Keys == keys - {s.active.base}
            && (forall b {:trigger o.value.closed[b]} :: b in o.value.closed ==>
                  b in s.closed && CameBack(s, b, o.value.closed[b], logs, cfg))
            && Ok(o.value.active) == Recovered(s.active.base, logs[s.active.base].bytes,
                                               IndexFile(indexes, s.active.base), cfg, true)
    decreases keys
  {
    hide Inv, CrashImage, CameBack, Recovered, Admitted, FromSomeBase;
    LastIsActive(s, keys, cfg);
    var b := Least(keys);
    var rest := keys - {b};
    if rest == {} {
      RecoveredActive(s, inflight, logs, indexes, cfg);
    } else {
      RecoveredClosed(s, inflight, b, logs, indexes, cfg);
      OpenComesBack(s, inflight, rest, Some(s.closed[b].next), logs, indexes, cfg);
    }
  }

  lemma RecoveredClosed(s: LogState, inflight: seq<Record>, b: nat, logs: map<nat, LogFile>,
                        indexes: map<nat, seq<byte>>, cfg: LogConfig)
    requires Inv(s, cfg) && s.active.base in s.logs && CrashImage(s, inflight, logs, indexes, cfg)
    requires b in s.closed && b in logs
    ensures var o := Recovered(b, logs[b].bytes, IndexFile(indexes, b), cfg, false);
            && o.Ok? && CameBack(s, b, o.value, logs, cfg) && o.value.next == s.closed[b].next
            && b != s.active.base
  {
    InvValid(s, cfg);
    hide ActiveInv, Recovered, Stored, ClosedSegment, Validate, Part;
    ClosedIsStored(s, b, cfg);
    ClosedComesBack(s.closed[b], s.logs[b], s.indexes[b], logs[b], IndexFile(indexes, b),
                    Part(s.records, s.start, b, s.closed[b].next), cfg);
  }

  lemma ClosedIsStored(s: LogState, b: nat, cfg: LogConfig)
    requires Inv(s, cfg) && b in s.closed
    ensures b in s.logs && b in s.indexes && s.closed[b].base == b
    ensures Stored(Part(s.records, s.start, b, s.closed[b].next), s.closed[b], s.logs[b], s.indexes[b], cfg)
    ensures FullySynced(s.logs[b])
  {
    hide ActiveInv, Stored, FilesMatch, Part;
    assert InPlace(s.start, s.closed, s.active.base, b);
  }

  /** What is kept of the active segment. */
  function Kept(s: LogState, inflight: seq<Record>, logs: map<nat, LogFile>, cfg: LogConfig): seq<Record>
    requires s.active.base in logs
  {
    var all := Intended(s, inflight, cfg);
    all[..WholeCount(all, |logs[s.active.base].bytes|)]
  }

  lemma RecoveredActive(s: LogState, inflight: seq<Record>, logs: map<nat, LogFile>,
                        indexes: map<nat, seq<byte>>, cfg: LogConfig)
    requires Inv(s, cfg) && s.active.base in s.logs && Admitted(s, inflight, cfg)
    requires CrashImage(s, inflight, logs, indexes, cfg) && s.active.base in logs
    ensures var kept := Kept(s, inflight, logs, cfg);
            var g := logs[s.active.base];
            var w := Rebuilt(s.active.base, kept, cfg);
            && Recovered(s.active.base, g.bytes, IndexFile(indexes, s.active.base), cfg, true) == Ok(w)
            && w.size <= |g.bytes|
            && ActiveStored(kept, w, TrimmedTo(g, w.size), EncodeEntries(w.entries), cfg)
            && FullySynced(TrimmedTo(g, w.size))
    ensures s.durable.Some? ==> s.durable.value < s.active.base + |Kept(s, inflight, logs, cfg)|
  {
    InvValid(s, cfg);
    ActiveIsStored(s, cfg);
    hide Inv, Recovered, Stored, ActiveStored, DurableIsSynced, Rebuilt, Validate, ActivePart, EncodeAll, EncodeEntries,
      WholeCount;
    var b := s.active.base;
    ActiveComesBack(s.active, s.logs[b], s.indexes[b], ActivePart(s), inflight, logs[b], IndexFile(indexes, b), cfg);
    DurableSurvives(s.durable, b, ActivePart(s), inflight, s.logs[b].synced, |logs[b].bytes|, cfg.crc);
  }

  lemma ActiveIsStored(s: LogState, cfg: LogConfig)
    requires Inv(s, cfg)
    ensures s.active.base in s.logs && s.active.base in s.indexes
    ensures Stored(ActivePart(s), s.active, s.logs[s.active.base], s.indexes[s.active.base], cfg)
    ensures DurableIsSynced(s.durable, s.active.base, ActivePart(s), s.logs[s.active.base].synced)
    ensures |ActivePart(s)| == s.active.next - s.active.base
  {
    hide ClosedStored, Tiled, Holds, EncodeEntries, IndexOf;
    FilesHaveActive(s);
  }

  // ---------------------------------------------------------------- the theorem

  function IndexFiles(o: Opened): map<nat, seq<byte>> {
    (map b | b in o.closed :: EncodeEntries(o.closed[b].entries))[o.active.base := EncodeEntries(o.active.entries)]
  }

  /** The log after opening: what memory and disk hold, and the records these stand for. */
  function AfterOpen(start: nat, records: seq<Record>, o: Opened, logs: map<nat, LogFile>): LogState
    requires o.active.base in logs && o.active.size <= |logs[o.active.base].bytes|
  {
    LogState(start, records, o.closed, o.active,
             logs[o.active.base := TrimmedTo(logs[o.active.base], o.active.size)],
             IndexFiles(o), LastOffset(o.active.next))
  }

  /** The records of closed segments, and the whole ones that survived in the active segment. */
  function SurvivingRecords(s: LogState, inflight: seq<Record>, logs: map<nat, LogFile>, cfg: LogConfig): seq<Record>
    requires s.active.base in logs && s.start <= s.active.base <= s.start + |s.records|
  {
    s.records[..s.active.base - s.start] + Kept(s, inflight, logs, cfg)
  }

  lemma SurvivorsArePrefix(s: LogState, inflight: seq<Record>, logs: map<nat, LogFile>, cfg: LogConfig)
    requires s.active.base in logs && s.start <= s.active.base <= s.start + |s.records|
    ensures SurvivingRecords(s, inflight, logs, cfg) <= s.records + inflight
    ensures ActivePart(s) == s.records[s.active.base - s.start..]
  {
    hide WholeCount;
    assert s.records + inflight == s.records[..s.active.base - s.start] + Intended(s, inflight, cfg);
  }

  lemma TiledAfterOpen(s: LogState, o: Opened, logs: map<nat, LogFile>, cfg: LogConfig)
    requires Inv(s, cfg) && o.closed.Keys == s.closed.Keys && s.closed.Keys <= logs.Keys
    requires forall b {:trigger o.closed[b]} :: b in o.closed ==> CameBack(s, b, o.closed[b], logs, cfg)
    ensures Tiled(s.start, o.closed, s.active.base)
  {
    hide ClosedStored, ActiveInv, FilesMatch, Stored, FullySynced;
    forall b | b in o.closed ensures InPlace(s.start, o.closed, s.active.base, b) {
      assert InPlace(s.start, s.closed, s.active.base, b);
    }
    forall b, c | b in o.closed && c in o.closed && b < c ensures o.closed[b].next <= c {
      assert s.closed[b].next <= c;
    }
  }

  lemma ClosedAfterOpen(s: LogState, t: LogState, o: Opened, inflight: seq<Record>, logs: map<nat, LogFile>,
                        cfg: LogConfig)
    requires Inv(s, cfg) && o.closed.Keys == s.closed.Keys && s.closed.Keys <= logs.Keys
    requires forall b {:trigger o.closed[b]} :: b in o.closed ==> CameBack(s, b, o.closed[b], logs, cfg)
    requires o.active.base == s.active.base && s.active.base in logs && o.active.size <= |logs[o.active.base].bytes|
    requires t == AfterOpen(s.start, SurvivingRecords(s, inflight, logs, cfg), o, logs)
    ensures ClosedStored(t.start, t.records, t.closed, t.logs, t.indexes, cfg)
  {
    hide ClosedStored, ActiveInv, FilesMatch, Stored, FullySynced, Part, Kept, EncodeEntries, CameBack, ClosedSegment,
      SurvivingRecords, Tiled;
    forall b | b in t.closed
      ensures b in t.logs && b in t.indexes
      ensures ClosedSegment(t.start, t.records, t.closed[b], t.logs[b], t.indexes[b], cfg)
    {
      ClosedSegmentAfterOpen(s, inflight, logs, b, o.closed[b], cfg);
    }
    ClosedStoredIs(t, cfg);
  }

  lemma ClosedStoredIs(t: LogState, cfg: LogConfig)
    requires forall b {:trigger t.closed[b]} :: b in t.closed ==>
               b in t.logs && b in t.indexes
               && ClosedSegment(t.start, t.records, t.closed[b], t.logs[b], t.indexes[b], cfg)
    ensures ClosedStored(t.start, t.records, t.closed, t.logs, t.indexes, cfg)
  {
    hide ClosedSegment;
  }

  lemma ClosedSegmentAfterOpen(s: LogState, inflight: seq<Record>, logs: map<nat, LogFile>, b: nat, w: SegView,
                               cfg: LogConfig)
    requires Inv(s, cfg) && b in s.closed && b in logs && s.active.base in logs && CameBack(s, b, w, logs, cfg)
    ensures s.start <= s.active.base <= s.start + |s.records|
    ensures ClosedSegment(s.start, SurvivingRecords(s, inflight, logs, cfg), w, logs[b], EncodeEntries(w.entries), cfg)
  {
    hide ClosedStored, ActiveInv, FilesMatch, Stored, Part, Kept, EncodeEntries, SurvivingRecords;
    assert InPlace(s.start, s.closed, s.active.base, b);
    PartOfSurvivors(s, inflight, logs, b, s.closed[b].next, cfg);
  }

  lemma PartOfSurvivors(s: LogState, inflight: seq<Record>, logs: map<nat, LogFile>, lo: nat, hi: nat, cfg: LogConfig)
    requires s.active.base in logs && s.start <= lo <= hi <= s.active.base <= s.start + |s.records|
    ensures Part(SurvivingRecords(s, inflight, logs, cfg), s.start, lo, hi) == Part(s.records, s.start, lo, hi)
    ensures hi <= s.start + |SurvivingRecords(s, inflight, logs, cfg)|
  {
    hide Kept;
  }

  /** The active segment that opening finds, next to the surviving records. */
  lemma ActiveAfterOpen(s: LogState, w: SegView, inflight: seq<Record>, logs: map<nat, LogFile>,
                        indexes: map<nat, seq<byte>>, cfg: LogConfig)
    requires Inv(s, cfg) && s.active.base in s.logs && Admitted(s, inflight, cfg)
    requires CrashImage(s, inflight, logs, indexes, cfg) && s.active.base in logs
    requires Ok(w) == Recovered(s.active.base, logs[s.active.base].bytes,
                                IndexFile(indexes, s.active.base), cfg, true)
    ensures s.start <= s.active.base <= s.start + |s.records|
    ensures w.base == s.active.base && w.size <= |logs[w.base].bytes|
    ensures w.next == s.start + |SurvivingRecords(s, inflight, logs, cfg)|
    ensures ActiveStored(Kept(s, inflight, logs, cfg), w, TrimmedTo(logs[w.base], w.size),
        EncodeEntries(w.entries), cfg)
    ensures FullySynced(TrimmedTo(logs[w.base], w.size))
    ensures s.durable.Some? ==> s.durable.value < w.next
  {
    HasActiveFile(s, cfg);
    hide Inv, CrashImage, Admitted, Recovered, Kept, ActiveStored, Rebuilt, TrimmedTo, EncodeEntries, SurvivingRecords;
    RecoveredActive(s, inflight, logs, indexes, cfg);
    RebuiltSize(s.active.base, Kept(s, inflight, logs, cfg), cfg);
    SurvivorsCount(s, inflight, logs, cfg);
  }

  lemma ActiveInvAfterOpen(s: LogState, t: LogState, o: Opened, inflight: seq<Record>, logs: map<nat, LogFile>,
                           cfg: LogConfig)
    requires s.active.base in logs && s.start <= s.active.base <= s.start + |s.records|
    requires o.active.base == s.active.base && o.active.size <= |logs[o.active.base].bytes|
    requires t == AfterOpen(s.start, SurvivingRecords(s, inflight, logs, cfg), o, logs)
    requires ActiveStored(Kept(s, inflight, logs, cfg), o.active, TrimmedTo(logs[o.active.base], o.active.size),
                          EncodeEntries(o.active.entries), cfg)
    requires FullySynced(TrimmedTo(logs[o.active.base], o.active.size))
    ensures t.active.base in t.logs && t.active.base in t.indexes && ActiveInv(t, cfg)
  {
    hide Kept, ActiveStored, TrimmedTo, EncodeEntries, DurableIsSynced, FullySynced;
    var kept := Kept(s, inflight, logs, cfg);
    assert ActivePart(t) == kept;
    ActiveIsDurable(o.active.base, kept, o.active, TrimmedTo(logs[o.active.base], o.active.size), cfg);
  }

  lemma ActiveIsDurable(base: nat, kept: seq<Record>, w: SegView, f: LogFile, cfg: LogConfig)
    requires ActiveStored(kept, w, f, EncodeEntries(w.entries), cfg) && FullySynced(f) && w.base == base
    ensures DurableIsSynced(LastOffset(w.next), base, kept, f.synced)
  {
    hide Holds, EncodeEntries, IndexOf;
    StoredLength(kept, w, f, EncodeEntries(w.entries), cfg);
  }

  /** Opening after a crash succeeds. The log is good again and holds a prefix of what was written: all that
      was durable, and the record that was being appended either whole or not at all. All of it is durable. */
  lemma Recovery(s: LogState, inflight: seq<Record>, logs: map<nat, LogFile>, indexes: map<nat, seq<byte>>,
                 cfg: LogConfig)
    requires Inv(s, cfg) && s.active.base in s.logs && Admitted(s, inflight, cfg)
    requires CrashImage(s, inflight, logs, indexes, cfg)
    ensures s.active.base in logs && s.start <= s.active.base <= s.start + |s.records|
    ensures var o := OpenFrom(logs.Keys, None, logs, indexes, cfg);
            var records := SurvivingRecords(s, inflight, logs, cfg);
            && o.Ok? && o.value.active.base in logs && o.value.active.size <= |logs[o.value.active.base].bytes|
            && Inv(AfterOpen(s.start, records, o.value, logs), cfg)
            && records <= s.records + inflight
            && (s.durable.Some? ==> s.durable.value < s.start + |records|)
  {
    hide OpenFrom, CrashImage, Admitted, CameBack, SurvivingRecords, Inv, FromSomeBase, Recovered, ActiveStored,
      TrimmedTo, EncodeEntries, Tiled, ClosedStored, ActiveInv, FullySynced, AfterOpen, Kept;
    FilesPresent(s, logs, inflight, indexes, cfg);
    OpenComesBack(s, inflight, logs.Keys, None, logs, indexes, cfg);
    var o := OpenFrom(logs.Keys, None, logs, indexes, cfg).value;
    ActiveAfterOpen(s, o.active, inflight, logs, indexes, cfg);
    SurvivorsArePrefix(s, inflight, logs, cfg);
    RecoveredLogIsGood(s, o, inflight, logs, indexes, cfg);
  }

  lemma RecoveredLogIsGood(s: LogState, o: Opened, inflight: seq<Record>, logs: map<nat, LogFile>,
                           indexes: map<nat, seq<byte>>, cfg: LogConfig)
    requires Inv(s, cfg) && s.active.base in s.logs && CrashImage(s, inflight, logs, indexes, cfg)
    requires s.active.base in logs && s.start <= s.active.base <= s.start + |s.records|
    requires o.closed.Keys == logs.Keys - {s.active.base}
    requires forall b {:trigger o.closed[b]} :: b in o.closed ==>
               b in s.closed && b in logs && CameBack(s, b, o.closed[b], logs, cfg)
    requires o.active.base == s.active.base && o.active.size <= |logs[o.active.base].bytes|
    requires o.active.next == s.start + |SurvivingRecords(s, inflight, logs, cfg)|
    requires ActiveStored(Kept(s, inflight, logs, cfg), o.active, TrimmedTo(logs[o.active.base], o.active.size),
                          EncodeEntries(o.active.entries), cfg)
    requires FullySynced(TrimmedTo(logs[o.active.base], o.active.size))
    ensures Inv(AfterOpen(s.start, SurvivingRecords(s, inflight, logs, cfg), o, logs), cfg)
  {
    hide CrashImage, CameBack, SurvivingRecords, Inv, FromSomeBase, ActiveStored,
      TrimmedTo, EncodeEntries, Tiled, ClosedStored, ActiveInv, FullySynced, AfterOpen, Kept;
    FilesPresent(s, logs, inflight, indexes, cfg);
    var records := SurvivingRecords(s, inflight, logs, cfg);
    var t := AfterOpen(s.start, records, o, logs);
    SurvivorsCount(s, inflight, logs, cfg);
    TiledAfterOpen(s, o, logs, cfg);
    ClosedAfterOpen(s, t, o, inflight, logs, cfg);
    ActiveInvAfterOpen(s, t, o, inflight, logs, cfg);
    AssembleInv(s, t, o, records, logs, cfg);
  }

  lemma SurvivorsCount(s: LogState, inflight: seq<Record>, logs: map<nat, LogFile>, cfg: LogConfig)
    requires s.active.base in logs && s.start <= s.active.base <= s.start + |s.records|
    ensures s.start + |SurvivingRecords(s, inflight, logs, cfg)| == s.active.base + |Kept(s, inflight, logs, cfg)|
  {
    hide Kept;
  }

  lemma FilesPresent(s: LogState, logs: map<nat, LogFile>, inflight: seq<Record>, indexes: map<nat, seq<byte>>,
                     cfg: LogConfig)
    requires Inv(s, cfg) && s.active.base in s.logs && CrashImage(s, inflight, logs, indexes, cfg)
    ensures logs.Keys == s.closed.Keys + {s.active.base} && logs.Keys != {} && s.active.base !in s.closed
    ensures FromSomeBase(s, logs.Keys) && s.active.base in logs
    ensures s.start <= s.active.base <= s.start + |s.records|
    ensures Validate(cfg)
  {
    hide ClosedStored, ActiveInv, Tiled;
  }

  lemma AssembleInv(s: LogState, t: LogState, o: Opened, records: seq<Record>, logs: map<nat, LogFile>, cfg: LogConfig)
    requires Validate(cfg) && logs.Keys == s.closed.Keys + {s.active.base} && s.active.base !in s.closed
    requires o.closed.Keys == s.closed.Keys && o.active.base == s.active.base
    requires o.active.size <= |logs[o.active.base].bytes| && t == AfterOpen(s.start, records, o, logs)
    requires s.start <= s.active.base <= o.active.next == s.start + |records|
    requires Tiled(s.start, o.closed, s.active.base)
    requires ClosedStored(t.start, t.records, t.closed, t.logs, t.indexes, cfg)
    requires t.active.base in t.logs && t.active.base in t.indexes && ActiveInv(t, cfg)
    ensures Inv(t, cfg)
  {
    hide ClosedStored, ActiveInv, Tiled, EncodeEntries, TrimmedTo, Validate;
  }

  // ---------------------------------------------------------------- opening again

  /** The segments with these bases. */
  function Only<T>(m: map<nat, T>, keys: set<nat>): (r: map<nat, T>)
    ensures forall b {:trigger b in r} :: b in r <==> b in m && b in keys
    ensures forall b {:trigger r[b]} :: b in r ==> r[b] == m[b]
  {
    map b | b in m && b in keys :: m[b]
  }

  /** A closed segment is read back to the fields it had in memory. */
  lemma ReopenClosed(s: LogState, b: nat, cfg: LogConfig)
    requires Inv(s, cfg) && b in s.closed
    ensures b in s.logs && b in s.indexes
    ensures Recovered(b, s.logs[b].bytes, IndexFile(s.indexes, b), cfg, false) == Ok(s.closed[b])
  {
    InvValid(s, cfg);
    var all := ClosedHolds(s, b, cfg);
    ClosedCounts(s, b, cfg);
    hide Inv, Recovered, Run, Sound, EncodeAll, EncodeEntries, CountsSince, Validate;
    RecoverClosedAgain(s.closed[b], all, cfg);
  }

  lemma ClosedCounts(s: LogState, b: nat, cfg: LogConfig)
    requires Inv(s, cfg) && b in s.closed
    ensures CountsSince(s.closed[b])
  {
    hide Stored, CountsSince, ActiveInv, Tiled, FilesMatch;
  }

  /** Rebuilding the active segment's index from its file gives the index that the appends built. */
  lemma ReopenActive(s: LogState, cfg: LogConfig)
    requires Inv(s, cfg)
    ensures s.active.base in s.logs
    ensures Recovered(s.active.base, s.logs[s.active.base].bytes, IndexFile(s.indexes, s.active.base), cfg, true)
            == Ok(s.active)
    ensures |s.logs[s.active.base].bytes| == s.active.size
  {
    InvValid(s, cfg);
    ActiveIsStored(s, cfg);
    ActiveIsRebuilt(s, cfg);
    hide Inv, Recovered, Sound, EncodeAll, EncodeEntries, Validate, Rebuilt, WholeCount,
        ActivePart, Size, DurableIsSynced;
    var rs, f := ActivePart(s), s.logs[s.active.base];
    StoredLength(rs, s.active, f, s.indexes[s.active.base], cfg);
    StoredRun(rs, s.active, f, s.indexes[s.active.base], cfg);
    RecoverTorn(s.active.base, rs, Size(rs), IndexFile(s.indexes, s.active.base), cfg);
    WholeCountAtRecord(rs, |rs|, cfg.crc);
    assert rs[..|rs|] == rs && f.bytes[..|f.bytes|] == f.bytes;
  }

  lemma StoredRun(rs: seq<Record>, v: SegView, f: LogFile, ix: seq<byte>, cfg: LogConfig)
    requires Stored(rs, v, f, ix, cfg)
    ensures Run(rs, v.base, cfg) && f.bytes == EncodeAll(rs, cfg.crc)
  {
  }

  lemma ActiveIsRebuilt(s: LogState, cfg: LogConfig)
    requires Inv(s, cfg)
    ensures s.active == Rebuilt(s.active.base, ActivePart(s), cfg)
  {
    hide ClosedStored, Tiled, EncodeEntries, IndexOf, Run, Sound, EncodeAll, Size, DurableIsSynced, ActivePart;
    FilesHaveActive(s);
    StoredLength(ActivePart(s), s.active, s.logs[s.active.base], s.indexes[s.active.base], cfg);
  }

  lemma {:induction false} OpenUndisturbed(s: LogState, keys: set<nat>, expected: Option<nat>, cfg: LogConfig)
    requires Inv(s, cfg) && FromSomeBase(s, keys) && keys <= s.logs.Keys
    requires keys != {} && (expected.Some? ==> expected.value == Least(keys))
    ensures OpenFrom(keys, expected, s.logs, s.indexes, cfg) == Ok(Opened(Only(s.closed, keys), s.active))
    decreases keys
  {
    hide Inv, Recovered, FromSomeBase, Only;
    HasActiveFile(s, cfg);
    LastIsActive(s, keys, cfg);
    var b := Least(keys);
    var rest := keys - {b};
    if rest == {} {
      ReopenActive(s, cfg);
      assert keys == {b};
      assert Only(s.closed, keys) == map[];
    } else {
      ReopenClosed(s, b, cfg);
      OpenUndisturbed(s, rest, Some(s.closed[b].next), cfg);
      assert map[b := s.closed[b]] + Only(s.closed, rest) == Only(s.closed, keys);
    }
  }

  /** Opening a directory that no crash has touched restores every field, the sparse indexes included, and
      changes no file. */
  lemma OpenRestores(s: LogState, cfg: LogConfig)
    requires Inv(s, cfg)
    ensures s.logs.Keys != {} && OpenFrom(s.logs.Keys, None, s.logs, s.indexes, cfg) == Ok(Opened(s.closed, s.active))
    ensures s.active.base in s.logs && |s.logs[s.active.base].bytes| == s.active.size
    ensures AfterOpen(s.start, s.records, Opened(s.closed, s.active), s.logs)
            == s.(durable := LastOffset(s.active.next))
  {
    hide Inv, OpenFrom, FromSomeBase, EncodeEntries;
    HasActiveFile(s, cfg);
    AllBases(s, cfg);
    OpenUndisturbed(s, s.logs.Keys, None, cfg);
    ReopenActive(s, cfg);
    assert Only(s.closed, s.logs.Keys) == s.closed;
    IndexesAreEncoded(s, cfg);
    assert s.logs[s.active.base := s.logs[s.active.base]] == s.logs;
  }

  lemma AllBases(s: LogState, cfg: LogConfig)
    requires Inv(s, cfg)
    ensures FromSomeBase(s, s.logs.Keys) && s.logs.Keys == s.closed.Keys + {s.active.base}
  {
    hide Tiled, ClosedStored, ActiveInv;
  }

  lemma IndexesAreEncoded(s: LogState, cfg: LogConfig)
    requires Inv(s, cfg)
    ensures IndexFiles(Opened(s.closed, s.active)) == s.indexes
  {
    hide Inv, EncodeEntries, IndexFiles;
    IndexKeys(s, cfg);
    var ix := IndexFiles(Opened(s.closed, s.active));
    IndexFileKeys(Opened(s.closed, s.active));
    forall b | b in s.indexes ensures ix[b] == s.indexes[b] {
      IndexIsEncoded(s, b, cfg);
    }
    assert ix.Keys == s.indexes.Keys;
  }

  lemma IndexFileKeys(o: Opened)
    ensures IndexFiles(o).Keys == o.closed.Keys + {o.active.base}
  {
    hide EncodeEntries;
  }

  lemma IndexIsEncoded(s: LogState, b: nat, cfg: LogConfig)
    requires Inv(s, cfg) && b in s.indexes
    ensures var ix := IndexFiles(Opened(s.closed, s.active)); b in ix && ix[b] == s.indexes[b]
  {
    HasActiveFile(s, cfg);
    IndexKeys(s, cfg);
    hide Inv, EncodeEntries;
    if b in s.closed {
      var _ := ClosedHolds(s, b, cfg);
    }
  }

  lemma IndexKeys(s: LogState, cfg: LogConfig)
    requires Inv(s, cfg)
    ensures s.indexes.Keys == s.closed.Keys + {s.active.base}
  {
    hide Tiled, ClosedStored, ActiveInv;
  }

  /** Opening a second time, with or without a crash between that lost nothing, finds what the first found. */
  lemma RecoveryIsIdempotent(s: LogState, inflight: seq<Record>, logs: map<nat, LogFile>, indexes: map<nat, seq<byte>>,
                             cfg: LogConfig)
    requires Inv(s, cfg) && s.active.base in s.logs && Admitted(s, inflight, cfg)
    requires CrashImage(s, inflight, logs, indexes, cfg)
    ensures s.active.base in logs && s.start <= s.active.base <= s.start + |s.records|
    ensures var o := OpenFrom(logs.Keys, None, logs, indexes, cfg);
            var records := SurvivingRecords(s, inflight, logs, cfg);
            && o.Ok? && o.value.active.base in logs && o.value.active.size <= |logs[o.value.active.base].bytes|
            && var t := AfterOpen(s.start, records, o.value, logs);
               && t.logs.Keys != {} && OpenFrom(t.logs.Keys, None, t.logs, t.indexes, cfg) == o
               && t.active.base in t.logs && t.active.size <= |t.logs[t.active.base].bytes|
               && AfterOpen(t.start, t.records, o.value, t.logs) == t
  {
    hide OpenFrom, CrashImage, Admitted, SurvivingRecords, Inv;
    Recovery(s, inflight, logs, indexes, cfg);
    var o := OpenFrom(logs.Keys, None, logs, indexes, cfg).value;
    hide AfterOpen;
    var t := AfterOpen(s.start, SurvivingRecords(s, inflight, logs, cfg), o, logs);
    AfterOpenFields(s.start, SurvivingRecords(s, inflight, logs, cfg), o, logs);
    OpenRestores(t, cfg);
  }

  lemma AfterOpenFields(start: nat, records: seq<Record>, o: Opened, logs: map<nat, LogFile>)
    requires o.active.base in logs && o.active.size <= |logs[o.active.base].bytes|
    ensures var t := AfterOpen(start, records, o, logs);
            && t.start == start && t.records == records && t.closed == o.closed && t.active == o.active
            && t.durable == LastOffset(t.active.next) && t.active.base in t.logs
  {
  }

  // ---------------------------------------------------------------- the worst crash

  /** Where the log ends after the crash that loses most: at the last record that is on stable media whole. */
  function SecuredEnd(s: LogState): nat
    requires s.active.base in s.logs
  {
    s.active.base + WholeCount(ActivePart(s), s.logs[s.active.base].synced)
  }

  /** No crash leaves less. */
  lemma SecuredSurvives(s: LogState, inflight: seq<Record>, logs: map<nat, LogFile>, indexes: map<nat, seq<byte>>,
                        cfg: LogConfig)
    requires Inv(s, cfg) && s.active.base in s.logs && CrashImage(s, inflight, logs, indexes, cfg)
    ensures s.active.base in logs && s.start <= s.active.base <= s.start + |s.records|
    ensures SecuredEnd(s) <= s.start + |SurvivingRecords(s, inflight, logs, cfg)|
  {
    hide Inv, WholeCount, SurvivingRecords, ActivePart, EncodeAll, Size, Pos;
    FilesPresent(s, logs, inflight, indexes, cfg);
    SurvivorsCount(s, inflight, logs, cfg);
    var rs, n := ActivePart(s), |logs[s.active.base].bytes|;
    var k := WholeCount(rs, s.logs[s.active.base].synced);
    assert (rs + inflight)[..k] == rs[..k];
    assert Pos(rs + inflight, k) == Pos(rs, k) by { PosOfJoin(rs, inflight, k); }
    WholeCountOfAll(rs + inflight, k, n, cfg.crc);
  }

  lemma PosOfJoin(rs: seq<Record>, more: seq<Record>, k: nat)
    requires k <= |rs|
    ensures Pos(rs + more, k) == Pos(rs, k)
  {
    hide Size;
    assert (rs + more)[..k] == rs[..k];
  }

  /** Some crash leaves no more. */
  lemma WorstCrash(s: LogState, cfg: LogConfig) returns (logs: map<nat, LogFile>, indexes: map<nat, seq<byte>>)
    requires Inv(s, cfg) && s.active.base in s.logs
    ensures CrashImage(s, [], logs, indexes, cfg)
    ensures s.active.base in logs && s.start <= s.active.base <= s.start + |s.records|
    ensures s.start + |SurvivingRecords(s, [], logs, cfg)| == SecuredEnd(s)
  {
    hide Inv, WholeCount, SurvivingRecords, ActivePart, EncodeAll, Size, Pos;
    var f := s.logs[s.active.base];
    ActiveFile(s, cfg);
    logs, indexes := s.logs[s.active.base := LogFile(f.bytes[..f.synced], f.synced)], map[];
    AllBases(s, cfg);
    forall b | b in s.closed
      ensures b in s.logs && b != s.active.base && Survives(s.logs[b].bytes, s.logs[b].synced, s.logs[b])
    {
      var all := ClosedHolds(s, b, cfg);
      ClosedInPlace(s, b, cfg);
    }
    assert Intended(s, [], cfg) == ActivePart(s);
    assert CrashImage(s, [], logs, indexes, cfg);
    FilesPresent(s, logs, [], indexes, cfg);
    SurvivorsCount(s, [], logs, cfg);
  }

  lemma ActiveFile(s: LogState, cfg: LogConfig)
    requires Inv(s, cfg)
    ensures s.active.base in s.logs
    ensures s.logs[s.active.base].bytes == EncodeAll(ActivePart(s), cfg.crc)
    ensures s.logs[s.active.base].synced <= |s.logs[s.active.base].bytes|
  {
    hide Tiled, ClosedStored, EncodeAll, EncodeEntries, ActivePart, IndexOf, Run, Size, Sound, DurableIsSynced;
    FilesHaveActive(s);
  }
}
