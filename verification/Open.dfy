/** Opening a partition's directory (`Log::open`, src/storage/log.rs). */
module OpenLog {
  import opened Wrappers
  import opened Bytes
  import opened RecordCodec
  import opened Config
  import opened Disk
  import opened Layout
  import opened SegmentSpec
  import opened SegmentFile
  import opened LogSpec
  import opened PartitionLog
  import opened CrashRecovery
  import opened LogBounds

  /** What is left to do is `rest`; the segments of `done` have been recovered before it. */
  function After(done: map<nat, SegView>, rest: Result<Opened, StorageError>): Result<Opened, StorageError> {
    match rest
    case Err(e) => Err(e)
    case Ok(o) => Ok(Opened(done + o.closed, o.active))
  }

  /** What is left after one turn of the loop over the bases. */
  function Turn(keys: set<nat>, expected: Option<nat>, done: map<nat, SegView>, logs: map<nat, LogFile>,
                indexes: map<nat, seq<byte>>, cfg: LogConfig): Result<Opened, StorageError>
    requires keys != {} && keys <= logs.Keys
  {
    var b := Least(keys);
    var rest := keys - {b};
    var r := Recovered(b, logs[b].bytes, IndexFile(indexes, b), cfg, rest == {});
    if r.Err? then Err(r.error)
    else if expected.Some? && b != expected.value then Err(InvalidLayout)
    else if rest == {} then Ok(Opened(done, r.value))
    else After(done[b := r.value], OpenFrom(rest, Some(r.value.next), logs, indexes, cfg))
  }

  lemma OpenStep(keys: set<nat>, expected: Option<nat>, done: map<nat, SegView>, logs: map<nat, LogFile>,
                 indexes: map<nat, seq<byte>>, cfg: LogConfig)
    requires keys != {} && keys <= logs.Keys
    ensures After(done, OpenFrom(keys, expected, logs, indexes, cfg))
            == Turn(keys, expected, done, logs, indexes, cfg)
  {
    hide Recovered;
    var b := Least(keys);
    var rest := keys - {b};
    var r := Recovered(b, logs[b].bytes, IndexFile(indexes, b), cfg, rest == {});
    if r.Ok? && !(expected.Some? && b != expected.value) {
      if rest == {} {
        assert done + map[] == done;
      } else {
        var later := OpenFrom(rest, Some(r.value.next), logs, indexes, cfg);
        if later.Ok? {
          assert done + (map[b := r.value] + later.value.closed) == done[b := r.value] + later.value.closed;
        }
      }
    }
  }

  lemma AfterNothing(r: Result<Opened, StorageError>)
    ensures After(map[], r) == r
  {
    if r.Ok? {
      assert map[] + r.value.closed == r.value.closed;
    }
  }

  /** The index files once the segments of `done` have been recovered. */
  function IndexesWith(indexes: map<nat, seq<byte>>, done: map<nat, SegView>): map<nat, seq<byte>> {
    indexes + map b | b in done :: EncodeEntries(done[b].entries)
  }

  lemma OneMoreIndex(indexes: map<nat, seq<byte>>, done: map<nat, SegView>, b: nat, v: SegView)
    ensures IndexesWith(indexes, done)[b := EncodeEntries(v.entries)] == IndexesWith(indexes, done[b := v])
  {
    hide EncodeEntries;
  }

  lemma SameIndexFile(indexes: map<nat, seq<byte>>, done: map<nat, SegView>, b: nat)
    requires b !in done
    ensures IndexFile(IndexesWith(indexes, done), b) == IndexFile(indexes, b)
  {
    hide EncodeEntries;
  }

  lemma NoIndexesYet(indexes: map<nat, seq<byte>>)
    ensures IndexesWith(indexes, map[]) == indexes
  {
    hide EncodeEntries;
    assert forall b :: b in IndexesWith(indexes, map[]) <==> b in indexes;
  }

  /** The recovered segment objects read as their views say. */
  ghost predicate Reads(disk: Directory, segments: map<nat, Segment>, views: map<nat, SegView>)
    reads set b | b in segments :: segments[b], set b | b in segments :: segments[b].index
  {
    && views.Keys == segments.Keys
    && forall b {:trigger segments[b]} :: b in segments ==>
         segments[b].Wired(disk) && segments[b].baseOffset == b && segments[b].View() == views[b]
  }

  lemma ReadsOneMore(disk: Directory, segments: map<nat, Segment>, views: map<nat, SegView>, s: Segment)
    requires Reads(disk, segments, views) && s.Wired(disk)
    ensures Reads(disk, segments[s.baseOffset := s], views[s.baseOffset := s.View()])
  {
    hide Segment.View;
  }

  datatype Found = Found(closed: map<nat, Segment>, active: Segment)

  /** The segments of a non-empty directory, oldest first. Every one must continue the one before. */
  method RecoverAll(disk: Directory, cfg: LogConfig)
      returns (r: Result<Found, StorageError>, ghost views: map<nat, SegView>)
    requires disk.logs != map[]
    modifies disk
    ensures match OpenFrom(old(disk.logs).Keys, None, old(disk.logs), old(disk.indexes), cfg)
            case Err(e) => r == Err(e)
            case Ok(o) =>
              && r.Ok? && Recalled(disk, r.value.closed, r.value.active, views, o)
              && fresh(r.value.active) && fresh(r.value.active.index)
              && (forall b :: b in r.value.closed ==> fresh(r.value.closed[b]) && fresh(r.value.closed[b].index))
              && o.active.base in old(disk.logs) && o.active.size <= |old(disk.logs)[o.active.base].bytes|
              && disk.logs == old(disk.logs)[o.active.base := TrimmedTo(old(disk.logs)[o.active.base], o.active.size)]
              && disk.indexes == IndexesWith(old(disk.indexes), o.closed[o.active.base := o.active])
  {
    hide Recovered, OpenFrom, Segment.View, EncodeEntries, IndexesWith, Reads, TrimmedTo;
    ghost var logs, indexes := disk.logs, disk.indexes;
    var bases := disk.logs.Keys;
    var closed: map<nat, Segment> := map[];
    var expected: Option<nat> := None;
    views := map[];
    AfterNothing(OpenFrom(bases, None, logs, indexes, cfg));
    NoIndexesYet(indexes);
    assert Reads(disk, closed, views) by { NothingRead(disk); }
    while true
      invariant bases != {} && bases <= logs.Keys && closed.Keys !! bases
      invariant disk.logs == logs && disk.indexes == IndexesWith(indexes, views)
      invariant Reads(disk, closed, views) && closed.Keys == views.Keys
      invariant forall b :: b in closed ==> fresh(closed[b]) && fresh(closed[b].index)
      invariant After(views, OpenFrom(bases, expected, logs, indexes, cfg))
                == OpenFrom(logs.Keys, None, logs, indexes, cfg)
      decreases bases
    {
      var base := Least(bases);
      var rest := bases - {base};
      OpenStep(bases, expected, views, logs, indexes, cfg);
      SameIndexFile(indexes, views, base);
      var seg := Segment.Recover(disk, base, cfg, rest == {});
      if seg.Err? {
        return Err(seg.error), views;
      }
      if expected.Some? && base != expected.value {
        return Err(InvalidLayout), views;
      }
      seg.value.ViewFields();
      OneMoreIndex(indexes, views, base, seg.value.View());
      if rest == {} {
        return Ok(Found(closed, seg.value)), views;
      }
      WholeFileStays(logs, base, seg.value.View().size);
      ReadsOneMore(disk, closed, views, seg.value);
      closed, views := closed[base := seg.value], views[base := seg.value.View()];
      expected := Some(seg.value.nextOffset);
      bases := rest;
    }
  }

  /** The objects found stand for what opening computes. */
  ghost predicate Recalled(disk: Directory, closed: map<nat, Segment>, active: Segment, views: map<nat, SegView>,
                           o: Opened)
    reads set b | b in closed :: closed[b], set b | b in closed :: closed[b].index, active, active.index
  {
    && Reads(disk, closed, views) && views == o.closed
    && active.Wired(disk) && active.View() == o.active && active.baseOffset !in closed
  }

  lemma NothingRead(disk: Directory)
    ensures Reads(disk, map[], map[])
  {
  }

  lemma WholeFileStays(logs: map<nat, LogFile>, base: nat, size: nat)
    requires base in logs && size == |logs[base].bytes|
    ensures logs[base := TrimmedTo(logs[base], size)] == logs
  {
  }

  /** The log of a directory that has no segment yet. */
  method CreateEmpty(disk: Directory, cfg: LogConfig) returns (log: Log)
    requires Validate(cfg) && disk.logs == map[]
    modifies disk
    ensures log.disk == disk && log.config == cfg && fresh(log.Repr - {disk}) && log.dirtyBytes == 0
    ensures old(disk.indexes) == map[] ==> log.Valid() && log.State() == EmptyLog() && log.SegmentsFit()
  {
    hide Segment.View, Validate, Inv;
    var first := Segment.Create(disk, 0);
    log := new Log.Of(disk, cfg, map[], first.value, None, 0, [], map[]);
    first.value.ViewFields();
    EmptyLogIsGood(cfg);
    assert SegmentFits(first.value.View(), cfg);
  }

  lemma EmptyLogIsGood(cfg: LogConfig)
    requires Validate(cfg)
    ensures Inv(EmptyLog(), cfg)
  {
    hide ActiveStored, Validate;
    EmptySegmentStored(0, cfg);
    assert ActivePart(EmptyLog()) == [];
  }

  /** Opens the log in a directory. `start` and `records` say what a good directory stands for. */
  method Open(disk: Directory, cfg: LogConfig, ghost start: nat, ghost records: seq<Record>)
    returns (r: Result<Log, StorageError>)
    modifies disk
    ensures r.Ok? ==> r.value.dirtyBytes == 0
    ensures var sizesOk := 1024 <= cfg.maxSegmentBytes <= 0x4000_0000 && cfg.indexIntervalBytes >= 64
                           && cfg.maxRecordBytes <= 0x4000_0000;
            && (!sizesOk ==>
                  r == Err(InvalidConfig) && disk.logs == old(disk.logs) && disk.indexes == old(disk.indexes))
            && (sizesOk && old(disk.logs) == map[] && old(disk.indexes) == map[] ==>
                  r.Ok? && fresh(r.value.Repr - {disk}) && r.value.disk == disk && r.value.config == cfg
                  && r.value.Valid() && r.value.State() == EmptyLog() && r.value.SegmentsFit())
    ensures Validate(cfg) && old(disk.logs) != map[] ==>
              match OpenFrom(old(disk.logs).Keys, None, old(disk.logs), old(disk.indexes), cfg)
              case Err(e) => r == Err(e)
              case Ok(o) =>
                && r.Ok? && r.value.disk == disk && r.value.config == cfg && r.value.Linked()
                && fresh(r.value.Repr - {disk})
                && o.active.base in old(disk.logs) && o.active.size <= |old(disk.logs)[o.active.base].bytes|
                && (old(disk.indexes.Keys <= disk.logs.Keys && OnlyOpened(o, disk.logs.Keys)) ==>
                      r.value.State() == AfterOpen(start, records, o, old(disk.logs)))
  {
    hide OpenFrom, Segment.View, EncodeEntries, IndexesWith, Reads, TrimmedTo;
    if !Validate(cfg) {
      return Err(InvalidConfig);
    }
    if disk.logs == map[] {
      var log := CreateEmpty(disk, cfg);
      return Ok(log);
    }
    var found;
    ghost var views;
    found, views := RecoverAll(disk, cfg);
    if found.Err? {
      return Err(found.error);
    }
    ghost var o := OpenFrom(old(disk.logs).Keys, None, old(disk.logs), old(disk.indexes), cfg).value;
    found.value.active.ViewFields();
    var log := new Log.Of(disk, cfg, found.value.closed, found.value.active,
                          LastOffset(found.value.active.nextOffset), start, records, views);
    BuiltIsLinked(log);
    if old(disk.indexes.Keys <= disk.logs.Keys && OnlyOpened(o, disk.logs.Keys)) {
      IndexesOfOpened(old(disk.indexes), o);
      ItOpened(log.State(), start, records, o, old(disk.logs));
    }
    return Ok(log);
  }

  lemma BuiltIsLinked(log: Log)
    requires Reads(log.disk, log.closed, log.views) && log.active.Wired(log.disk)
    requires log.active.baseOffset !in log.closed
    requires log.Repr == {log, log.disk, log.active, log.active.index}
                         + (set b | b in log.closed :: log.closed[b] as object)
                         + (set b | b in log.closed :: log.closed[b].index as object)
    ensures log.Linked()
  {
    hide Segment.View;
  }

  lemma IndexesOfOpened(indexes: map<nat, seq<byte>>, o: Opened)
    requires indexes.Keys <= o.closed.Keys + {o.active.base}
    ensures IndexesWith(indexes, o.closed[o.active.base := o.active]) == IndexFiles(o)
  {
    hide EncodeEntries;
    var all := IndexesWith(indexes, o.closed[o.active.base := o.active]);
    forall b ensures b in all <==> b in IndexFiles(o) {
    }
  }

  lemma ItOpened(t: LogState, start: nat, records: seq<Record>, o: Opened, logs: map<nat, LogFile>)
    requires o.active.base in logs && o.active.size <= |logs[o.active.base].bytes|
    requires t.start == start && t.records == records && t.closed == o.closed && t.active == o.active
    requires t.logs == logs[o.active.base := TrimmedTo(logs[o.active.base], o.active.size)]
    requires t.indexes == IndexFiles(o) && t.durable == LastOffset(o.active.next)
    ensures t == AfterOpen(start, records, o, logs)
  {
    hide TrimmedTo, IndexFiles;
  }

  function EmptyLog(): LogState {
    LogState(0, [], map[], SegView(0, 0, 0, 0, []), map[0 := LogFile([], 0)], map[0 := []], None)
  }

  ghost predicate OnlyOpened(o: Opened, keys: set<nat>) {
    o.closed.Keys + {o.active.base} == keys
  }

  /** Opening the files that a crash left of the good log `s`: a good log comes back, holding a prefix of what
      was written with everything durable in it, and all of that is durable now. */
  method OpenAfterCrash(disk: Directory, cfg: LogConfig, ghost s: LogState, ghost inflight: seq<Record>)
    returns (r: Result<Log, StorageError>)
    requires Inv(s, cfg) && s.active.base in s.logs && Admitted(s, inflight, cfg)
    requires CrashImage(s, inflight, disk.logs, disk.indexes, cfg)
    modifies disk
    ensures r.Ok? && r.value.Valid() && r.value.disk == disk && r.value.config == cfg
    ensures fresh(r.value.Repr - {disk})
    ensures r.value.start == s.start && r.value.records <= s.records + inflight
    ensures s.durable.Some? ==> s.durable.value < s.start + |r.value.records|
    ensures r.value.durableOffset == LastOffset(r.value.NextOffset()) && r.value.Bounded()
    ensures |r.value.records| <= |s.records| ==>
              Size(s.records[|r.value.records|..]) <= Size(Unflushed(s.records, s.start, s.durable))
  {
    hide Unflushed, Size;
    hide Inv, CrashImage, Admitted, OpenFrom, SurvivingRecords, AfterOpen, Validate, Segment.View;
    Recovery(s, inflight, disk.logs, disk.indexes, cfg);
    CrashedDirectory(s, inflight, disk.logs, disk.indexes, cfg);
    ghost var records := SurvivingRecords(s, inflight, disk.logs, cfg);
    AfterOpenFields(s.start, records, OpenFrom(disk.logs.Keys, None, disk.logs, disk.indexes, cfg).value, disk.logs);
    r := Open(disk, cfg, s.start, records);
    r.value.active.ViewFields();
    r.value.EndIs();
    AllIsDurable(r.value);
    if |records| <= |s.records| {
      assert records <= s.records;
      LossIsBounded(s.records, s.start, s.durable, records);
    }
  }

  lemma AllIsDurable(log: Log)
    requires log.durableOffset == LastOffset(log.start + |log.records|) && log.dirtyBytes == 0
    ensures log.Bounded()
  {
    UnflushedAfterFlush(log.records, log.start);
    SizeOfNone();
  }

  lemma CrashedDirectory(s: LogState, inflight: seq<Record>, logs: map<nat, LogFile>, indexes: map<nat, seq<byte>>,
                         cfg: LogConfig)
    requires Inv(s, cfg) && s.active.base in s.logs && Admitted(s, inflight, cfg)
    requires CrashImage(s, inflight, logs, indexes, cfg)
    ensures Validate(cfg) && logs != map[] && indexes.Keys <= logs.Keys
    ensures var o := OpenFrom(logs.Keys, None, logs, indexes, cfg);
            o.Ok? && OnlyOpened(o.value, logs.Keys)
  {
    hide OpenFrom, Admitted, FromSomeBase, Recovered, CameBack;
    FilesPresent(s, logs, inflight, indexes, cfg);
    IndexKeys(s, cfg);
    hide Inv;
    OpenComesBack(s, inflight, logs.Keys, None, logs, indexes, cfg);
  }
}
