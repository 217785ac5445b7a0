/** What recovering, reading and locating in one segment compute, as functions of the file's bytes, and
    what these functions give on a file that appends have written. */
module SegmentSpec {
  import opened Wrappers
  import opened Bytes
  import opened RecordCodec
  import opened Config
  import opened Layout

  /** The in-memory fields of a segment. */
  datatype SegView = SegView(base: nat, next: nat, size: nat, since: nat, entries: seq<Entry>)

  // ---------------------------------------------------------------- recovery

  datatype ScanStart = ScanStart(entries: seq<Entry>, pos: nat, rel: nat, rebuild: bool)

  /** Where the recovery scan begins: at 0 when the index is rebuilt, else at the last entry. */
  function StartOf(idx: Option<seq<byte>>, torn: bool): ScanStart {
    if torn || idx.None? then ScanStart([], 0, 0, true)
    else
      match ParseEntries(idx.value)
      case None => ScanStart([], 0, 0, true)
      case Some(es) =>
        if es == [] then ScanStart(es, 0, 0, false)
        else ScanStart(es, es[|es| - 1].pos, es[|es| - 1].rel, false)
  }

  /** The recovered segment, or the error, for any file and any index file whatever. `torn` says that this
      is the newest segment, where an invalid tail is cut off instead of reported. */
  function Recovered(base: nat, bytes: seq<byte>, idx: Option<seq<byte>>, cfg: LogConfig, torn: bool)
    : (r: Result<SegView, StorageError>)
    ensures r.Ok? ==> r.value.base == base && r.value.size <= |bytes|
    ensures r.Ok? && !torn ==> r.value.size == |bytes|
  {
    var st := StartOf(idx, torn);
    if st.pos > |bytes| then Err(Aborted)
    else RecoveredFrom(base, st, ScanFrom(bytes[st.pos..], base + st.rel, cfg), cfg, torn)
  }

  function RecoveredFrom(base: nat, st: ScanStart, sc: Scan, cfg: LogConfig, torn: bool): Result<SegView,
      StorageError> {
    var next, size := base + st.rel + |sc.records|, st.pos + sc.consumed;
    match sc.stop
    case Discontinuity(found) => Err(CorruptData(found, size))
    case _ =>
      if sc.stop != AtEnd && !torn then Err(CorruptData(next, size))
      else if st.rebuild then
        var x := IndexOf(sc.records, cfg.indexIntervalBytes);
        Ok(SegView(base, next, size, x.since, x.entries))
      else Ok(SegView(base, next, size, sc.consumed, st.entries))
  }

  // ---------------------------------------------------------------- reading

  /** The read loop from `pos`, with `taken` already collected; the error is the position of a bad record. */
  function ReadScan(b: seq<byte>, pos: nat, offset: nat, max: nat, taken: seq<Record>, cfg: LogConfig)
    : Result<seq<Record>, nat>
    requires pos <= |b|
    decreases |b| - pos
  {
    match Decode(b[pos..], cfg.maxRecordBytes, cfg.crc)
    case Decoded(r, n) =>
      if r.offset < offset then ReadScan(b, pos + n, offset, max, taken, cfg)
      else if taken != [] && Size(taken) + n > max then Ok(taken)
      else if Size(taken) + n >= max then Ok(taken + [r])
      else ReadScan(b, pos + n, offset, max, taken + [r], cfg)
    case Incomplete => Ok(taken)
    case Corrupt(_) => Err(pos)
  }

  /** Distance from the start of `b` to the record at `offset`. */
  function Locate(b: seq<byte>, pos: nat, offset: nat, cfg: LogConfig): Result<nat, nat>
    requires pos <= |b|
    decreases |b| - pos
  {
    match Decode(b[pos..], cfg.maxRecordBytes, cfg.crc)
    case Decoded(r, n) => if r.offset == offset then Ok(pos) else Locate(b, pos + n, offset, cfg)
    case _ => Err(pos)
  }

  /** The position a read or a lookup of `offset` starts scanning from. */
  function StartPos(v: SegView, offset: nat): nat
    requires v.base <= offset
  {
    match Lookup(v.entries, AsU32(offset - v.base))
    case None => 0
    case Some(e) => e.pos
  }

  /** `Segment::read_from`, for any file. */
  function ReadSpec(v: SegView, bytes: seq<byte>, offset: nat, max: nat, cfg: LogConfig)
    : Result<seq<Record>, StorageError>
  {
    if offset < v.base || offset >= v.next then Ok([])
    else
      var start := StartPos(v, offset);
      if start > v.size || v.size > |bytes| then Err(Aborted)
      else
        match ReadScan(bytes[start..v.size], 0, offset, max, [], cfg)
        case Ok(rs) => Ok(rs)
        case Err(p) => Err(CorruptData(v.next, start + p))
  }

  /** `Segment::position_of`, for any file. */
  function PositionSpec(v: SegView, bytes: seq<byte>, offset: nat, cfg: LogConfig): Result<nat, StorageError> {
    if offset < v.base || offset > v.next then Err(OffsetOutOfRange(offset))
    else if offset == v.next then Ok(v.size)
    else
      var start := StartPos(v, offset);
      if start > v.size || v.size > |bytes| then Err(Aborted)
      else
        match Locate(bytes[start..v.size], 0, offset, cfg)
        case Ok(p) => Ok(start + p)
        case Err(p) => Err(CorruptData(offset, start + p))
  }

  // ---------------------------------------------------------------- a good segment

  /** The segment and its file hold exactly the run `rs`. Its index may have lost any of its entries. */
  ghost predicate Holds(v: SegView, bytes: seq<byte>, rs: seq<Record>, cfg: LogConfig) {
    && Run(rs, v.base, cfg)
    && Size(rs) <= ONE_GIB
    && bytes == EncodeAll(rs, cfg.crc)
    && v.next == v.base + |rs|
    && v.size == Size(rs)
    && Sound(v.entries, rs)
  }

  /** `out` is the longest start of `rs` within the budget, or a single record when none fits. */
  ghost predicate BudgetedRun(out: seq<Record>, rs: seq<Record>, max: nat) {
    && out != [] && out <= rs
    && (|out| == 1 || Size(out) <= max)
    && (|out| == |rs| || Size(rs[..|out| + 1]) > max)
  }

  /** At most one list of records is a budgeted run: the predicate determines what a read returns. */
  lemma BudgetedRunUnique(a: seq<Record>, b: seq<Record>, rs: seq<Record>, max: nat, crc: Checksum)
    requires BudgetedRun(a, rs, max) && BudgetedRun(b, rs, max)
    ensures a == b
  {
    if |a| < |b| {
      NotLonger(a, b, rs, max, crc);
    } else if |b| < |a| {
      NotLonger(b, a, rs, max, crc);
    }
  }

  lemma NotLonger(a: seq<Record>, b: seq<Record>, rs: seq<Record>, max: nat, crc: Checksum)
    requires BudgetedRun(a, rs, max) && BudgetedRun(b, rs, max)
    ensures |a| >= |b|
  {
    if |a| < |b| {
      assert b == rs[..|b|];
      PosGrows(rs, |a| + 1, |b|, crc);
    }
  }

  /** A scan for `offset` starts at some record at or before it. */
  lemma StartIsRecord(v: SegView, rs: seq<Record>, offset: nat) returns (i: nat)
    requires Sound(v.entries, rs) && Size(rs) <= ONE_GIB && v.base <= offset < v.base + |rs|
    ensures i <= offset - v.base < |rs| && StartPos(v, offset) == Pos(rs, i)
  {
    SizeBoundsCount(rs);
    hide Size;
    assert AsU32(offset - v.base) == offset - v.base;
    match Lookup(v.entries, AsU32(offset - v.base)) {
      case None =>
        i := 0;
        NoRecordsNoBytes(rs);
      case Some(e) =>
        i := e.rel;
    }
  }

  lemma NoRecordsNoBytes(rs: seq<Record>)
    ensures Pos(rs, 0) == 0
  {
  }

  lemma Start(v: SegView, bytes: seq<byte>, rs: seq<Record>, cfg: LogConfig, offset: nat) returns (i: nat)
    requires Holds(v, bytes, rs, cfg) && v.base <= offset < v.next
    ensures i <= offset - v.base < |rs| && StartPos(v, offset) == Pos(rs, i) <= v.size <= |bytes|
    ensures bytes[StartPos(v, offset)..v.size] == EncodeAll(rs[i..], cfg.crc)
  {
    i := StartIsRecord(v, rs, offset);
    hide StartPos, EncodeAll, Size;
    Split(rs, i, cfg.crc);
    assert bytes[Pos(rs, i)..v.size] == bytes[Pos(rs, i)..];
  }

  /** `read_from` on a good segment, whatever entries its index kept: the budgeted run from the offset. */
  lemma ReadIsRun(v: SegView, bytes: seq<byte>, rs: seq<Record>, offset: nat, max: nat, cfg: LogConfig)
    requires Validate(cfg) && Holds(v, bytes, rs, cfg) && v.base <= offset < v.next
    ensures ReadSpec(v, bytes, offset, max, cfg).Ok?
    ensures BudgetedRun(ReadSpec(v, bytes, offset, max, cfg).value, rs[offset - v.base..], max)
  {
    hide StartPos, EncodeAll, BudgetedRun, ReadScan, Size;
    var i := Start(v, bytes, rs, cfg, offset);
    SuffixRun(rs, v.base, i, cfg);
    ReadFromRecord(rs[i..], v.base + i, offset - v.base - i, max, cfg);
    assert rs[i..][offset - v.base - i..] == rs[offset - v.base..];
  }

  lemma SuffixRun(rs: seq<Record>, base: nat, i: nat, cfg: LogConfig)
    requires Run(rs, base, cfg) && i <= |rs|
    ensures Run(rs[i..], base + i, cfg)
  {
  }

  lemma ReadFromRecord(rs: seq<Record>, base: nat, j: nat, max: nat, cfg: LogConfig)
    requires Validate(cfg) && Run(rs, base, cfg) && j < |rs|
    ensures var o := ReadScan(EncodeAll(rs, cfg.crc), 0, base + j, max, [], cfg);
            o.Ok? && BudgetedRun(o.value, rs[j..], max)
  {
    hide EncodeAll, BudgetedRun, ReadScan, Size;
    NoRecordsNoBytes(rs);
    ReadSkips(rs, base, 0, j, max, cfg);
    assert rs[j..j] == [];
    ReadTakes(rs, base, j, j, max, cfg);
  }

  /** The part of the scan before `offset`. */
  lemma {:induction false} ReadSkips(rs: seq<Record>, base: nat, m: nat, j: nat, max: nat, cfg: LogConfig)
    requires Validate(cfg) && Run(rs, base, cfg) && m <= j < |rs|
    ensures Pos(rs, m) <= Size(rs) && Pos(rs, j) <= Size(rs)
    ensures ReadScan(EncodeAll(rs, cfg.crc), Pos(rs, m), base + j, max, [], cfg)
            == ReadScan(EncodeAll(rs, cfg.crc), Pos(rs, j), base + j, max, [], cfg)
    decreases j - m
  {
    hide EncodeAll, Decode, Size;
    Split(rs, m, cfg.crc);
    Split(rs, j, cfg.crc);
    if m < j {
      DecodeAt(rs, base, m, cfg);
      ReadSkips(rs, base, m + 1, j, max, cfg);
    }
  }

  /** The part of the scan from `offset` on, with `rs[j..m]` already taken. */
  lemma {:induction false} ReadTakes(rs: seq<Record>, base: nat, j: nat, m: nat, max: nat, cfg: LogConfig)
    requires Validate(cfg) && Run(rs, base, cfg) && j <= m <= |rs| && j < |rs|
    requires m > j ==> Size(rs[j..m]) < max
    ensures Pos(rs, m) <= Size(rs)
    ensures var o := ReadScan(EncodeAll(rs, cfg.crc), Pos(rs, m), base + j, max, rs[j..m], cfg);
            o.Ok? && BudgetedRun(o.value, rs[j..], max)
    decreases |rs| - m
  {
    hide EncodeAll, Decode, Size, EncodedLen, BudgetedRun;
    Split(rs, m, cfg.crc);
    if m == |rs| {
      DecodeNothing(cfg);
      assert rs[..m] == rs;
      TakenAll(rs, j, max);
    } else {
      DecodeAt(rs, base, m, cfg);
      var r := rs[m];
      TakeOne(rs, j, m, cfg.crc);
      assert rs[j..m] + [r] == rs[j..m + 1];
      if m > j && Size(rs[j..m]) + EncodedLen(r) > max {
        TakenBefore(rs, j, m, max);
      } else if Size(rs[j..m]) + EncodedLen(r) >= max {
        TakenHere(rs, j, m, max, cfg.crc);
      } else {
        ReadTakes(rs, base, j, m + 1, max, cfg);
      }
    }
  }

  lemma TakeOne(rs: seq<Record>, j: nat, m: nat, crc: Checksum)
    requires j <= m < |rs|
    ensures Size(rs[j..m + 1]) == Size(rs[j..m]) + EncodedLen(rs[m])
  {
    PosStep(rs[j..], m - j, crc);
    assert rs[j..][..m - j] == rs[j..m];
    assert rs[j..][..m - j + 1] == rs[j..m + 1];
  }

  lemma TakenAll(rs: seq<Record>, j: nat, max: nat)
    requires j < |rs| && Size(rs[j..]) < max
    ensures rs[j..|rs|] == rs[j..] && BudgetedRun(rs[j..|rs|], rs[j..], max)
  {
  }

  lemma TakenBefore(rs: seq<Record>, j: nat, m: nat, max: nat)
    requires j < m < |rs| && Size(rs[j..m]) < max && Size(rs[j..m + 1]) > max
    ensures BudgetedRun(rs[j..m], rs[j..], max)
  {
    hide Size;
    assert rs[j..][..m - j + 1] == rs[j..m + 1];
    assert rs[j..m] == rs[j..][..m - j];
  }

  lemma TakenHere(rs: seq<Record>, j: nat, m: nat, max: nat, crc: Checksum)
    requires j <= m < |rs| && max <= Size(rs[j..m + 1]) && (m > j ==> Size(rs[j..m + 1]) <= max)
    ensures BudgetedRun(rs[j..m + 1], rs[j..], max)
  {
    hide Size;
    assert rs[j..][..m - j + 1] == rs[j..m + 1];
    if m + 1 < |rs| {
      TakeOne(rs, j, m + 1, crc);
      assert rs[j..][..m - j + 2] == rs[j..m + 2];
    }
  }

  /** `position_of` on a good segment, whatever entries its index kept: where the record starts. */
  lemma PositionIsPos(v: SegView, bytes: seq<byte>, rs: seq<Record>, offset: nat, cfg: LogConfig)
    requires Validate(cfg) && Holds(v, bytes, rs, cfg) && v.base <= offset <= v.next
    ensures PositionSpec(v, bytes, offset, cfg) == Ok(Pos(rs, offset - v.base))
  {
    hide StartPos, EncodeAll, Locate, Size;
    if offset == v.next {
      assert rs[..|rs|] == rs;
    } else {
      var i := Start(v, bytes, rs, cfg, offset);
      SuffixRun(rs, v.base, i, cfg);
      NoRecordsNoBytes(rs[i..]);
      LocateFinds(rs[i..], v.base + i, 0, offset - v.base - i, cfg);
      PosOfSuffix(rs, i, offset - v.base - i, cfg.crc);
    }
  }

  lemma PosOfSuffix(rs: seq<Record>, i: nat, j: nat, crc: Checksum)
    requires i + j <= |rs|
    ensures Pos(rs, i + j) == Pos(rs, i) + Pos(rs[i..], j)
  {
    hide Size;
    assert rs[..i + j] == rs[..i] + rs[i..][..j];
    EncodeAllAppend(rs[..i], rs[i..][..j], crc);
  }

  lemma {:induction false} LocateFinds(rs: seq<Record>, base: nat, m: nat, j: nat, cfg: LogConfig)
    requires Validate(cfg) && Run(rs, base, cfg) && m <= j < |rs|
    ensures Pos(rs, m) <= Size(rs)
    ensures Locate(EncodeAll(rs, cfg.crc), Pos(rs, m), base + j, cfg) == Ok(Pos(rs, j))
    decreases j - m
  {
    hide EncodeAll, Decode, Size;
    Split(rs, m, cfg.crc);
    DecodeAt(rs, base, m, cfg);
    if m < j {
      LocateFinds(rs, base, m + 1, j, cfg);
    }
  }
}
