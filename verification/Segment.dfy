/** One segment: a log file, its sparse index and the counters kept in memory (src/storage/segment.rs). */
module SegmentFile {
  import opened Wrappers
  import opened Bytes
  import opened RecordCodec
  import opened Config
  import opened Disk
  import opened Layout
  import opened Index
  import opened SegmentSpec

  /** The contents of the index file, if there is one. */
  function IndexFile(indexes: map<nat, seq<byte>>, base: nat): Option<seq<byte>> {
    if base in indexes then Some(indexes[base]) else None
  }

  /** What recovery leaves in the log file: cut to the valid part, and synced if it was cut. */
  function TrimmedTo(f: LogFile, size: nat): LogFile
    requires size <= |f.bytes|
  {
    if size < |f.bytes| then LogFile(f.bytes[..size], size) else f
  }

  function ViewAfterAppend(v: SegView, r: Record, cfg: LogConfig): SegView
    requires v.base <= r.offset
  {
    var x := IndexStep(Indexed(v.entries, v.since), r.offset - v.base, v.size, EncodedLen(r), cfg.indexIntervalBytes);
    SegView(v.base, v.next + 1, v.size + EncodedLen(r), x.since, x.entries)
  }

  class Segment {
    const disk: Directory
    const baseOffset: nat
    const index: SparseIndex
    var nextOffset: nat
    var size: nat
    var bytesSinceIndex: nat

    function View(): SegView
      reads this, index
    {
      SegView(baseOffset, nextOffset, size, bytesSinceIndex, index.entries)
    }

    lemma ViewFields()
      ensures View().base == baseOffset && View().next == nextOffset && View().size == size
    {
    }

    /** The segment and its index write to the same directory under the same name. */
    ghost predicate Wired(disk: Directory) {
      this.disk == disk && index.disk == disk && index.base == baseOffset
    }

    constructor Of(disk: Directory, index: SparseIndex, next: nat, size: nat, since: nat)
      requires index.disk == disk
      ensures Wired(disk) && this.index == index
      ensures View() == SegView(index.base, next, size, since, index.entries)
    {
      this.disk, this.baseOffset, this.index := disk, index.base, index;
      nextOffset, this.size, bytesSinceIndex := next, size, since;
    }

    /** A new, empty segment; fails when the log file is already there. */
    static method Create(disk: Directory, base: nat) returns (r: Result<Segment, StorageError>)
      modifies disk
      ensures r.Err? <==> base in old(disk.logs)
      ensures r.Err? ==> r.error == Io && disk.logs == old(disk.logs) && disk.indexes == old(disk.indexes)
      ensures r.Ok? ==>
                && fresh(r.value) && fresh(r.value.index) && r.value.Wired(disk) && r.value.index.Valid()
                && r.value.View() == SegView(base, base, 0, 0, [])
                && disk.logs == old(disk.logs)[base := LogFile([], 0)]
                && disk.indexes == old(disk.indexes)[base := []]
    {
      var ok := disk.CreateLog(base);
      if !ok {
        return Err(Io);
      }
      var index := new SparseIndex.Create(disk, base);
      var s := new Segment.Of(disk, index, base, 0, 0);
      return Ok(s);
    }

    /** Opens the index, or starts a new one when it cannot be trusted; returns where to scan from. */
    static method OpenIndex(disk: Directory, base: nat, torn: bool) returns (index: SparseIndex, st: ScanStart)
      modifies disk
      ensures fresh(index) && index.Valid() && index.disk == disk && index.base == base
      ensures st == StartOf(IndexFile(old(disk.indexes), base), torn) && index.entries == st.entries
      ensures disk.logs == old(disk.logs)
      ensures disk.indexes == old(disk.indexes)[base := EncodeEntries(index.entries)]
    {
      hide ParseEntries;
      if torn {
        index := new SparseIndex.Create(disk, base);
        st := ScanStart([], 0, 0, true);
      } else {
        var loaded := SparseIndex.Load(disk, base);
        if loaded.None? {
          index := new SparseIndex.Create(disk, base);
          st := ScanStart([], 0, 0, true);
        } else {
          index := loaded.value;
          if index.entries == [] {
            st := ScanStart(index.entries, 0, 0, false);
          } else {
            var last := index.entries[|index.entries| - 1];
            st := ScanStart(index.entries, last.pos, last.rel, false);
          }
        }
      }
    }

    /** Validates the file from the start point on, record by record, rebuilding the index on the way. */
    static method ScanFile(disk: Directory, index: SparseIndex, buf: seq<byte>, st: ScanStart, cfg: LogConfig)
      returns (next: nat, validEnd: nat, since: nat, stop: Stop, ghost records: seq<Record>)
      requires index.Valid() && index.disk == disk && index.entries == st.entries
      requires st.rebuild ==> st.pos == 0 && st.rel == 0 && st.entries == []
      modifies disk, index
      ensures index.Valid() && disk.logs == old(disk.logs)
      ensures disk.indexes == old(disk.indexes)[index.base := EncodeEntries(index.entries)]
      ensures validEnd >= st.pos && next == index.base + st.rel + |records|
      ensures ScanFrom(buf, index.base + st.rel, cfg) == Scan(records, validEnd - st.pos, stop)
      ensures IndexedBy(st, records, index.entries, since, validEnd - st.pos, cfg)
    {
      hide Decode, EncodedLen, ScanFrom, IndexOf, EncodeEntries, Size, IndexedBy, SameScan, IndexStep;
      var pos := 0;
      next, since, records := index.base + st.rel, 0, [];
      stop := AtEnd;
      ScanStarts(buf, next, st, cfg);
      while true
        invariant 0 <= pos <= |buf|
        invariant next == index.base + st.rel + |records|
        invariant Size(records) == pos
        invariant SameScan(ScanFrom(buf, index.base + st.rel, cfg), records, pos, ScanFrom(buf[pos..], next, cfg))
        invariant index.Valid() && disk.logs == old(disk.logs)
        invariant disk.indexes == old(disk.indexes)[index.base := EncodeEntries(index.entries)]
        invariant IndexedBy(st, records, index.entries, since, pos, cfg)
        decreases |buf| - pos
      {
        ScanStep(buf, pos, next, cfg);
        ghost var whole := ScanFrom(buf, index.base + st.rel, cfg);
        ghost var entries, bytes := index.entries, since;
        match Decode(buf[pos..], cfg.maxRecordBytes, cfg.crc) {
          case Decoded(record, consumed) =>
            if record.offset != next {
              stop := Discontinuity(record.offset);
              break;
            }
            SameScanLater(whole, records, pos, ScanFrom(buf[pos..], next, cfg), [record], consumed,
                          ScanFrom(buf[pos + consumed..], next + 1, cfg));
            if st.rebuild {
              since := index.AppendIfDue(since, record.offset - index.base, pos, consumed, cfg.indexIntervalBytes);
            } else {
              since := since + consumed;
            }
            IndexedOneMore(st, records, record, entries, bytes, index.entries, since, pos, cfg);
            records := records + [record];
            next, pos := next + 1, pos + consumed;
          case Incomplete =>
            stop := if pos == |buf| then AtEnd else Torn;
            break;
          case Corrupt(_) =>
            stop := Bad;
            break;
        }
      }
      SameScanEnds(ScanFrom(buf, index.base + st.rel, cfg), records, pos, stop);
      validEnd := st.pos + pos;
    }

    /** Reopens a segment from whatever its files hold. `torn` is true only for the newest segment, whose
        invalid tail is cut off; in any other segment an invalid record is an error. */
    static method Recover(disk: Directory, base: nat, cfg: LogConfig, torn: bool)
      returns (r: Result<Segment, StorageError>)
      requires base in disk.logs
      modifies disk
      ensures var spec := Recovered(base, old(disk.logs)[base].bytes, IndexFile(old(disk.indexes), base), cfg, torn);
              match spec
              case Err(e) => r == Err(e) && disk.logs == old(disk.logs)
              case Ok(v) =>
                && r.Ok? && fresh(r.value) && fresh(r.value.index)
                && r.value.Wired(disk) && r.value.index.Valid() && r.value.View() == v
                && disk.logs == old(disk.logs)[base := TrimmedTo(old(disk.logs)[base], v.size)]
                && disk.indexes == old(disk.indexes)[base := EncodeEntries(v.entries)]
    {
      hide ScanFrom, IndexOf, EncodeEntries, ParseEntries;
      var bytes := disk.logs[base].bytes;
      var index, st := OpenIndex(disk, base, torn);
      if st.pos > |bytes| {
        return Err(Aborted);
      }
      var next, validEnd, since, stop;
      ghost var records;
      next, validEnd, since, stop, records := ScanFile(disk, index, bytes[st.pos..], st, cfg);
      if stop.Discontinuity? {
        return Err(CorruptData(stop.found, validEnd));
      }
      if stop != AtEnd && !torn {
        return Err(CorruptData(next, validEnd));
      }
      if validEnd < |bytes| {
        disk.SetLenAndFsync(base, validEnd);
      }
      var s := new Segment.Of(disk, index, next, validEnd, since);
      return Ok(s);
    }

    /** Appends one record; the caller assigns offsets and decides when to flush. */
    method Append(record: Record, cfg: LogConfig) returns (written: nat)
      requires Wired(disk) && index.Valid() && baseOffset in disk.logs
      requires record.offset == nextOffset >= baseOffset
      modifies this, index, disk
      ensures index.Valid() && View() == ViewAfterAppend(old(View()), record, cfg)
      ensures written == EncodedLen(record) && nextOffset == old(nextOffset) + 1 && size == old(size) + written
      ensures if old(bytesSinceIndex) >= cfg.indexIntervalBytes
              then index.entries == old(index.entries) + [Entry(AsU32(record.offset - baseOffset), AsU32(old(size)))]
                   && bytesSinceIndex == written
              else index.entries == old(index.entries) && bytesSinceIndex == old(bytesSinceIndex) + written
      ensures disk.logs == old(disk.logs)[baseOffset :=
                LogFile(old(disk.logs)[baseOffset].bytes + Encode(record, cfg.crc), old(disk.logs)[baseOffset].synced)]
      ensures disk.indexes == old(disk.indexes)[baseOffset := EncodeEntries(index.entries)]
    {
      hide Encode, EncodedLen, EncodeEntries;
      var buf := new ByteVec();
      EncodeInto(record, cfg.crc, buf);
      assert buf.data == Encode(record, cfg.crc);
      bytesSinceIndex := index.AppendIfDue(bytesSinceIndex, record.offset - baseOffset, size, |buf.data|,
                                           cfg.indexIntervalBytes);
      disk.AppendLog(baseOffset, buf.data);
      size := size + |buf.data|;
      nextOffset := nextOffset + 1;
      written := |buf.data|;
    }

    method Flush()
      requires baseOffset in disk.logs
      modifies disk
      ensures disk.indexes == old(disk.indexes)
      ensures disk.logs == old(disk.logs)[baseOffset :=
                LogFile(old(disk.logs)[baseOffset].bytes, |old(disk.logs)[baseOffset].bytes|)]
    {
      disk.Fsync(baseOffset);
    }

    /** The byte position a scan for `offset` starts from. */
    method StartOfScan(offset: nat) returns (start: nat)
      requires baseOffset <= offset
      ensures start == StartPos(View(), offset)
    {
      var e := Lookup(index.entries, AsU32(offset - baseOffset));
      start := match e case None => 0 case Some(entry) => entry.pos;
    }

    /** Records from `offset`, up to roughly `maxBytes` of them, at least one. */
    method ReadFrom(offset: nat, maxBytes: nat, cfg: LogConfig) returns (r: Result<seq<Record>, StorageError>)
      requires baseOffset in disk.logs
      ensures r == ReadSpec(View(), disk.logs[baseOffset].bytes, offset, maxBytes, cfg)
    {
      hide Decode, EncodedLen, StartPos, Lookup;
      if offset < baseOffset || offset >= nextOffset {
        return Ok([]);
      }
      var start := StartOfScan(offset);
      var bytes := disk.logs[baseOffset].bytes;
      if start > size || size > |bytes| {
        return Err(Aborted);
      }
      var buf := bytes[start..size];
      var pos, outBytes, out := 0, 0, [];
      while true
        invariant 0 <= pos <= |buf| && outBytes == Size(out)
        invariant ReadScan(buf, pos, offset, maxBytes, out, cfg) == ReadScan(buf, 0, offset, maxBytes, [], cfg)
        decreases |buf| - pos
      {
        match Decode(buf[pos..], cfg.maxRecordBytes, cfg.crc) {
          case Decoded(record, consumed) =>
            SizeOfPush(out, record, cfg);
            if record.offset >= offset {
              if out != [] && outBytes + consumed > maxBytes {
                break;
              }
              outBytes := outBytes + consumed;
              out := out + [record];
              if outBytes >= maxBytes {
                break;
              }
            }
            pos := pos + consumed;
          case Incomplete =>
            break;
          case Corrupt(_) =>
            return Err(CorruptData(nextOffset, start + pos));
        }
      }
      return Ok(out);
    }

    /** Byte position where the record at `offset` starts; `size` for the position past the last one. */
    method PositionOf(offset: nat, cfg: LogConfig) returns (r: Result<nat, StorageError>)
      requires baseOffset in disk.logs
      ensures r == PositionSpec(View(), disk.logs[baseOffset].bytes, offset, cfg)
    {
      hide Decode, StartPos, Lookup;
      if offset < baseOffset || offset > nextOffset {
        return Err(OffsetOutOfRange(offset));
      }
      if offset == nextOffset {
        return Ok(size);
      }
      var start := StartOfScan(offset);
      var bytes := disk.logs[baseOffset].bytes;
      if start > size || size > |bytes| {
        return Err(Aborted);
      }
      var buf := bytes[start..size];
      var pos := 0;
      while true
        invariant 0 <= pos <= |buf|
        invariant Locate(buf, pos, offset, cfg) == Locate(buf, 0, offset, cfg)
        decreases |buf| - pos
      {
        match Decode(buf[pos..], cfg.maxRecordBytes, cfg.crc) {
          case Decoded(record, consumed) =>
            if record.offset == offset {
              return Ok(start + pos);
            }
            pos := pos + consumed;
          case _ =>
            return Err(CorruptData(offset, start + pos));
        }
      }
    }
  }

  lemma SizeOfPush(rs: seq<Record>, r: Record, cfg: LogConfig)
    ensures Size(rs + [r]) == Size(rs) + EncodedLen(r)
  {
    IndexGrows(rs, r, 1);
  }

  ghost predicate SameScan(whole: Scan, done: seq<Record>, pos: nat, rest: Scan) {
    whole == Scan(done + rest.records, pos + rest.consumed, rest.stop)
  }

  /** The index after a scan: rebuilt from the records scanned, or as it was loaded. */
  ghost predicate IndexedBy(st: ScanStart, records: seq<Record>, entries: seq<Entry>, since: nat, bytes: nat,
                            cfg: LogConfig) {
    if st.rebuild then IndexOf(records, cfg.indexIntervalBytes) == Indexed(entries, since)
    else entries == st.entries && since == bytes
  }

  lemma SameScanLater(whole: Scan, done: seq<Record>, pos: nat, rest: Scan, more: seq<Record>, n: nat, later: Scan)
    requires SameScan(whole, done, pos, rest) && SameScan(rest, more, n, later)
    ensures SameScan(whole, done + more, pos + n, later)
  {
    assert done + (more + later.records) == done + more + later.records;
  }

  lemma SameScanEnds(whole: Scan, done: seq<Record>, pos: nat, stop: Stop)
    requires SameScan(whole, done, pos, Scan([], 0, stop))
    ensures whole == Scan(done, pos, stop)
  {
    assert done + [] == done;
  }

  lemma IndexedOneMore(st: ScanStart, records: seq<Record>, r: Record, entries: seq<Entry>, since: nat,
                       newEntries: seq<Entry>, newSince: nat, pos: nat, cfg: LogConfig)
    requires IndexedBy(st, records, entries, since, pos, cfg) && Size(records) == pos
    requires if st.rebuild
             then Indexed(newEntries, newSince)
                  == IndexStep(Indexed(entries, since), |records|, pos, EncodedLen(r), cfg.indexIntervalBytes)
             else newEntries == entries && newSince == since + EncodedLen(r)
    ensures IndexedBy(st, records + [r], newEntries, newSince, pos + EncodedLen(r), cfg)
    ensures Size(records + [r]) == pos + EncodedLen(r)
  {
    hide EncodedLen, IndexOf, IndexStep, Size;
    IndexGrows(records, r, cfg.indexIntervalBytes);
  }

  lemma ScanStarts(buf: seq<byte>, next: nat, st: ScanStart, cfg: LogConfig)
    ensures SameScan(ScanFrom(buf, next, cfg), [], 0, ScanFrom(buf[0..], next, cfg)) && Size([]) == 0
    ensures IndexedBy(st, [], st.entries, 0, 0, cfg) || (st.rebuild && st.entries != [])
  {
    hide Decode;
    assert buf[0..] == buf;
  }

  lemma ScanStep(buf: seq<byte>, pos: nat, next: nat, cfg: LogConfig)
    requires pos <= |buf|
    ensures match Decode(buf[pos..], cfg.maxRecordBytes, cfg.crc)
            case Decoded(r, n) =>
              if r.offset != next then ScanFrom(buf[pos..], next, cfg) == Scan([], 0, Discontinuity(r.offset))
              else SameScan(ScanFrom(buf[pos..], next, cfg), [r], n, ScanFrom(buf[pos + n..], next + 1, cfg))
            case Incomplete => ScanFrom(buf[pos..], next, cfg) == Scan([], 0, if pos == |buf| then AtEnd else Torn)
            case Corrupt(_) => ScanFrom(buf[pos..], next, cfg) == Scan([], 0, Bad)
  {
    hide Decode;
    var o := Decode(buf[pos..], cfg.maxRecordBytes, cfg.crc);
    if o.Decoded? {
      assert buf[pos..][o.consumed..] == buf[pos + o.consumed..];
    }
  }

  lemma IndexGrows(rs: seq<Record>, r: Record, interval: nat)
    ensures IndexOf(rs + [r], interval) == IndexStep(IndexOf(rs, interval), |rs|, Size(rs), EncodedLen(r), interval)
    ensures Size(rs + [r]) == Size(rs) + EncodedLen(r)
  {
    hide EncodedLen;
    assert (rs + [r])[..|rs|] == rs;
    EncodeAllAppend(rs, [r], (_: seq<byte>) => 0);
    EncodeAllOne(r, (_: seq<byte>) => 0);
  }
}
