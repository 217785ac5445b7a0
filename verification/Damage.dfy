/** What a damaged directory gives: bytes that are no record, records out of place and missing segments are found and
    reported, never read past (src/storage/segment.rs, src/storage/log.rs). Pure. */
module Damage {
  import opened Wrappers
  import opened Bytes
  import opened RecordCodec
  import opened Config
  import opened Disk
  import opened Layout
  import opened SegmentSpec
  import opened SegmentFile
  import opened PartitionLog
  import opened Truncation
  import opened CrashRecovery

  // ---------------------------------------------------------------- recovering a damaged segment

  lemma DropFront(a: seq<byte>, b: seq<byte>, c: seq<byte>)
    ensures (a + b) + c == a + (b + c) && (a + (b + c))[|a|..] == b + c
  {
  }

  lemma AllOfFirst(rs: seq<Record>, crc: Checksum)
    requires rs != []
    ensures EncodeAll(rs, crc) == Encode(rs[0], crc) + EncodeAll(rs[1..], crc)
    ensures Size(rs) == EncodedLen(rs[0]) + Size(rs[1..])
  {
    hide Encode, EncodedLen;
  }

  lemma DecodePast(rs: seq<Record>, base: nat, rest: seq<byte>, cfg: LogConfig)
    requires Validate(cfg) && Run(rs, base, cfg) && rs != []
    ensures var b, len := EncodeAll(rs, cfg.crc) + rest, EncodedLen(rs[0]);
            && Decode(b, cfg.maxRecordBytes, cfg.crc) == Decoded(rs[0], len)
            && len <= |b| && b[len..] == EncodeAll(rs[1..], cfg.crc) + rest
  {
    hide Encode, EncodedLen, Decode, EncodeAll, Size, Encodable;
    var r, tail := rs[0], EncodeAll(rs[1..], cfg.crc);
    assert Fits(r, cfg);
    FitsIsEncodable(r, cfg);
    AllOfFirst(rs, cfg.crc);
    DropFront(Encode(r, cfg.crc), tail, rest);
    DecodeInverts(r, tail + rest, cfg.maxRecordBytes, cfg.crc);
  }

  lemma ScanStep(b: seq<byte>, next: nat, cfg: LogConfig)
    ensures var d := Decode(b, cfg.maxRecordBytes, cfg.crc);
            d.Decoded? && d.record.offset == next ==>
              var t := ScanFrom(b[d.consumed..], next + 1, cfg);
              ScanFrom(b, next, cfg) == Scan([d.record] + t.records, d.consumed + t.consumed, t.stop)
  {
    hide Decode;
  }

  /** `w` is a scan that went over `rs` and on as `t` did. */
  ghost predicate WentPast(w: Scan, rs: seq<Record>, t: Scan) {
    w == Scan(rs + t.records, Size(rs) + t.consumed, t.stop)
  }

  lemma OneMorePast(rs: seq<Record>, t: Scan, later: Scan, w: Scan)
    requires rs != [] && WentPast(later, rs[1..], t)
    requires w == Scan([rs[0]] + later.records, EncodedLen(rs[0]) + later.consumed, later.stop)
    ensures WentPast(w, rs, t)
  {
    hide EncodedLen;
    assert [rs[0]] + (rs[1..] + t.records) == rs + t.records;
  }

  lemma PastNothing(t: Scan)
    ensures WentPast(t, [], t)
  {
    assert [] + t.records == t.records;
  }

  /** A scan goes over good records and on with whatever follows them. */
  lemma {:induction false} ScanPast(rs: seq<Record>, base: nat, rest: seq<byte>, cfg: LogConfig)
    requires Validate(cfg) && Run(rs, base, cfg)
    ensures WentPast(ScanFrom(EncodeAll(rs, cfg.crc) + rest, base, cfg), rs, ScanFrom(rest, base + |rs|, cfg))
    decreases |rs|
  {
    hide EncodedLen, Decode, ScanFrom, WentPast;
    var b, t := EncodeAll(rs, cfg.crc) + rest, ScanFrom(rest, base + |rs|, cfg);
    if rs == [] {
      PastNothing(t);
      assert b == rest;
    } else {
      hide EncodeAll, Size;
      DecodePast(rs, base, rest, cfg);
      ScanStep(b, base, cfg);
      ScanPast(rs[1..], base + 1, rest, cfg);
      OneMorePast(rs, t, ScanFrom(EncodeAll(rs[1..], cfg.crc) + rest, base + 1, cfg), ScanFrom(b, base, cfg));
    }
  }

  lemma ScanOfDamage(rest: seq<byte>, next: nat, cfg: LogConfig)
    ensures var t := ScanFrom(rest, next, cfg);
            var d := Decode(rest, cfg.maxRecordBytes, cfg.crc);
            && (d.Decoded? && d.record.offset != next ==> t == Scan([], 0, Discontinuity(d.record.offset)))
            && (!d.Decoded? && rest != [] ==>
                  t.records == [] && t.consumed == 0 && (t.stop == Torn || t.stop == Bad))
  {
    hide Decode;
  }

  /** Where recovery begins to scan: the file from there on holds the records from some record on, and the rest. */
  lemma ScanBegins(rs: seq<Record>, base: nat, rest: seq<byte>, idx: Option<seq<byte>>, cfg: LogConfig, torn: bool)
    returns (i: nat)
    requires Validate(cfg) && Run(rs, base, cfg)
    requires !torn && idx.Some? && ParseEntries(idx.value).Some? ==> Sound(ParseEntries(idx.value).value, rs)
    ensures var st, bytes := StartOf(idx, torn), EncodeAll(rs, cfg.crc) + rest;
            && i <= |rs| && st.rel == i && st.pos == Pos(rs, i) <= |bytes|
            && (st.rebuild ==> i == 0) && (torn ==> st.rebuild)
            && bytes[st.pos..] == EncodeAll(rs[i..], cfg.crc) + rest && Size(rs) == st.pos + Size(rs[i..])
            && Run(rs[i..], base + i, cfg)
  {
    hide EncodeAll, Size, Run, Sound, ParseEntries;
    i := 0;
    NoRecordsNoBytes(rs);
    if !torn {
      i := ScanStartIsRecord(rs, idx);
    }
    Split(rs, i, cfg.crc);
    SuffixRun(rs, base, i, cfg);
    assert (EncodeAll(rs, cfg.crc) + rest)[Pos(rs, i)..] == EncodeAll(rs, cfg.crc)[Pos(rs, i)..] + rest;
  }

  /** Recovery of a segment whose good records are followed by something else. A record out of sequence is an error
      wherever it is found. Anything that is no record is cut off the newest segment, and is an error in a closed
      one. */
  lemma RecoverDamaged(base: nat, rs: seq<Record>, rest: seq<byte>, idx: Option<seq<byte>>, cfg: LogConfig, torn: bool)
    requires Validate(cfg) && Run(rs, base, cfg)
    requires !torn && idx.Some? && ParseEntries(idx.value).Some? ==> Sound(ParseEntries(idx.value).value, rs)
    ensures var o := Recovered(base, EncodeAll(rs, cfg.crc) + rest, idx, cfg, torn);
            var d := Decode(rest, cfg.maxRecordBytes, cfg.crc);
            && (d.Decoded? && d.record.offset != base + |rs| ==> o == Err(CorruptData(d.record.offset, Size(rs))))
            && (!d.Decoded? && rest != [] ==>
                  o == if torn then Ok(Rebuilt(base, rs, cfg)) else Err(CorruptData(base + |rs|, Size(rs))))
  {
    hide ScanFrom, EncodeAll, Size, Run, Sound, ParseEntries, Decode, StartOf, RecoveredFrom, Recovered, Rebuilt,
      WentPast, Pos;
    var i := ScanBegins(rs, base, rest, idx, cfg, torn);
    ScanPast(rs[i..], base + i, rest, cfg);
    var next := base + i + |rs[i..]|;
    assert next == base + |rs|;
    ScanOfDamage(rest, next, cfg);
    var d := Decode(rest, cfg.maxRecordBytes, cfg.crc);
    if if d.Decoded? then d.record.offset != next else rest != [] {
      var st, sc := StartOf(idx, torn), ScanFrom(EncodeAll(rs[i..], cfg.crc) + rest, base + i, cfg);
      StopsThere(base, rs, i, st, sc, ScanFrom(rest, next, cfg), cfg, torn);
      RecoveredIs(base, EncodeAll(rs, cfg.crc) + rest, idx, cfg, torn);
    }
  }

  lemma RecoveredIs(base: nat, bytes: seq<byte>, idx: Option<seq<byte>>, cfg: LogConfig, torn: bool)
    requires StartOf(idx, torn).pos <= |bytes|
    ensures var st := StartOf(idx, torn);
            Recovered(base, bytes, idx, cfg, torn)
            == RecoveredFrom(base, st, ScanFrom(bytes[st.pos..], base + st.rel, cfg), cfg, torn)
  {
    hide StartOf, ScanFrom, RecoveredFrom;
  }

  /** What recovery makes of a scan from record `i` that went over the rest of `rs` and stopped at once. */
  lemma StopsThere(base: nat, rs: seq<Record>, i: nat, st: ScanStart, sc: Scan, t: Scan, cfg: LogConfig, torn: bool)
    requires i <= |rs| && WentPast(sc, rs[i..], t) && t.records == [] && t.consumed == 0 && t.stop != AtEnd
    requires st.rel == i && Size(rs) == st.pos + Size(rs[i..]) && (st.rebuild ==> i == 0) && (torn ==> st.rebuild)
    ensures var o := RecoveredFrom(base, st, sc, cfg, torn);
            if t.stop.Discontinuity? then o == Err(CorruptData(t.stop.found, Size(rs)))
            else o == if torn then Ok(Rebuilt(base, rs, cfg)) else Err(CorruptData(base + |rs|, Size(rs)))
  {
    hide Size, IndexOf;
    assert sc.records == rs[i..];
    assert rs[0..] == rs;
  }

  // ---------------------------------------------------------------- reading a damaged segment

  /** Inside a damaged file, too, each good record is decoded where it starts. */
  lemma DecodeAtIn(rs: seq<Record>, base: nat, m: nat, rest: seq<byte>, cfg: LogConfig)
    requires Validate(cfg) && Run(rs, base, cfg) && m <= |rs|
    ensures var b := EncodeAll(rs, cfg.crc) + rest;
            && Pos(rs, m) <= Size(rs) <= |b|
            && (m == |rs| ==> b[Pos(rs, m)..] == rest)
            && (m < |rs| ==>
                  && Decode(b[Pos(rs, m)..], cfg.maxRecordBytes, cfg.crc) == Decoded(rs[m], EncodedLen(rs[m]))
                  && Pos(rs, m + 1) == Pos(rs, m) + EncodedLen(rs[m]))
  {
    hide EncodeAll, EncodedLen, Decode, Size, Run;
    var b := EncodeAll(rs, cfg.crc) + rest;
    Split(rs, m, cfg.crc);
    assert b[Pos(rs, m)..] == EncodeAll(rs[m..], cfg.crc) + rest;
    if m == |rs| {
      assert rs[..m] == rs;
      assert EncodeAll(rs[m..], cfg.crc) == [];
    } else {
      SuffixRun(rs, base, m, cfg);
      DecodePast(rs[m..], base + m, rest, cfg);
      PosStep(rs, m, cfg.crc);
    }
  }

  /** The part of the scan before the offset. */
  lemma {:induction false} SkipsTo(rs: seq<Record>, base: nat, m: nat, j: nat, max: nat, rest: seq<byte>,
                                   cfg: LogConfig)
    requires Validate(cfg) && Run(rs, base, cfg) && m <= j <= |rs|
    ensures var b := EncodeAll(rs, cfg.crc) + rest;
            && Pos(rs, m) <= |b| && Pos(rs, j) <= |b|
            && ReadScan(b, Pos(rs, m), base + j, max, [], cfg) == ReadScan(b, Pos(rs, j), base + j, max, [], cfg)
    decreases j - m
  {
    hide EncodeAll, Decode, Size;
    DecodeAtIn(rs, base, m, rest, cfg);
    DecodeAtIn(rs, base, j, rest, cfg);
    if m < j {
      SkipsTo(rs, base, m + 1, j, max, rest, cfg);
    }
  }

  /** The part from the offset on, with `rs[j..m]` taken already: the damage is reached unless the budget ends first. */
  lemma {:induction false} TakesTo(rs: seq<Record>, base: nat, j: nat, m: nat, max: nat, rest: seq<byte>,
                                   cfg: LogConfig)
    requires Validate(cfg) && Run(rs, base, cfg) && j <= m <= |rs|
    requires m > j ==> Size(rs[j..m]) < max
    requires Decode(rest, cfg.maxRecordBytes, cfg.crc).Corrupt?
    ensures Pos(rs, m) <= Size(rs)
    ensures var o := ReadScan(EncodeAll(rs, cfg.crc) + rest, Pos(rs, m), base + j, max, rs[j..m], cfg);
            if j == |rs| || Size(rs[j..]) < max then o == Err(Size(rs))
            else o.Ok? && BudgetedRun(o.value, rs[j..], max)
    decreases |rs| - m
  {
    hide EncodeAll, Decode, Size, EncodedLen, BudgetedRun;
    DecodeAtIn(rs, base, m, rest, cfg);
    if m == |rs| {
      assert rs[..m] == rs && rs[j..m] == rs[j..];
    } else {
      var r := rs[m];
      TakeOne(rs, j, m, cfg.crc);
      SizeAtLeast(rs, j, m + 1, cfg.crc);
      assert rs[j..m] + [r] == rs[j..m + 1];
      if m > j && Size(rs[j..m]) + EncodedLen(r) > max {
        TakenBefore(rs, j, m, max);
      } else if Size(rs[j..m]) + EncodedLen(r) >= max {
        TakenHere(rs, j, m, max, cfg.crc);
      } else {
        TakesTo(rs, base, j, m + 1, max, rest, cfg);
      }
    }
  }

  lemma SizeAtLeast(rs: seq<Record>, j: nat, m: nat, crc: Checksum)
    requires j <= m <= |rs|
    ensures Size(rs[j..m]) <= Size(rs[j..])
  {
    hide EncodeAll;
    Split(rs[j..], m - j, crc);
    assert rs[j..][..m - j] == rs[j..m];
  }

  /** A read never passes over corruption: if the budget ends in the good records before it the read gives them, and
      otherwise it fails and says where the corruption is. */
  lemma ReadDamaged(v: SegView, rs: seq<Record>, rest: seq<byte>, offset: nat, max: nat, cfg: LogConfig)
    requires Validate(cfg) && Run(rs, v.base, cfg) && Size(rs) <= ONE_GIB && Sound(v.entries, rs)
    requires Decode(rest, cfg.maxRecordBytes, cfg.crc).Corrupt?
    requires v.base <= offset <= v.base + |rs| < v.next && v.size == Size(rs) + |rest|
    ensures var o, good := ReadSpec(v, EncodeAll(rs, cfg.crc) + rest, offset, max, cfg), rs[offset - v.base..];
            if good == [] || Size(good) < max then o == Err(CorruptData(v.next, Size(rs)))
            else o.Ok? && BudgetedRun(o.value, good, max)
  {
    hide EncodeAll, Decode, Size, Run, Sound, BudgetedRun, ReadScan, Lookup;
    var i := ScanRecord(v, rs, offset);
    var k := offset - v.base;
    var tail := rs[i..];
    Split(rs, i, cfg.crc);
    SuffixRun(rs, v.base, i, cfg);
    var b := EncodeAll(rs, cfg.crc) + rest;
    assert |b| == v.size && b[Pos(rs, i)..v.size] == EncodeAll(tail, cfg.crc) + rest;
    NoRecordsNoBytes(tail);
    SkipsTo(tail, v.base + i, 0, k - i, max, rest, cfg);
    assert tail[k - i..k - i] == [];
    TakesTo(tail, v.base + i, k - i, k - i, max, rest, cfg);
    assert tail[k - i..] == rs[k..];
  }

  lemma ScanRecord(v: SegView, rs: seq<Record>, offset: nat) returns (i: nat)
    requires Sound(v.entries, rs) && Size(rs) <= ONE_GIB && v.base <= offset <= v.base + |rs|
    ensures i <= offset - v.base && i <= |rs| && StartPos(v, offset) == Pos(rs, i)
  {
    SizeBoundsCount(rs);
    hide Size;
    assert AsU32(offset - v.base) == offset - v.base;
    NoRecordsNoBytes(rs);
    match Lookup(v.entries, AsU32(offset - v.base)) {
      case None => i := 0;
      case Some(e) => i := e.rel;
    }
  }

  // ---------------------------------------------------------------- missing segments

  /** These are the segments with the bases `keys`, each begins where the one before it ends, and the first of them
      where it was expected. */
  ghost predicate Contiguous(o: Opened, keys: set<nat>, expected: Option<nat>) {
    && o.closed.Keys == keys - {o.active.base} && o.active.base in keys
    && (expected.Some? ==> expected.value in keys && forall c :: c in keys ==> expected.value <= c)
    && forall b {:trigger o.closed[b]} :: b in o.closed ==>
         && o.closed[b].base == b < o.active.base && o.closed[b].next in keys
         && forall c :: c in keys ==> c <= b || o.closed[b].next <= c
  }

  lemma AloneIsContiguous(v: SegView, keys: set<nat>, expected: Option<nat>)
    requires v.base in keys && keys - {v.base} == {} && (expected.Some? ==> v.base == expected.value)
    ensures Contiguous(Opened(map[], v), keys, expected)
  {
    forall c | c in keys ensures c == v.base {
      assert c !in keys - {v.base};
    }
  }

  lemma OneMoreInFront(b: nat, v: SegView, t: Opened, keys: set<nat>, expected: Option<nat>)
    requires Contiguous(t, keys - {b}, Some(v.next))
    requires b in keys && (forall c :: c in keys ==> b <= c) && v.base == b && (expected.Some? ==> b == expected.value)
    ensures Contiguous(Opened(map[b := v] + t.closed, t.active), keys, expected)
  {
    var o := Opened(map[b := v] + t.closed, t.active);
    forall c | c in keys && c != b ensures v.next <= c {
      assert c in keys - {b};
    }
    forall x | x in o.closed
      ensures o.closed[x].base == x < o.active.base && o.closed[x].next in keys
      ensures forall c :: c in keys ==> c <= x || o.closed[x].next <= c
    {
      assert x != b ==> o.closed[x] == t.closed[x];
      forall c | c in keys && c > x ensures o.closed[x].next <= c {
        assert c in keys - {b};
      }
    }
  }

  /** A directory that opens has every segment, each beginning where the one before it ends: one that is missing is
      never passed over. */
  lemma {:induction false} OpenIsContiguous(keys: set<nat>, expected: Option<nat>, logs: map<nat, LogFile>,
                                            indexes: map<nat, seq<byte>>, cfg: LogConfig)
    requires keys != {} && keys <= logs.Keys && OpenFrom(keys, expected, logs, indexes, cfg).Ok?
    ensures Contiguous(OpenFrom(keys, expected, logs, indexes, cfg).value, keys, expected)
    decreases |keys|
  {
    hide OpenFrom, Least, Contiguous;
    var v := FirstOpened(keys, expected, logs, indexes, cfg);
    var b := Least(keys);
    LeastFirst(keys);
    if keys - {b} == {} {
      AloneIsContiguous(v, keys, expected);
    } else {
      OpenIsContiguous(keys - {b}, Some(v.next), logs, indexes, cfg);
      OneMoreInFront(b, v, OpenFrom(keys - {b}, Some(v.next), logs, indexes, cfg).value, keys, expected);
    }
  }

  predicate IsLast(b: nat, keys: set<nat>) {
    forall k :: k in keys ==> k <= b
  }

  ghost predicate EachRecovers(keys: set<nat>, logs: map<nat, LogFile>, indexes: map<nat, seq<byte>>, cfg: LogConfig)
    requires keys <= logs.Keys
  {
    forall b {:trigger logs[b]} :: b in keys ==>
      Recovered(b, logs[b].bytes, IndexFile(indexes, b), cfg, IsLast(b, keys)).Ok?
  }

  /** If every segment by itself is good, then a gap between them is the only reason to refuse the directory, and it is
      called an invalid layout. */
  lemma {:induction false} GapIsInvalidLayout(keys: set<nat>, expected: Option<nat>, logs: map<nat, LogFile>,
                                              indexes: map<nat, seq<byte>>, cfg: LogConfig)
    requires keys != {} && keys <= logs.Keys && EachRecovers(keys, logs, indexes, cfg)
    ensures var r := OpenFrom(keys, expected, logs, indexes, cfg); r.Ok? || r == Err(InvalidLayout)
    decreases |keys|
  {
    hide Recovered, Least, IndexFile;
    LeastFirst(keys);
    var b := Least(keys);
    var rest := keys - {b};
    LastOfOne(b, keys);
    if rest != {} {
      forall c | c in rest
        ensures Recovered(c, logs[c].bytes, IndexFile(indexes, c), cfg, IsLast(c, rest)).Ok?
      {
        LastOfRest(b, c, keys);
      }
      var v := Recovered(b, logs[b].bytes, IndexFile(indexes, b), cfg, false).value;
      GapIsInvalidLayout(rest, Some(v.next), logs, indexes, cfg);
    }
  }

  lemma LastOfOne(b: nat, keys: set<nat>)
    requires b in keys && forall k :: k in keys ==> b <= k
    ensures IsLast(b, keys) <==> keys - {b} == {}
  {
    if keys - {b} == {} {
      forall k | k in keys ensures k <= b {
        assert k !in keys - {b};
      }
    } else {
      var c :| c in keys - {b};
      assert c in keys && c > b;
    }
  }

  lemma LastOfRest(b: nat, c: nat, keys: set<nat>)
    requires b in keys && c in keys - {b} && forall k :: k in keys ==> b <= k
    ensures IsLast(c, keys - {b}) == IsLast(c, keys)
  {
    if IsLast(c, keys - {b}) {
      forall k | k in keys ensures k <= c {
        assert k != b ==> k in keys - {b};
      }
    }
  }

  /** The first turn of opening, when it succeeds. */
  lemma FirstOpened(keys: set<nat>, expected: Option<nat>, logs: map<nat, LogFile>, indexes: map<nat, seq<byte>>,
                    cfg: LogConfig)
    returns (v: SegView)
    requires keys != {} && keys <= logs.Keys && OpenFrom(keys, expected, logs, indexes, cfg).Ok?
    ensures var o, b, rest := OpenFrom(keys, expected, logs, indexes, cfg).value, Least(keys), keys - {Least(keys)};
            && v.base == b && (expected.Some? ==> b == expected.value)
            && (rest == {} ==> o == Opened(map[], v))
            && (rest != {} ==>
                  && OpenFrom(rest, Some(v.next), logs, indexes, cfg).Ok?
                  && var t := OpenFrom(rest, Some(v.next), logs, indexes, cfg).value;
                     o == Opened(map[b := v] + t.closed, t.active))
  {
    hide Recovered, Least;
    var b := Least(keys);
    v := Recovered(b, logs[b].bytes, IndexFile(indexes, b), cfg, keys - {b} == {}).value;
  }

  lemma LeastFirst(keys: set<nat>)
    requires keys != {}
    ensures Least(keys) in keys && forall k :: k in keys ==> Least(keys) <= k
  {
  }
}
