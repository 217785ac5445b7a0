/** How a run of records lies in the bytes of one segment file, and what a scan makes of those bytes. */
module Layout {
  import opened Wrappers
  import opened Bytes
  import opened RecordCodec
  import opened Config

  /** The bytes of a run of records, one after another. */
  function EncodeAll(rs: seq<Record>, crc: Checksum): (s: seq<byte>)
    ensures |s| == Size(rs)
  {
    if rs == [] then [] else Encode(rs[0], crc) + EncodeAll(rs[1..], crc)
  }

  function Size(rs: seq<Record>): nat {
    if rs == [] then 0 else EncodedLen(rs[0]) + Size(rs[1..])
  }

  /** The file position at which record number `i` starts. */
  function Pos(rs: seq<Record>, i: nat): nat
    requires i <= |rs|
  {
    Size(rs[..i])
  }

  /** A run that `append_record` can have produced: consecutive offsets from `base`, each record admitted. */
  ghost predicate Run(rs: seq<Record>, base: nat, cfg: LogConfig) {
    forall i {:trigger rs[i]} :: 0 <= i < |rs| ==> rs[i].offset == base + i && Fits(rs[i], cfg)
  }

  lemma {:induction false} EncodeAllAppend(a: seq<Record>, b: seq<Record>, crc: Checksum)
    ensures EncodeAll(a + b, crc) == EncodeAll(a, crc) + EncodeAll(b, crc)
    ensures Size(a + b) == Size(a) + Size(b)
  {
    hide Encode, EncodedLen;
    if a == [] {
      assert a + b == b;
    } else {
      assert (a + b)[1..] == a[1..] + b;
      EncodeAllAppend(a[1..], b, crc);
    }
  }

  lemma EncodeAllOne(r: Record, crc: Checksum)
    ensures EncodeAll([r], crc) == Encode(r, crc) && Size([r]) == EncodedLen(r)
  {
    hide Encode, EncodedLen;
    assert [r][1..] == [];
  }

  lemma Split(rs: seq<Record>, i: nat, crc: Checksum)
    requires i <= |rs|
    ensures Pos(rs, i) <= Size(rs)
    ensures EncodeAll(rs, crc)[..Pos(rs, i)] == EncodeAll(rs[..i], crc)
    ensures EncodeAll(rs, crc)[Pos(rs, i)..] == EncodeAll(rs[i..], crc)
    ensures Size(rs) == Pos(rs, i) + Size(rs[i..])
  {
    assert rs == rs[..i] + rs[i..];
    EncodeAllAppend(rs[..i], rs[i..], crc);
  }

  lemma PosStep(rs: seq<Record>, i: nat, crc: Checksum)
    requires i < |rs|
    ensures Pos(rs, i + 1) == Pos(rs, i) + EncodedLen(rs[i])
  {
    hide Encode, EncodedLen;
    assert rs[..i + 1] == rs[..i] + [rs[i]];
    EncodeAllAppend(rs[..i], [rs[i]], crc);
    EncodeAllOne(rs[i], crc);
  }

  lemma PosOfPrefix(rs: seq<Record>, n: nat, i: nat)
    requires i <= n <= |rs|
    ensures Pos(rs[..n], i) == Pos(rs, i)
  {
    assert rs[..n][..i] == rs[..i];
  }

  /** Later records start later; no record is shorter than 32 bytes. */
  lemma {:induction false} PosGrows(rs: seq<Record>, i: nat, j: nat, crc: Checksum)
    requires i <= j <= |rs|
    ensures Pos(rs, i) + 32 * (j - i) <= Pos(rs, j)
    decreases j - i
  {
    if i < j {
      PosGrows(rs, i, j - 1, crc);
      PosStep(rs, j - 1, crc);
    }
  }

  /** Decoding at the start of record `i` of a good file gives record `i`. */
  lemma DecodeAt(rs: seq<Record>, base: nat, i: nat, cfg: LogConfig)
    requires Validate(cfg) && Run(rs, base, cfg) && i < |rs|
    ensures Pos(rs, i) + EncodedLen(rs[i]) == Pos(rs, i + 1) <= Size(rs)
    ensures Decode(EncodeAll(rs, cfg.crc)[Pos(rs, i)..], cfg.maxRecordBytes, cfg.crc)
            == Decoded(rs[i], EncodedLen(rs[i]))
  {
    hide Encode, EncodedLen, Decode;
    Split(rs, i, cfg.crc);
    Split(rs, i + 1, cfg.crc);
    PosStep(rs, i, cfg.crc);
    FitsIsEncodable(rs[i], cfg);
    assert EncodedLen(rs[i]) <= cfg.maxRecordBytes by { assert Fits(rs[i], cfg); }
    DecodeInverts(rs[i], EncodeAll(rs[i..][1..], cfg.crc), cfg.maxRecordBytes, cfg.crc);
  }

  lemma DecodeNothing(cfg: LogConfig)
    ensures Decode([], cfg.maxRecordBytes, cfg.crc) == Incomplete
  {
  }

  // ---------------------------------------------------------------- scanning

  datatype Stop =
    | AtEnd
    | Torn
    | Bad
    | Discontinuity(found: nat)

  datatype Scan = Scan(records: seq<Record>, consumed: nat, stop: Stop)

  /** Decodes records until the bytes run out, stop making sense, or break the offset sequence. */
  function ScanFrom(b: seq<byte>, next: nat, cfg: LogConfig): (s: Scan)
    ensures s.consumed <= |b|
    ensures s.stop == AtEnd ==> s.consumed == |b|
    decreases |b|
  {
    match Decode(b, cfg.maxRecordBytes, cfg.crc)
    case Decoded(r, n) =>
      if r.offset != next then Scan([], 0, Discontinuity(r.offset))
      else
        var t := ScanFrom(b[n..], next + 1, cfg);
        Scan([r] + t.records, n + t.consumed, t.stop)
    case Incomplete => Scan([], 0, if |b| == 0 then AtEnd else Torn)
    case Corrupt(_) => Scan([], 0, Bad)
  }

  /** How many whole records of `rs` fit in the first `n` bytes of their encoding. */
  function WholeCount(rs: seq<Record>, n: nat): (k: nat)
    ensures k <= |rs| && Pos(rs, k) <= n
    ensures k < |rs| ==> n < Pos(rs, k + 1)
  {
    if rs == [] || n < EncodedLen(rs[0]) then
      assert rs != [] ==> rs[..1][1..] == [];
      0
    else
      var k := WholeCount(rs[1..], n - EncodedLen(rs[0]));
      assert rs[..k + 1][1..] == rs[1..][..k];
      assert k + 1 < |rs| ==> rs[..k + 2][1..] == rs[1..][..k + 1];
      k + 1
  }

  /** The first record of a torn copy: whole, or incomplete. */
  lemma DecodeFirst(rs: seq<Record>, base: nat, n: nat, cfg: LogConfig)
    requires Validate(cfg) && Run(rs, base, cfg) && n <= Size(rs) && rs != []
    ensures var b := EncodeAll(rs, cfg.crc)[..n];
            var len := EncodedLen(rs[0]);
            if n < len then Decode(b, cfg.maxRecordBytes, cfg.crc) == Incomplete
            else Decode(b, cfg.maxRecordBytes, cfg.crc) == Decoded(rs[0], len)
                 && b[len..] == EncodeAll(rs[1..], cfg.crc)[..n - len]
  {
    hide Encode, EncodedLen, Decode;
    var r, len := rs[0], EncodedLen(rs[0]);
    var b := EncodeAll(rs, cfg.crc)[..n];
    assert Fits(r, cfg);
    FitsIsEncodable(r, cfg);
    if n < len {
      assert b == Encode(r, cfg.crc)[..n];
      TornIsIncomplete(r, n, cfg.maxRecordBytes, cfg.crc);
    } else {
      var rest := EncodeAll(rs[1..], cfg.crc)[..n - len];
      assert b == Encode(r, cfg.crc) + rest;
      DecodeInverts(r, rest, cfg.maxRecordBytes, cfg.crc);
    }
  }

  /** What a scan finds in a torn copy of a good file: every record that survived whole, in order, and
      nothing else. */
  lemma {:induction false} ScanTorn(rs: seq<Record>, base: nat, n: nat, cfg: LogConfig)
    requires Validate(cfg) && Run(rs, base, cfg) && n <= Size(rs)
    ensures var k := WholeCount(rs, n);
            ScanFrom(EncodeAll(rs, cfg.crc)[..n], base, cfg)
            == Scan(rs[..k], Pos(rs, k), if n == Pos(rs, k) then AtEnd else Torn)
  {
    hide Encode, EncodedLen, Decode, EncodeAll, WholeCount;
    WholeCountStep(rs, n);
    if rs == [] {
      DecodeNothing(cfg);
      assert EncodeAll(rs, cfg.crc)[..n] == [];
    } else {
      DecodeFirst(rs, base, n, cfg);
      var len := EncodedLen(rs[0]);
      if n >= len {
        ScanTorn(rs[1..], base + 1, n - len, cfg);
      }
    }
  }

  lemma WholeCountStep(rs: seq<Record>, n: nat)
    ensures if rs == [] || n < EncodedLen(rs[0]) then WholeCount(rs, n) == 0 && Pos(rs, 0) == 0
            else var k := WholeCount(rs[1..], n - EncodedLen(rs[0]));
                 && WholeCount(rs, n) == k + 1
                 && rs[..k + 1] == [rs[0]] + rs[1..][..k]
                 && Pos(rs, k + 1) == EncodedLen(rs[0]) + Pos(rs[1..], k)
  {
    hide EncodedLen;
    if rs != [] && n >= EncodedLen(rs[0]) {
      var k := WholeCount(rs[1..], n - EncodedLen(rs[0]));
      assert rs[..k + 1][1..] == rs[1..][..k];
    }
  }

  lemma WholeCountOfAll(rs: seq<Record>, k: nat, n: nat, crc: Checksum)
    requires k <= |rs| && Pos(rs, k) <= n
    ensures WholeCount(rs, n) >= k
  {
    var w := WholeCount(rs, n);
    if w < k {
      PosGrows(rs, w + 1, k, crc);
    }
  }

  /** A scan of a whole good file finds exactly its records. */
  lemma ScanWhole(rs: seq<Record>, base: nat, cfg: LogConfig)
    requires Validate(cfg) && Run(rs, base, cfg)
    ensures ScanFrom(EncodeAll(rs, cfg.crc), base, cfg) == Scan(rs, Size(rs), AtEnd)
  {
    var n := Size(rs);
    assert rs[..|rs|] == rs;
    WholeCountOfAll(rs, |rs|, n, cfg.crc);
    ScanTorn(rs, base, n, cfg);
    assert EncodeAll(rs, cfg.crc)[..n] == EncodeAll(rs, cfg.crc);
  }

  // ---------------------------------------------------------------- the sparse index

  datatype Entry = Entry(rel: u32, pos: u32)

  datatype Indexed = Indexed(entries: seq<Entry>, since: nat)

  /** The entries that writing the run one record at a time leaves behind, and the bytes since the last. */
  function IndexOf(rs: seq<Record>, interval: nat): (x: Indexed)
    decreases |rs|
  {
    if rs == [] then Indexed([], 0)
    else
      var n := |rs| - 1;
      IndexStep(IndexOf(rs[..n], interval), n, Size(rs[..n]), EncodedLen(rs[n]), interval)
  }

  function IndexStep(x: Indexed, rel: nat, pos: nat, len: nat, interval: nat): Indexed {
    if x.since >= interval then Indexed(x.entries + [Entry(AsU32(rel), AsU32(pos))], len)
    else Indexed(x.entries, x.since + len)
  }

  /** Every entry names a record of the run and the position where it starts, in increasing order. */
  ghost predicate Sound(entries: seq<Entry>, rs: seq<Record>) {
    && (forall k {:trigger entries[k]} :: 0 <= k < |entries| ==>
          0 < entries[k].rel < |rs| && entries[k].pos == Pos(rs, entries[k].rel))
    && Sorted(entries)
  }

  predicate Sorted(entries: seq<Entry>) {
    forall j, k :: 0 <= j < k < |entries| ==> entries[j].rel < entries[k].rel && entries[j].pos < entries[k].pos
  }

  /** Every index that writing leaves is sound, so long as the file stays below 4 GiB: the casts to u32 in
      the source then lose nothing. */
  lemma {:induction false} IndexIsSound(rs: seq<Record>, interval: nat, crc: Checksum)
    requires Size(rs) < U32_RANGE && interval > 0
    ensures Sound(IndexOf(rs, interval).entries, rs)
    decreases |rs|
  {
    hide EncodedLen, Size, Sound;
    if rs == [] {
      SoundNil(rs);
    } else {
      var n := |rs| - 1;
      var was := IndexOf(rs[..n], interval);
      Split(rs, n, crc);
      IndexIsSound(rs[..n], interval, crc);
      if was.since >= interval {
        IndexNeedsBytes(rs[..n], interval);
        SizeBoundsCount(rs[..n]);
        SoundAppend(was.entries, rs, n, crc);
        SmallCasts(n, Pos(rs, n));
      } else {
        SoundExtends(was.entries, rs, n, crc);
      }
    }
  }

  lemma SoundNil(rs: seq<Record>)
    ensures Sound([], rs)
  {
  }

  lemma SmallCasts(rel: nat, pos: nat)
    requires rel < U32_RANGE && pos < U32_RANGE
    ensures AsU32(rel) == rel && AsU32(pos) == pos
  {
  }

  /** Entries that are sound for a prefix stay sound, and name records before the prefix's end. */
  lemma SoundExtends(entries: seq<Entry>, rs: seq<Record>, n: nat, crc: Checksum)
    requires n <= |rs| && Sound(entries, rs[..n])
    ensures Sound(entries, rs)
    ensures forall k :: 0 <= k < |entries| ==> entries[k].rel < n && entries[k].pos < Pos(rs, n)
  {
    hide EncodedLen, Size;
    forall k | 0 <= k < |entries|
      ensures entries[k].rel < n && entries[k].pos == Pos(rs, entries[k].rel) < Pos(rs, n)
    {
      PosOfPrefix(rs, n, entries[k].rel);
      PosGrows(rs, entries[k].rel, n, crc);
    }
  }

  lemma SoundAppend(entries: seq<Entry>, rs: seq<Record>, n: nat, crc: Checksum)
    requires 0 < n < |rs| && Sound(entries, rs[..n]) && n < U32_RANGE && Pos(rs, n) < U32_RANGE
    ensures Sound(entries + [Entry(n, Pos(rs, n))], rs)
  {
    SoundExtends(entries, rs, n, crc);
  }

  lemma {:induction false} SizeBoundsCount(rs: seq<Record>)
    ensures |rs| <= Size(rs)
  {
    if rs != [] {
      SizeBoundsCount(rs[1..]);
    }
  }

  /** An index entry is only due once something has been written. */
  lemma {:induction false} IndexNeedsBytes(rs: seq<Record>, interval: nat)
    requires IndexOf(rs, interval).since >= interval > 0
    ensures rs != []
  {
  }

  lemma SoundPrefix(entries: seq<Entry>, n: nat, rs: seq<Record>)
    requires Sound(entries, rs) && n <= |entries|
    ensures Sound(entries[..n], rs)
  {
  }

  /** The greatest entry at or below `target`. */
  function Lookup(entries: seq<Entry>, target: nat): (e: Option<Entry>)
    ensures e.Some? ==> e.value in entries && e.value.rel <= target
    ensures e.None? ==> forall k :: 0 <= k < |entries| ==> target < entries[k].rel
    ensures e.Some? && Sorted(entries) ==>
              forall k :: 0 <= k < |entries| && entries[k].rel <= target ==> entries[k].rel <= e.value.rel
  {
    if entries == [] then None
    else
      var n := |entries| - 1;
      if entries[n].rel <= target then Some(entries[n]) else Lookup(entries[..n], target)
  }

  // ---------------------------------------------------------------- the index file

  function EncodeEntry(e: Entry): (s: seq<byte>)
    ensures |s| == 8
  {
    PutU32(e.rel) + PutU32(e.pos)
  }

  function EncodeEntries(entries: seq<Entry>): (s: seq<byte>)
    ensures |s| == 8 * |entries|
  {
    if entries == [] then []
    else EncodeEntries(entries[..|entries| - 1]) + EncodeEntry(entries[|entries| - 1])
  }

  /** `SparseIndex::load`: the entries of the file, or None if the file is malformed. */
  function ParseEntries(b: seq<byte>): (r: Option<seq<Entry>>)
    ensures r.Some? ==> |b| == 8 * |r.value|
    decreases |b|
  {
    if |b| == 0 then Some([])
    else if |b| < 8 then None
    else
      var n := |b| - 8;
      match ParseEntries(b[..n])
      case None => None
      case Some(es) =>
        var e := Entry(GetU32(b[n..n + 4]), GetU32(b[n + 4..]));
        if es != [] && (e.rel <= es[|es| - 1].rel || e.pos <= es[|es| - 1].pos) then None
        else Some(es + [e])
  }

  lemma ParseNoEntries()
    ensures ParseEntries([]) == Some([])
  {
  }

  lemma ParseOneMore(bytes: seq<byte>, i: nat, entries: seq<Entry>, e: Entry)
    requires 8 * i + 8 <= |bytes| && ParseEntries(bytes[..8 * i]) == Some(entries)
    requires e == Entry(GetU32(bytes[8 * i..8 * i + 8][0..4]), GetU32(bytes[8 * i..8 * i + 8][4..8]))
    ensures ParseEntries(bytes[..8 * (i + 1)]) ==
            if entries != [] && (e.rel <= entries[|entries| - 1].rel || e.pos <= entries[|entries| - 1].pos)
            then None else Some(entries + [e])
  {
    hide GetU32;
    var b := bytes[..8 * (i + 1)];
    var n := 8 * i;
    assert b[..n] == bytes[..n];
    assert b[n..n + 4] == bytes[n..n + 8][0..4];
    assert b[n + 4..] == bytes[n..n + 8][4..8];
  }

  /** No continuation makes a malformed start good. */
  lemma {:induction false} ParseStaysMalformed(bytes: seq<byte>, n: nat)
    requires n % 8 == 0 && n <= |bytes| && |bytes| % 8 == 0 && ParseEntries(bytes[..n]) == None
    ensures ParseEntries(bytes) == None
    decreases |bytes|
  {
    hide GetU32;
    if n == |bytes| {
      assert bytes[..n] == bytes;
    } else {
      var shorter := bytes[..|bytes| - 8];
      assert shorter[..n] == bytes[..n];
      ParseStaysMalformed(shorter, n);
    }
  }

  lemma EntryInverts(e: Entry)
    ensures GetU32(EncodeEntry(e)[0..4]) == e.rel && GetU32(EncodeEntry(e)[4..8]) == e.pos
  {
    hide PutU32, GetU32;
    assert EncodeEntry(e)[0..4] == PutU32(e.rel) && EncodeEntry(e)[4..8] == PutU32(e.pos);
    GetPutU32(e.rel);
    GetPutU32(e.pos);
  }

  /** Loading inverts writing, for every increasing list of entries. */
  lemma {:induction false} ParseEncodeEntries(entries: seq<Entry>)
    requires Sorted(entries)
    ensures ParseEntries(EncodeEntries(entries)) == Some(entries)
    decreases |entries|
  {
    hide EncodeEntry, GetU32, ParseEntries;
    if entries == [] {
      ParseNoEntries();
    } else {
      var n := |entries| - 1;
      var b := EncodeEntries(entries);
      ParseEncodeEntries(entries[..n]);
      assert b[..8 * n] == EncodeEntries(entries[..n]);
      assert b[8 * n..8 * n + 8] == EncodeEntry(entries[n]);
      EntryInverts(entries[n]);
      ParseOneMore(b, n, entries[..n], entries[n]);
      assert b[..8 * (n + 1)] == b;
      assert entries == entries[..n] + [entries[n]];
    }
  }

  /** A well-formed file is exactly what writing its entries gives. */
  lemma {:induction false} EncodeParseEntries(b: seq<byte>)
    requires ParseEntries(b).Some?
    ensures EncodeEntries(ParseEntries(b).value) == b
    decreases |b|
  {
    hide PutU32, GetU32;
    if |b| > 0 {
      var n := |b| - 8;
      EncodeParseEntries(b[..n]);
      PutGet32(b[n..n + 4]);
      PutGet32(b[n + 4..]);
      var es := ParseEntries(b).value;
      assert es[..|es| - 1] == ParseEntries(b[..n]).value;
      assert b == b[..n] + (b[n..n + 4] + b[n + 4..]);
    }
  }

  lemma EncodeEntriesGrows(entries: seq<Entry>, e: Entry)
    ensures EncodeEntries(entries + [e]) == EncodeEntries(entries) + EncodeEntry(e)
  {
    hide EncodeEntry;
    assert (entries + [e])[..|entries|] == entries;
  }

  lemma {:induction false} EncodeEntriesPrefix(entries: seq<Entry>, n: nat)
    requires n <= |entries|
    ensures EncodeEntries(entries)[..8 * n] == EncodeEntries(entries[..n])
    decreases |entries|
  {
    hide EncodeEntry;
    if n == |entries| {
      assert entries[..n] == entries;
    } else {
      var m := |entries| - 1;
      EncodeEntriesPrefix(entries[..m], n);
      assert entries[..m][..n] == entries[..n];
      assert EncodeEntries(entries)[..8 * n] == EncodeEntries(entries[..m])[..8 * n];
    }
  }

  /** A torn index file loads as a prefix of what was written, or is recognised as malformed. */
  lemma TornIndex(entries: seq<Entry>, n: nat)
    requires Sorted(entries) && n <= 8 * |entries|
    ensures ParseEntries(EncodeEntries(entries)[..n]) ==
            if n % 8 == 0 then Some(entries[..n / 8]) else None
  {
    hide ParseEntries, EncodeEntries;
    var b := EncodeEntries(entries)[..n];
    if n % 8 == 0 {
      assert n == 8 * (n / 8);
      EncodeEntriesPrefix(entries, n / 8);
      ParseEncodeEntries(entries[..n / 8]);
    } else {
      ParseWholeEntries(b);
    }
  }

  lemma EightDivides(n: nat)
    ensures 8 * n % 8 == 0
  {
  }

  lemma ParseWholeEntries(b: seq<byte>)
    requires |b| % 8 != 0
    ensures ParseEntries(b) == None
  {
    hide GetU32;
    if ParseEntries(b).Some? {
      EightDivides(|ParseEntries(b).value|);
    }
  }
}
