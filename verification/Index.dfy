/** The sparse index of one segment and its file (src/storage/index.rs). */
module Index {
  import opened Wrappers
  import opened Bytes
  import opened Disk
  import opened Layout

  class SparseIndex {
    const disk: Directory
    const base: nat
    var entries: seq<Entry>

    /** The file holds exactly the entries in memory. */
    ghost predicate Valid()
      reads this, disk
    {
      base in disk.indexes && disk.indexes[base] == EncodeEntries(entries)
    }

    constructor Create(disk: Directory, base: nat)
      modifies disk
      ensures Valid() && this.disk == disk && this.base == base && entries == []
      ensures disk.logs == old(disk.logs) && disk.indexes == old(disk.indexes)[base := []]
    {
      this.disk, this.base, this.entries := disk, base, [];
      new;
      disk.CreateIndex(base);
    }

    constructor Opened(disk: Directory, base: nat, entries: seq<Entry>)
      ensures this.disk == disk && this.base == base && this.entries == entries
    {
      this.disk, this.base, this.entries := disk, base, entries;
    }

    /** None when the file is absent or malformed: the caller then rebuilds it from the log. */
    static method Load(disk: Directory, base: nat) returns (r: Option<SparseIndex>)
      ensures r.Some? <==> base in disk.indexes && ParseEntries(disk.indexes[base]).Some?
      ensures r.Some? ==> fresh(r.value) && r.value.disk == disk && r.value.base == base
      ensures r.Some? ==> Some(r.value.entries) == ParseEntries(disk.indexes[base]) && r.value.Valid()
    {
      hide GetU32, ParseEntries;
      if base !in disk.indexes {
        return None;
      }
      var bytes := disk.indexes[base];
      if |bytes| % 8 != 0 {
        ParseWholeEntries(bytes);
        return None;
      }
      var entries: seq<Entry> := [];
      var i := 0;
      ParseNoEntries();
      while i < |bytes| / 8
        invariant 0 <= i <= |bytes| / 8
        invariant ParseEntries(bytes[..8 * i]) == Some(entries)
      {
        var chunk := bytes[8 * i..8 * i + 8];
        var e := Entry(GetU32(chunk[0..4]), GetU32(chunk[4..8]));
        ParseOneMore(bytes, i, entries, e);
        if entries != [] && (e.rel <= entries[|entries| - 1].rel || e.pos <= entries[|entries| - 1].pos) {
          ParseStaysMalformed(bytes, 8 * (i + 1));
          return None;
        }
        entries := entries + [e];
        i := i + 1;
      }
      assert bytes[..8 * i] == bytes;
      EncodeParseEntries(bytes);
      var idx := new SparseIndex.Opened(disk, base, entries);
      return Some(idx);
    }

    /** Writes the pair through to the file. */
    method Append(rel: u32, pos: u32)
      requires Valid()
      modifies this, disk
      ensures Valid() && entries == old(entries) + [Entry(rel, pos)]
      ensures disk.logs == old(disk.logs)
      ensures disk.indexes == old(disk.indexes)[base := EncodeEntries(entries)]
    {
      hide PutU32, EncodeEntries;
      EncodeEntriesGrows(entries, Entry(rel, pos));
      disk.AppendIndex(base, PutU32(rel) + PutU32(pos));
      entries := entries + [Entry(rel, pos)];
    }

    /** Before a record is written: adds an entry if enough bytes were written since the last one, and
        returns the new count of bytes since the last entry. */
    method AppendIfDue(since: nat, rel: nat, pos: nat, len: nat, interval: nat) returns (newSince: nat)
      requires Valid()
      modifies this, disk
      ensures Valid()
      ensures Indexed(entries, newSince) == IndexStep(Indexed(old(entries), since), rel, pos, len, interval)
      ensures disk.logs == old(disk.logs)
      ensures disk.indexes == old(disk.indexes)[base := EncodeEntries(entries)]
    {
      hide EncodeEntries;
      if since >= interval {
        Append(AsU32(rel), AsU32(pos));
        newSince := len;
      } else {
        newSince := since + len;
      }
    }
  }
}
