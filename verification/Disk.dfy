/** One partition directory: a log file and an index file per segment, named by base offset. */
module Disk {
  import opened Bytes

  /** What the file holds, and how many leading bytes are known to be on stable media. */
  datatype LogFile = LogFile(bytes: seq<byte>, synced: nat)

  class Directory {
    var logs: map<nat, LogFile>
    var indexes: map<nat, seq<byte>>

    constructor ()
      ensures logs == map[] && indexes == map[]
    {
      logs, indexes := map[], map[];
    }

    /** Opening with `create_new`: refused when the file exists. */
    method CreateLog(base: nat) returns (ok: bool)
      modifies this
      ensures ok == (base !in old(logs))
      ensures indexes == old(indexes)
      ensures logs == if ok then old(logs)[base := LogFile([], 0)] else old(logs)
    {
      ok := base !in logs;
      if ok {
        logs := logs[base := LogFile([], 0)];
      }
    }

    method AppendLog(base: nat, s: seq<byte>)
      requires base in logs
      modifies this
      ensures indexes == old(indexes)
      ensures logs == old(logs)[base := LogFile(old(logs)[base].bytes + s, old(logs)[base].synced)]
    {
      logs := logs[base := LogFile(logs[base].bytes + s, logs[base].synced)];
    }

    method Fsync(base: nat)
      requires base in logs
      modifies this
      ensures indexes == old(indexes)
      ensures logs == old(logs)[base := LogFile(old(logs)[base].bytes, |old(logs)[base].bytes|)]
    {
      logs := logs[base := LogFile(logs[base].bytes, |logs[base].bytes|)];
    }

    /** `set_len` to no more than the present length, followed by an fsync of the file. */
    method SetLenAndFsync(base: nat, len: nat)
      requires base in logs && len <= |logs[base].bytes|
      modifies this
      ensures indexes == old(indexes)
      ensures logs == old(logs)[base := LogFile(old(logs)[base].bytes[..len], len)]
    {
      logs := logs[base := LogFile(logs[base].bytes[..len], len)];
    }

    method RemoveSegment(base: nat)
      modifies this
      ensures logs == old(logs) - {base} && indexes == old(indexes) - {base}
    {
      logs, indexes := logs - {base}, indexes - {base};
    }

    /** Opening with `truncate`: the index file exists and is empty afterwards. */
    method CreateIndex(base: nat)
      modifies this
      ensures logs == old(logs) && indexes == old(indexes)[base := []]
    {
      indexes := indexes[base := []];
    }

    method AppendIndex(base: nat, s: seq<byte>)
      requires base in indexes
      modifies this
      ensures logs == old(logs) && indexes == old(indexes)[base := old(indexes)[base] + s]
    {
      indexes := indexes[base := indexes[base] + s];
    }
  }
}
