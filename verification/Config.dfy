/** Log configuration and storage errors (src/storage/mod.rs). */
module Config {
  import opened Bytes
  import opened RecordCodec

  datatype FsyncPolicy = Always | Batch(maxBytes: u64, maxMs: u64) | Os

  datatype LogConfig = LogConfig(
    maxSegmentBytes: u64,
    indexIntervalBytes: u64,
    maxRecordBytes: u32,
    fsync: FsyncPolicy,
    crc: Checksum)

  datatype StorageError =
    | Io
    | CorruptData(offset: nat, position: nat)
    | OffsetOutOfRange(offset: nat)
    | RecordTooLarge(bytes: nat)
    | InvalidLayout
    | InvalidConfig
    // An index entry points past the end of its segment: the unsigned `file_len - scan_pos` or `size - start_pos`
    // falls below zero. It stands too for a file shorter than the segment's size, which no operation here leaves.
    | Aborted

  /** No accepted segment or record is larger than this. */
  const ONE_GIB: nat := 0x4000_0000

  predicate Validate(cfg: LogConfig) {
    && 1024 <= cfg.maxSegmentBytes <= ONE_GIB
    && 64 <= cfg.indexIntervalBytes
    && cfg.maxRecordBytes <= ONE_GIB
  }

  /** The test that `append_record` makes on a record. */
  predicate Fits(r: Record, cfg: LogConfig) {
    EncodedLen(r) <= cfg.maxRecordBytes
  }

  /** With a validated configuration the append test implies that the record's length fields can hold it. */
  lemma FitsIsEncodable(r: Record, cfg: LogConfig)
    requires Validate(cfg) && Fits(r, cfg)
    ensures Encodable(r)
  {
  }

  /** Whatever an append accepts, recovery and reads under the same configuration accept too. */
  lemma AcceptedIsReadable(r: Record, rest: seq<byte>, cfg: LogConfig)
    requires Validate(cfg) && Fits(r, cfg)
    ensures Decode(Encode(r, cfg.crc) + rest, cfg.maxRecordBytes, cfg.crc) == Decoded(r, EncodedLen(r))
  {
    hide Encode, Decode;
    FitsIsEncodable(r, cfg);
    DecodeInverts(r, rest, cfg.maxRecordBytes, cfg.crc);
  }
}
