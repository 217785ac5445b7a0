/** The leader-epoch checkpoint of a partition and its file (src/storage/epoch.rs). */
module EpochHistory {
  import opened Wrappers
  import opened Bytes

  /** Epoch `epoch` begins at offset `start` of the log. */
  datatype EpochStart = EpochStart(epoch: u64, start: u64)

  const ENTRY_BYTES := 16

  /** Epochs strictly increase and starts never decrease. */
  ghost predicate Monotone(es: seq<EpochStart>) {
    forall i, j {:trigger es[i], es[j]} :: 0 <= i < j < |es| ==> es[i].epoch < es[j].epoch && es[i].start <= es[j].start
  }

  /** No entry starts past the end of the log. */
  ghost predicate Within(es: seq<EpochStart>, logEnd: nat) {
    forall i {:trigger es[i]} :: 0 <= i < |es| ==> es[i].start <= logEnd
  }

  function CurrentEpoch(es: seq<EpochStart>): u64 {
    if es == [] then 0 else es[|es| - 1].epoch
  }

  // ---------------------------------------------------------------- the file

  function EncodeEpoch(e: EpochStart): (s: seq<byte>)
    ensures |s| == ENTRY_BYTES
  {
    PutU64(e.epoch) + PutU64(e.start)
  }

  function DecodeEpoch(s: seq<byte>): EpochStart
    requires |s| == ENTRY_BYTES
  {
    EpochStart(GetU64(s[0..8]), GetU64(s[8..16]))
  }

  function EncodeEpochs(es: seq<EpochStart>): (s: seq<byte>)
    ensures |s| == ENTRY_BYTES * |es|
  {
    if es == [] then [] else EncodeEpochs(es[..|es| - 1]) + EncodeEpoch(es[|es| - 1])
  }

  lemma EpochRoundTrip(e: EpochStart)
    ensures DecodeEpoch(EncodeEpoch(e)) == e
  {
    hide PutU64, GetU64;
    assert EncodeEpoch(e)[0..8] == PutU64(e.epoch);
    assert EncodeEpoch(e)[8..16] == PutU64(e.start);
    GetPutU64(e.epoch);
    GetPutU64(e.start);
  }

  lemma EpochRebuilt(s: seq<byte>)
    requires |s| == ENTRY_BYTES
    ensures EncodeEpoch(DecodeEpoch(s)) == s
  {
    hide PutU64, GetU64;
    PutGet64(s[0..8]);
    PutGet64(s[8..16]);
    assert s == s[0..8] + s[8..16];
  }

  lemma EncodeOneMore(es: seq<EpochStart>, e: EpochStart)
    ensures EncodeEpochs(es + [e]) == EncodeEpochs(es) + EncodeEpoch(e)
  {
    assert (es + [e])[..|es|] == es;
  }

  /** Where an entry sits in the file. */
  lemma {:induction false} EntryAt(es: seq<EpochStart>, k: nat)
    requires k < |es|
    ensures ENTRY_BYTES * k + ENTRY_BYTES <= |EncodeEpochs(es)|
    ensures EncodeEpochs(es)[ENTRY_BYTES * k..ENTRY_BYTES * k + ENTRY_BYTES] == EncodeEpoch(es[k])
    decreases |es|
  {
    hide EncodeEpoch;
    if k < |es| - 1 {
      EntryAt(es[..|es| - 1], k);
    }
  }

  /** A file is the image of at most one list. */
  lemma EntriesOf(es: seq<EpochStart>, bytes: seq<byte>, k: nat)
    requires EncodeEpochs(es) == bytes && k < |es|
    ensures ENTRY_BYTES * k + ENTRY_BYTES <= |bytes|
    ensures es[k] == DecodeEpoch(bytes[ENTRY_BYTES * k..ENTRY_BYTES * k + ENTRY_BYTES])
  {
    hide EncodeEpochs, EncodeEpoch, DecodeEpoch;
    EntryAt(es, k);
    EpochRoundTrip(es[k]);
  }

  lemma SameFileSameEntries(a: seq<EpochStart>, b: seq<EpochStart>)
    requires EncodeEpochs(a) == EncodeEpochs(b)
    ensures a == b
  {
    hide EncodeEpochs, EncodeEpoch, DecodeEpoch;
    assert |a| == |b|;
    forall k | 0 <= k < |a| ensures a[k] == b[k] {
      EntriesOf(a, EncodeEpochs(a), k);
      EntriesOf(b, EncodeEpochs(a), k);
    }
  }

  lemma {:induction false} EncodedPrefix(es: seq<EpochStart>, k: nat)
    requires k <= |es|
    ensures ENTRY_BYTES * k <= |EncodeEpochs(es)| && EncodeEpochs(es[..k]) == EncodeEpochs(es)[..ENTRY_BYTES * k]
    decreases |es|
  {
    hide EncodeEpoch;
    if k < |es| {
      EncodedPrefix(es[..|es| - 1], k);
      assert es[..|es| - 1][..k] == es[..k];
    } else {
      assert es[..k] == es;
    }
  }

  /** The lists whose image the bytes are. */
  ghost predicate Readable(bytes: seq<byte>, es: seq<EpochStart>) {
    Monotone(es) && EncodeEpochs(es) == bytes
  }

  // ---------------------------------------------------------------- queries

  /** How many leading entries have an epoch at most `epoch`. */
  function CountUpTo(es: seq<EpochStart>, epoch: nat): (n: nat)
    ensures n <= |es|
    ensures forall i {:trigger es[i]} :: 0 <= i < n ==> es[i].epoch <= epoch
    ensures n < |es| ==> es[n].epoch > epoch
  {
    if es == [] || es[0].epoch > epoch then 0 else 1 + CountUpTo(es[1..], epoch)
  }

  /** Where `epoch` ended: the start of the first later epoch, the end of the log if there is none, and 0 if
      the history has nothing at or below `epoch`. */
  function EndOf(es: seq<EpochStart>, epoch: nat, logEnd: nat): nat {
    var n := CountUpTo(es, epoch);
    if n == 0 then 0 else if n < |es| then es[n].start else logEnd
  }

  lemma CountUpToIs(es: seq<EpochStart>, epoch: nat, n: nat)
    requires n <= |es|
    requires forall i {:trigger es[i]} :: 0 <= i < n ==> es[i].epoch <= epoch
    requires n < |es| ==> es[n].epoch > epoch
    ensures CountUpTo(es, epoch) == n
  {
    var m := CountUpTo(es, epoch);
    assert m < |es| ==> es[m].epoch > epoch;
    assert n < |es| ==> es[n].epoch > epoch;
  }

  /** The three answers: an epoch before the whole history shares nothing, the last epochs go on to the end of the log,
      and any other ended where the first later one starts. */
  lemma EndOfIs(es: seq<EpochStart>, epoch: nat, logEnd: nat)
    requires Monotone(es)
    ensures es == [] || epoch < es[0].epoch ==> EndOf(es, epoch, logEnd) == 0
    ensures es != [] && es[|es| - 1].epoch <= epoch ==> EndOf(es, epoch, logEnd) == logEnd
    ensures forall i {:trigger es[i]} :: 0 < i < |es| && es[i - 1].epoch <= epoch < es[i].epoch ==>
              EndOf(es, epoch, logEnd) == es[i].start
  {
    hide CountUpTo;
    var n := CountUpTo(es, epoch);
    assert n < |es| ==> es[n].epoch > epoch;
    forall i | 0 < i < |es| && es[i - 1].epoch <= epoch < es[i].epoch ensures EndOf(es, epoch, logEnd) == es[i].start {
      CountUpToIs(es, epoch, i);
    }
  }

  /** A later epoch ends no earlier, and no epoch ends past the log. */
  lemma EndOfGrows(es: seq<EpochStart>, e1: nat, e2: nat, logEnd: nat)
    requires Monotone(es) && Within(es, logEnd) && e1 <= e2
    ensures EndOf(es, e1, logEnd) <= EndOf(es, e2, logEnd) <= logEnd
  {
    hide CountUpTo;
    var n1, n2 := CountUpTo(es, e1), CountUpTo(es, e2);
    assert n2 < |es| ==> es[n2].epoch > e2;
  }

  /** The entries that `truncate_to` keeps. */
  function KeptEntries(es: seq<EpochStart>, newNext: nat): (n: nat)
    ensures n <= |es|
    ensures forall i {:trigger es[i]} :: 0 <= i < n ==> es[i].start < newNext
    ensures n < |es| ==> es[n].start >= newNext
  {
    if es == [] || es[0].start >= newNext then 0 else 1 + KeptEntries(es[1..], newNext)
  }

  /** In a monotone history these are all the entries below the cut, so what is left never passes it. */
  lemma KeptIsBelow(es: seq<EpochStart>, newNext: nat)
    requires Monotone(es)
    ensures forall i {:trigger es[i]} :: 0 <= i < |es| ==> (i < KeptEntries(es, newNext) <==> es[i].start < newNext)
    ensures Monotone(es[..KeptEntries(es, newNext)]) && Within(es[..KeptEntries(es, newNext)], newNext)
  {
    hide KeptEntries;
    var n := KeptEntries(es, newNext);
    forall i | n <= i < |es| ensures es[i].start >= newNext {
      assert es[n].start <= es[i].start;
    }
  }

  // ---------------------------------------------------------------- the object

  /** The file `leader-epochs`; every write to it is fsynced. */
  class EpochStore {
    var file: Option<seq<byte>>

    constructor (file: Option<seq<byte>>)
      ensures this.file == file
    {
      this.file := file;
    }
  }

  class EpochCheckpoint {
    const store: EpochStore
    var entries: seq<EpochStart>

    ghost predicate Valid()
      reads this, store
    {
      && Monotone(entries)
      && (store.file == Some(EncodeEpochs(entries)) || (store.file == None && entries == []))
    }

    constructor Of(store: EpochStore, entries: seq<EpochStart>)
      ensures this.store == store && this.entries == entries
    {
      this.store, this.entries := store, entries;
    }

    /** Succeeds exactly on a missing file and on the images of monotone lists, and returns that list. */
    static method Load(store: EpochStore) returns (r: Option<EpochCheckpoint>)
      ensures store.file.None? ==> r.Some? && r.value.entries == []
      ensures store.file.Some? ==> (r.Some? <==> exists es :: Readable(store.file.value, es))
      ensures r.Some? ==> fresh(r.value) && r.value.store == store && r.value.Valid()
    {
      hide EncodeEpochs, EncodeEpoch, DecodeEpoch;
      if store.file.None? {
        var c := new EpochCheckpoint.Of(store, []);
        return Some(c);
      }
      var bytes := store.file.value;
      if |bytes| % ENTRY_BYTES != 0 {
        return None;
      }
      var entries: seq<EpochStart> := [];
      NothingEncoded(bytes);
      for i := 0 to |bytes| / ENTRY_BYTES
        invariant |entries| == i && Monotone(entries) && EncodeEpochs(entries) == bytes[..ENTRY_BYTES * i]
      {
        var e := DecodeEpoch(bytes[ENTRY_BYTES * i..ENTRY_BYTES * i + ENTRY_BYTES]);
        if entries != [] && (e.epoch <= entries[i - 1].epoch || e.start < entries[i - 1].start) {
          NotReadable(bytes, entries, e);
          return None;
        }
        LoadOne(bytes, entries, e);
        entries := entries + [e];
      }
      assert bytes[..ENTRY_BYTES * (|bytes| / ENTRY_BYTES)] == bytes;
      assert Readable(bytes, entries);
      var c := new EpochCheckpoint.Of(store, entries);
      return Some(c);
    }

    /** Records that `epoch` starts at `start`; refused when that does not follow the last entry. */
    method Append(epoch: u64, start: u64) returns (ok: bool)
      requires Valid()
      modifies this, store
      ensures Valid()
      ensures var old_ := old(entries);
              var e := EpochStart(epoch, start);
              if old_ != [] && old_[|old_| - 1] == e then ok && entries == old_
              else if old_ != [] && (epoch <= old_[|old_| - 1].epoch || start < old_[|old_| - 1].start)
              then !ok && entries == old_
              else ok && entries == old_ + [e]
    {
      hide EncodeEpochs, EncodeEpoch;
      if entries != [] {
        var last := entries[|entries| - 1];
        if epoch == last.epoch && start == last.start {
          return true;
        }
        if epoch <= last.epoch || start < last.start {
          return false;
        }
      }
      var e := EpochStart(epoch, start);
      NothingEncoded([]);
      EncodeOneMore(entries, e);
      store.file := Some((match store.file case None => [] case Some(b) => b) + EncodeEpoch(e));
      entries := entries + [e];
      return true;
    }

    /** Where did `epoch` end in this history, for a log ending at `logEnd`? */
    method EndOffsetFor(epoch: u64, logEnd: nat) returns (r: nat)
      ensures r == EndOf(entries, epoch, logEnd)
    {
      hide CountUpTo;
      var known := false;
      for i := 0 to |entries|
        invariant known == (i > 0)
        invariant forall j {:trigger entries[j]} :: 0 <= j < i ==> entries[j].epoch <= epoch
      {
        if entries[i].epoch > epoch {
          CountUpToIs(entries, epoch, i);
          return if known then entries[i].start else 0;
        }
        known := true;
      }
      CountUpToIs(entries, epoch, |entries|);
      return if known then logEnd else 0;
    }

    /** Drops the entries that start at `newNext` or beyond, and rewrites the file if there were any. */
    method TruncateTo(newNext: nat)
      requires Valid()
      modifies this, store
      ensures Valid() && entries == old(entries)[..KeptEntries(old(entries), newNext)]
    {
      hide EncodeEpochs, EncodeEpoch, KeptEntries;
      var keep := 0;
      while keep < |entries| && entries[keep].start < newNext
        invariant keep <= |entries|
        invariant forall j {:trigger entries[j]} :: 0 <= j < keep ==> entries[j].start < newNext
      {
        keep := keep + 1;
      }
      KeptIs(entries, newNext, keep);
      if keep == |entries| {
        assert entries[..keep] == entries;
        return;
      }
      entries := entries[..keep];
      Rewrite();
    }

    method Rewrite()
      requires Monotone(entries)
      modifies store
      ensures Valid() && store.file == Some(EncodeEpochs(entries))
    {
      hide EncodeEpochs, EncodeEpoch;
      var bytes: seq<byte> := [];
      NothingEncoded([]);
      for i := 0 to |entries|
        invariant bytes == EncodeEpochs(entries[..i])
      {
        EncodeOneMore(entries[..i], entries[i]);
        assert entries[..i] + [entries[i]] == entries[..i + 1];
        bytes := bytes + EncodeEpoch(entries[i]);
      }
      assert entries[..|entries|] == entries;
      store.file := Some(bytes);
    }
  }

  lemma NothingEncoded(bytes: seq<byte>)
    ensures EncodeEpochs([]) == [] == bytes[..ENTRY_BYTES * 0]
  {
  }

  lemma KeptIs(es: seq<EpochStart>, newNext: nat, n: nat)
    requires n <= |es|
    requires forall i {:trigger es[i]} :: 0 <= i < n ==> es[i].start < newNext
    requires n < |es| ==> es[n].start >= newNext
    ensures KeptEntries(es, newNext) == n
  {
    hide KeptEntries;
    var m := KeptEntries(es, newNext);
    assert m < |es| ==> es[m].start >= newNext;
    assert n < |es| ==> es[n].start >= newNext;
  }

  lemma LoadOne(bytes: seq<byte>, entries: seq<EpochStart>, e: EpochStart)
    requires ENTRY_BYTES * (|entries| + 1) <= |bytes| && EncodeEpochs(entries) == bytes[..ENTRY_BYTES * |entries|]
    requires e == DecodeEpoch(bytes[ENTRY_BYTES * |entries|..ENTRY_BYTES * |entries| + ENTRY_BYTES])
    ensures EncodeEpochs(entries + [e]) == bytes[..ENTRY_BYTES * (|entries| + 1)]
  {
    hide EncodeEpochs, EncodeEpoch, DecodeEpoch;
    var i := ENTRY_BYTES * |entries|;
    EncodeOneMore(entries, e);
    EpochRebuilt(bytes[i..i + ENTRY_BYTES]);
    assert bytes[..i] + bytes[i..i + ENTRY_BYTES] == bytes[..i + ENTRY_BYTES];
  }

  /** A step back in the file means that no monotone list has this image. */
  lemma NotReadable(bytes: seq<byte>, entries: seq<EpochStart>, e: EpochStart)
    requires entries != [] && ENTRY_BYTES * (|entries| + 1) <= |bytes|
    requires EncodeEpochs(entries) == bytes[..ENTRY_BYTES * |entries|]
    requires e == DecodeEpoch(bytes[ENTRY_BYTES * |entries|..ENTRY_BYTES * |entries| + ENTRY_BYTES])
    requires e.epoch <= entries[|entries| - 1].epoch || e.start < entries[|entries| - 1].start
    ensures !exists es :: Readable(bytes, es)
  {
    hide EncodeEpochs, EncodeEpoch, DecodeEpoch;
    var n := |entries|;
    LoadOne(bytes, entries, e);
    forall es | EncodeEpochs(es) == bytes ensures !Monotone(es) {
      EncodedPrefix(es, n + 1);
      SameFileSameEntries(es[..n + 1], entries + [e]);
      assert es[n - 1] == entries[n - 1] && es[n] == e;
    }
  }
}
