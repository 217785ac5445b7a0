/** Wire primitives (src/proto/wire.rs) and the grammar of the message bodies built from them. */
module Wire {
  import opened Wrappers
  import opened Bytes

  datatype ProtoError = Truncated | Invalid | BadVersion(version: u8) | UnknownMsgType(msgType: u8)

  /** The shape of a body. An `Enum` is a number of which only the values up to `max` are known. */
  datatype Fmt =
    | FU8 | FU16 | FU32 | FU64 | FI32 | FI64
    | FEnum8(max8: u8) | FEnum16(max16: u16)
    | FStr | FBlob | FOptBlob
    | FStruct(fields: seq<Fmt>)
    | FList(item: Fmt)

  datatype Val =
    | VNum(n: int)
    | VBytes(b: seq<byte>)
    | VOpt(o: Option<seq<byte>>)
    | VStruct(parts: seq<Val>)
    | VList(items: seq<Val>)

  /** The values that the format can carry. */
  predicate Fits(f: Fmt, v: Val)
    decreases f
  {
    match f
    case FU8 => v.VNum? && 0 <= v.n < 0x100
    case FU16 => v.VNum? && 0 <= v.n < U16_RANGE
    case FU32 => v.VNum? && 0 <= v.n < U32_RANGE
    case FU64 => v.VNum? && 0 <= v.n < U64_RANGE
    case FI32 => v.VNum? && -0x8000_0000 <= v.n < 0x8000_0000
    case FI64 => v.VNum? && -0x8000_0000_0000_0000 <= v.n < 0x8000_0000_0000_0000
    case FEnum8(max) => v.VNum? && 0 <= v.n <= max
    case FEnum16(max) => v.VNum? && 0 <= v.n <= max
    case FStr => v.VBytes? && |v.b| < U16_RANGE
    case FBlob => v.VBytes? && |v.b| < U32_RANGE
    case FOptBlob => v.VOpt? && (v.o.Some? ==> |v.o.value| < 0x8000_0000)
    case FStruct(fields) =>
      v.VStruct? && |v.parts| == |fields|
      && forall i {:trigger fields[i]} {:trigger v.parts[i]} :: 0 <= i < |fields| ==> Fits(fields[i], v.parts[i])
    case FList(item) =>
      v.VList? && |v.items| < U32_RANGE
      && forall i {:trigger v.items[i]} :: 0 <= i < |v.items| ==> Fits(item, v.items[i])
  }

  // ---------------------------------------------------------------- encoding

  function PutStr(s: seq<byte>): seq<byte> { PutU16(AsU16(|s|)) + s }
  function PutBlob(s: seq<byte>): seq<byte> { PutU32(AsU32(|s|)) + s }
  function PutOptBlob(o: Option<seq<byte>>): seq<byte> {
    match o case None => PutI32(-1) case Some(s) => PutI32(AsI32(|s|)) + s
  }

  function Enc(f: Fmt, v: Val): seq<byte>
    requires Fits(f, v)
    decreases f, 1, 0
  {
    match f
    case FU8 => [v.n]
    case FU16 => PutU16(v.n)
    case FU32 => PutU32(v.n)
    case FU64 => PutU64(v.n)
    case FI32 => PutI32(v.n)
    case FI64 => PutI64(v.n)
    case FEnum8(_) => [v.n]
    case FEnum16(_) => PutU16(v.n)
    case FStr => PutStr(v.b)
    case FBlob => PutBlob(v.b)
    case FOptBlob => PutOptBlob(v.o)
    case FStruct(_) => EncFields(f, v.parts, |f.fields|)
    case FList(item) => PutU32(|v.items|) + EncItems(item, v.items)
  }

  /** The first `n` fields of a struct, of which at least these are known. */
  function EncFields(f: Fmt, parts: seq<Val>, n: nat): seq<byte>
    requires f.FStruct? && n <= |f.fields| && n <= |parts|
    requires forall i {:trigger parts[i]} :: 0 <= i < n ==> Fits(f.fields[i], parts[i])
    decreases f, 0, n
  {
    if n == 0 then [] else EncFields(f, parts, n - 1) + Enc(f.fields[n - 1], parts[n - 1])
  }

  function EncItems(item: Fmt, vs: seq<Val>): seq<byte>
    requires forall i {:trigger vs[i]} :: 0 <= i < |vs| ==> Fits(item, vs[i])
    decreases item, 2, |vs|
  {
    if vs == [] then [] else Enc(item, vs[0]) + EncItems(item, vs[1..])
  }

  // ---------------------------------------------------------------- decoding

  /** A value, and the position after it. */
  type Parsed = Result<(Val, nat), ProtoError>

  /** The next `n` bytes. */
  function Take(buf: seq<byte>, pos: nat, n: nat): (r: Result<(seq<byte>, nat), ProtoError>)
    ensures r.Ok? ==> |r.value.0| == n && r.value.1 == pos + n <= |buf|
  {
    if pos + n > |buf| then Err(Truncated) else Ok((buf[pos..pos + n], pos + n))
  }

  function DecU8(buf: seq<byte>, pos: nat): Result<(u8, nat), ProtoError> {
    match Take(buf, pos, 1) case Err(e) => Err(e) case Ok((s, p)) => Ok((s[0], p))
  }
  function DecU16(buf: seq<byte>, pos: nat): Result<(u16, nat), ProtoError> {
    match Take(buf, pos, 2) case Err(e) => Err(e) case Ok((s, p)) => Ok((GetU16(s), p))
  }
  function DecU32(buf: seq<byte>, pos: nat): Result<(u32, nat), ProtoError> {
    match Take(buf, pos, 4) case Err(e) => Err(e) case Ok((s, p)) => Ok((GetU32(s), p))
  }
  function DecU64(buf: seq<byte>, pos: nat): Result<(u64, nat), ProtoError> {
    match Take(buf, pos, 8) case Err(e) => Err(e) case Ok((s, p)) => Ok((GetU64(s), p))
  }
  function DecI32(buf: seq<byte>, pos: nat): Result<(i32, nat), ProtoError> {
    match Take(buf, pos, 4) case Err(e) => Err(e) case Ok((s, p)) => Ok((GetI32(s), p))
  }
  function DecI64(buf: seq<byte>, pos: nat): Result<(i64, nat), ProtoError> {
    match Take(buf, pos, 8) case Err(e) => Err(e) case Ok((s, p)) => Ok((GetI64(s), p))
  }
  function DecStr(buf: seq<byte>, pos: nat): Result<(seq<byte>, nat), ProtoError> {
    match DecU16(buf, pos) case Err(e) => Err(e) case Ok((n, p)) => Take(buf, p, n)
  }
  function DecBlob(buf: seq<byte>, pos: nat): Result<(seq<byte>, nat), ProtoError> {
    match DecU32(buf, pos) case Err(e) => Err(e) case Ok((n, p)) => Take(buf, p, n)
  }

  /** Any negative length means null. */
  function DecOptBlob(buf: seq<byte>, pos: nat): Result<(Option<seq<byte>>, nat), ProtoError> {
    match DecI32(buf, pos)
    case Err(e) => Err(e)
    case Ok((n, p)) =>
      if n < 0 then Ok((None, p))
      else match Take(buf, p, n) case Err(e) => Err(e) case Ok((s, q)) => Ok((Some(s), q))
  }

  function NumOf(r: Result<(int, nat), ProtoError>): Parsed {
    match r case Err(e) => Err(e) case Ok((n, p)) => Ok((VNum(n), p))
  }

  function BytesOf(r: Result<(seq<byte>, nat), ProtoError>): Parsed {
    match r case Err(e) => Err(e) case Ok((s, p)) => Ok((VBytes(s), p))
  }

  function KnownOf(r: Result<(int, nat), ProtoError>, max: int): Parsed {
    match r case Err(e) => Err(e) case Ok((n, p)) => if n <= max then Ok((VNum(n), p)) else Err(Invalid)
  }

  function Dec(f: Fmt, buf: seq<byte>, pos: nat): Parsed
    decreases f, 1, 0
  {
    match f
    case FU8 => NumOf(DecU8(buf, pos))
    case FU16 => NumOf(DecU16(buf, pos))
    case FU32 => NumOf(DecU32(buf, pos))
    case FU64 => NumOf(DecU64(buf, pos))
    case FI32 => NumOf(DecI32(buf, pos))
    case FI64 => NumOf(DecI64(buf, pos))
    case FEnum8(max) => KnownOf(DecU8(buf, pos), max)
    case FEnum16(max) => KnownOf(DecU16(buf, pos), max)
    case FStr => BytesOf(DecStr(buf, pos))
    case FBlob => BytesOf(DecBlob(buf, pos))
    case FOptBlob =>
      (match DecOptBlob(buf, pos) case Err(e) => Err(e) case Ok((o, p)) => Ok((VOpt(o), p)))
    case FStruct(_) => StructOf(DecFields(f, 0, buf, pos))
    case FList(item) =>
      (match DecU32(buf, pos)
       case Err(e) => Err(e)
       case Ok((n, p)) => ListOf(DecItems(item, n, buf, p)))
  }

  function StructOf(r: Result<(seq<Val>, nat), ProtoError>): Parsed {
    match r case Err(e) => Err(e) case Ok((vs, p)) => Ok((VStruct(vs), p))
  }

  /** The fields of a struct from the `i`th on. */
  function DecFields(f: Fmt, i: nat, buf: seq<byte>, pos: nat): Result<(seq<Val>, nat), ProtoError>
    requires f.FStruct? && i <= |f.fields|
    decreases f, 0, |f.fields| - i
  {
    if i == |f.fields| then Ok(([], pos))
    else
      match Dec(f.fields[i], buf, pos)
      case Err(e) => Err(e)
      case Ok((x, p)) => ConsOf(x, DecFields(f, i + 1, buf, p))
  }

  function ListOf(r: Result<(seq<Val>, nat), ProtoError>): Parsed {
    match r case Err(e) => Err(e) case Ok((vs, p)) => Ok((VList(vs), p))
  }

  function DecItems(item: Fmt, n: nat, buf: seq<byte>, pos: nat): Result<(seq<Val>, nat), ProtoError>
    decreases item, 2, n
  {
    if n == 0 then Ok(([], pos))
    else
      match Dec(item, buf, pos)
      case Err(e) => Err(e)
      case Ok((x, p)) =>
        ConsOf(x, DecItems(item, n - 1, buf, p))
  }

  function ConsOf(x: Val, r: Result<(seq<Val>, nat), ProtoError>): Result<(seq<Val>, nat), ProtoError> {
    match r case Err(e) => Err(e) case Ok((xs, q)) => Ok(([x] + xs, q))
  }

  // ---------------------------------------------------------------- what decoding may look at

  /** Decoding stays inside the buffer and looks at nothing past what it consumes: bytes before `pos` and after
      the end of the value can be anything. */
  predicate Stable(f: Fmt, buf: seq<byte>, pos: nat, buf2: seq<byte>, pos2: nat) {
    match Dec(f, buf, pos)
    case Err(_) => true
    case Ok((v, p)) =>
      && pos <= p <= |buf|
      && (SameBytes(buf, pos, p, buf2, pos2) ==> Dec(f, buf2, pos2) == Ok((v, pos2 + (p - pos))))
  }

  predicate SameBytes(buf: seq<byte>, pos: nat, p: nat, buf2: seq<byte>, pos2: nat) {
    pos <= p <= |buf| && pos2 + (p - pos) <= |buf2| && buf[pos..p] == buf2[pos2..pos2 + (p - pos)]
  }

  lemma TakeStable(buf: seq<byte>, pos: nat, n: nat, p: nat, buf2: seq<byte>, pos2: nat)
    requires pos <= |buf| && Take(buf, pos, n).Ok? && pos + n <= p && SameBytes(buf, pos, p, buf2, pos2)
    ensures Take(buf2, pos2, n) == Ok((Take(buf, pos, n).value.0, pos2 + n))
    ensures SameBytes(buf, pos + n, p, buf2, pos2 + n)
  {
    assert buf[pos..p][..n] == buf[pos..pos + n];
    assert buf2[pos2..pos2 + (p - pos)][..n] == buf2[pos2..pos2 + n];
    assert buf[pos..p][n..] == buf[pos + n..p];
    assert buf2[pos2..pos2 + (p - pos)][n..] == buf2[pos2 + n..pos2 + (p - pos)];
  }

  lemma SamePrefix(buf: seq<byte>, pos: nat, p: nat, q: nat, buf2: seq<byte>, pos2: nat)
    requires pos <= p <= q && SameBytes(buf, pos, q, buf2, pos2)
    ensures SameBytes(buf, pos, p, buf2, pos2) && SameBytes(buf, p, q, buf2, pos2 + (p - pos))
  {
    assert buf[pos..q][..p - pos] == buf[pos..p];
    assert buf2[pos2..pos2 + (q - pos)][..p - pos] == buf2[pos2..pos2 + (p - pos)];
    assert buf[pos..q][p - pos..] == buf[p..q];
    assert buf2[pos2..pos2 + (q - pos)][p - pos..] == buf2[pos2 + (p - pos)..pos2 + (q - pos)];
  }

  lemma NumStable(f: Fmt, buf: seq<byte>, pos: nat, buf2: seq<byte>, pos2: nat)
    requires f.FU8? || f.FU16? || f.FU32? || f.FU64? || f.FI32? || f.FI64? || f.FEnum8? || f.FEnum16?
    requires pos <= |buf|
    ensures Stable(f, buf, pos, buf2, pos2)
  {
    hide GetU16, GetU32, GetU64, GetI32, GetI64, SameBytes;
    var n := match f case FU8 => 1 case FEnum8(_) => 1 case FU16 => 2 case FEnum16(_) => 2
                     case FU32 => 4 case FI32 => 4 case _ => 8;
    if Take(buf, pos, n).Ok? && SameBytes(buf, pos, pos + n, buf2, pos2) {
      TakeStable(buf, pos, n, pos + n, buf2, pos2);
    }
  }

  lemma BytesStable(f: Fmt, buf: seq<byte>, pos: nat, buf2: seq<byte>, pos2: nat)
    requires f.FStr? || f.FBlob? || f.FOptBlob?
    requires pos <= |buf|
    ensures Stable(f, buf, pos, buf2, pos2)
  {
    hide GetU16, GetU32, GetI32, SameBytes;
    var n := if f.FStr? then 2 else 4;
    var r := Dec(f, buf, pos);
    if r.Ok? && SameBytes(buf, pos, r.value.1, buf2, pos2) {
      var p := r.value.1;
      TakeStable(buf, pos, n, p, buf2, pos2);
      if p > pos + n {
        TakeStable(buf, pos + n, p - (pos + n), p, buf2, pos2 + n);
      } else {
        TakeStable(buf, pos + n, 0, p, buf2, pos2 + n);
      }
    }
  }

  lemma {:induction false} DecStable(f: Fmt, buf: seq<byte>, pos: nat, buf2: seq<byte>, pos2: nat)
    requires pos <= |buf| && pos2 <= |buf2|
    ensures Stable(f, buf, pos, buf2, pos2)
    decreases f, 2, 0
  {
    hide DecU32, DecStr, DecBlob, DecOptBlob, SameBytes;
    match f
    case FStr => BytesStable(f, buf, pos, buf2, pos2);
    case FBlob => BytesStable(f, buf, pos, buf2, pos2);
    case FOptBlob => BytesStable(f, buf, pos, buf2, pos2);
    case FStruct(_) => FieldsStable(f, 0, buf, pos, buf2, pos2);
    case FList(item) => ListStable(item, buf, pos, buf2, pos2);
    case _ => NumStable(f, buf, pos, buf2, pos2);
  }

  predicate StableFields(f: Fmt, i: nat, buf: seq<byte>, pos: nat, buf2: seq<byte>, pos2: nat)
    requires f.FStruct? && i <= |f.fields|
  {
    match DecFields(f, i, buf, pos)
    case Err(_) => true
    case Ok((vs, p)) =>
      && pos <= p <= |buf| && |vs| == |f.fields| - i
      && (SameBytes(buf, pos, p, buf2, pos2) ==> DecFields(f, i, buf2, pos2) == Ok((vs, pos2 + (p - pos))))
  }

  lemma {:induction false} FieldsStable(f: Fmt, i: nat, buf: seq<byte>, pos: nat, buf2: seq<byte>, pos2: nat)
    requires f.FStruct? && i <= |f.fields| && pos <= |buf| && pos2 <= |buf2|
    ensures StableFields(f, i, buf, pos, buf2, pos2)
    decreases f, 0, |f.fields| - i
  {
    hide SameBytes, Dec, DecFields;
    UnfoldFields(f, i, buf, pos);
    UnfoldFields(f, i, buf2, pos2);
    if i < |f.fields| {
      DecStable(f.fields[i], buf, pos, buf2, pos2);
      var r := Dec(f.fields[i], buf, pos);
      if r.Ok? {
        var p := r.value.1;
        FieldsStable(f, i + 1, buf, p, buf2, pos2);
        var q := DecFields(f, i + 1, buf, p);
        if q.Ok? && SameBytes(buf, pos, q.value.1, buf2, pos2) {
          SamePrefix(buf, pos, p, q.value.1, buf2, pos2);
          InBuffer(buf, pos, p, buf2, pos2);
          FieldsStable(f, i + 1, buf, p, buf2, pos2 + (p - pos));
        }
      }
    }
  }

  lemma InBuffer(buf: seq<byte>, pos: nat, p: nat, buf2: seq<byte>, pos2: nat)
    requires SameBytes(buf, pos, p, buf2, pos2)
    ensures pos <= p <= |buf| && pos2 + (p - pos) <= |buf2|
  {
  }

  lemma UnfoldFields(f: Fmt, i: nat, buf: seq<byte>, pos: nat)
    requires f.FStruct? && i <= |f.fields|
    ensures i == |f.fields| ==> DecFields(f, i, buf, pos) == Ok(([], pos))
    ensures i < |f.fields| ==>
              var r := Dec(f.fields[i], buf, pos);
              DecFields(f, i, buf, pos) == if r.Err? then Err(r.error)
                  else ConsOf(r.value.0, DecFields(f, i + 1, buf, r.value.1))
  {
  }

  lemma UnfoldItems(item: Fmt, n: nat, buf: seq<byte>, pos: nat)
    ensures DecItems(item, n, buf, pos) ==
            if n == 0 then Ok(([], pos))
            else match Dec(item, buf, pos)
                 case Err(e) => Err(e)
                 case Ok((x, p)) => ConsOf(x, DecItems(item, n - 1, buf, p))
  {
  }

  predicate StableItems(item: Fmt, n: nat, buf: seq<byte>, pos: nat, buf2: seq<byte>, pos2: nat) {
    match DecItems(item, n, buf, pos)
    case Err(_) => true
    case Ok((vs, p)) =>
      && pos <= p <= |buf| && |vs| == n
      && (SameBytes(buf, pos, p, buf2, pos2) ==> DecItems(item, n, buf2, pos2) == Ok((vs, pos2 + (p - pos))))
  }

  lemma {:induction false} ItemsStable(item: Fmt, n: nat, buf: seq<byte>, pos: nat, buf2: seq<byte>, pos2: nat)
    requires pos <= |buf| && pos2 <= |buf2|
    ensures StableItems(item, n, buf, pos, buf2, pos2)
    decreases item, 3, n
  {
    hide SameBytes, Dec, DecItems;
    UnfoldItems(item, n, buf, pos);
    UnfoldItems(item, n, buf2, pos2);
    if n > 0 {
      DecStable(item, buf, pos, buf2, pos2);
      var r := Dec(item, buf, pos);
      if r.Ok? {
        var p := r.value.1;
        ItemsStable(item, n - 1, buf, p, buf2, pos2);
        var q := DecItems(item, n - 1, buf, p);
        if q.Ok? && SameBytes(buf, pos, q.value.1, buf2, pos2) {
          SamePrefix(buf, pos, p, q.value.1, buf2, pos2);
          InBuffer(buf, pos, p, buf2, pos2);
          ItemsStable(item, n - 1, buf, p, buf2, pos2 + (p - pos));
        }
      }
    }
  }

  lemma {:induction false} ListStable(item: Fmt, buf: seq<byte>, pos: nat, buf2: seq<byte>, pos2: nat)
    requires pos <= |buf| && pos2 <= |buf2|
    ensures Stable(FList(item), buf, pos, buf2, pos2)
    decreases FList(item), 1, 0
  {
    hide SameBytes, GetU32;
    if Take(buf, pos, 4).Ok? {
      var n := DecU32(buf, pos).value.0;
      ItemsStable(item, n, buf, pos + 4, buf2, pos2);
      var q := DecItems(item, n, buf, pos + 4);
      if q.Ok? && SameBytes(buf, pos, q.value.1, buf2, pos2) {
        TakeStable(buf, pos, 4, q.value.1, buf2, pos2);
        InBuffer(buf, pos + 4, q.value.1, buf2, pos2 + 4);
        ItemsStable(item, n, buf, pos + 4, buf2, pos2 + 4);
      }
    }
  }

  // ---------------------------------------------------------------- round trip

  /** Where a value was written, it is read back, whatever stands before and after it. */
  lemma ReadsBack(f: Fmt, v: Val, buf: seq<byte>, pos: nat)
    requires Fits(f, v) && Dec(f, Enc(f, v), 0) == Ok((v, |Enc(f, v)|))
    requires pos + |Enc(f, v)| <= |buf| && buf[pos..pos + |Enc(f, v)|] == Enc(f, v)
    ensures Dec(f, buf, pos) == Ok((v, pos + |Enc(f, v)|))
  {
    hide Dec, Enc, Fits;
    DecStable(f, Enc(f, v), 0, buf, pos);
    assert Enc(f, v)[0..|Enc(f, v)|] == Enc(f, v);
  }

  lemma NumReadsBack(f: Fmt, v: Val)
    requires f.FU8? || f.FU16? || f.FU32? || f.FU64? || f.FI32? || f.FI64? || f.FEnum8? || f.FEnum16?
    requires Fits(f, v)
    ensures Dec(f, Enc(f, v), 0) == Ok((v, |Enc(f, v)|))
  {
    hide GetU16, GetU32, GetU64, GetI32, GetI64, PutU16, PutU32, PutU64, PutI32, PutI64;
    var e := Enc(f, v);
    assert e[0..|e|] == e;
    match f
    case FU16 => GetPutU16(v.n);
    case FEnum16(_) => GetPutU16(v.n);
    case FU32 => GetPutU32(v.n);
    case FU64 => GetPutU64(v.n);
    case FI32 => GetPutI32(v.n);
    case FI64 => GetPutI64(v.n);
    case _ =>
  }

  lemma StrReadsBack(b: seq<byte>)
    requires |b| < U16_RANGE
    ensures DecStr(PutStr(b), 0) == Ok((b, |PutStr(b)|))
  {
    hide GetU16, PutU16;
    var e := PutStr(b);
    GetPutU16(AsU16(|b|));
    assert e[0..2] == PutU16(AsU16(|b|)) && e[2..2 + |b|] == b;
  }

  lemma BlobReadsBack(b: seq<byte>)
    requires |b| < U32_RANGE
    ensures DecBlob(PutBlob(b), 0) == Ok((b, |PutBlob(b)|))
  {
    hide GetU32, PutU32;
    var e := PutBlob(b);
    GetPutU32(AsU32(|b|));
    assert e[0..4] == PutU32(AsU32(|b|)) && e[4..4 + |b|] == b;
  }

  lemma OptBlobReadsBack(o: Option<seq<byte>>)
    requires o.Some? ==> |o.value| < 0x8000_0000
    ensures DecOptBlob(PutOptBlob(o), 0) == Ok((o, |PutOptBlob(o)|))
  {
    hide GetI32, PutI32;
    var e := PutOptBlob(o);
    match o
    case None =>
      GetPutI32(-1);
      assert e[0..4] == PutI32(-1);
    case Some(b) =>
      GetPutI32(AsI32(|b|));
      assert e[0..4] == PutI32(AsI32(|b|)) && e[4..4 + |b|] == b;
  }

  lemma {:induction false} EncDec(f: Fmt, v: Val)
    requires Fits(f, v)
    ensures Dec(f, Enc(f, v), 0) == Ok((v, |Enc(f, v)|))
    decreases f, 2, 0
  {
    hide DecU8, DecU16, DecU32, DecU64, DecI32, DecI64, DecStr, DecBlob, DecOptBlob, PutStr, PutBlob, PutOptBlob,
      PutU16, PutU32, PutU64, PutI32, PutI64;
    match f
    case FStr => StrReadsBack(v.b);
    case FBlob => BlobReadsBack(v.b);
    case FOptBlob => OptBlobReadsBack(v.o);
    case FStruct(_) => StructReadsBack(f, v);
    case FList(item) => ListReadsBack(item, v.items);
    case _ => NumReadsBack(f, v);
  }

  /** The fields before the `n`th stand at the front of the encoding, the `n`th right after them. */
  lemma {:induction false} FieldAt(f: Fmt, parts: seq<Val>, i: nat, n: nat)
    requires f.FStruct? && i < n <= |f.fields| && n <= |parts|
    requires forall j {:trigger parts[j]} :: 0 <= j < n ==> Fits(f.fields[j], parts[j])
    ensures var e, a, b := EncFields(f, parts, n), EncFields(f, parts, i), Enc(f.fields[i], parts[i]);
            && EncFields(f, parts, i + 1) == a + b && |a| + |b| <= |e| && e[|a|..|a| + |b|] == b
    decreases n
  {
    hide Enc;
    if i < n - 1 {
      FieldAt(f, parts, i, n - 1);
    }
  }

  lemma {:induction false} FieldsReadBack(f: Fmt, parts: seq<Val>, i: nat)
    requires f.FStruct? && |parts| == |f.fields| && i <= |f.fields|
    requires forall j {:trigger parts[j]} :: 0 <= j < |parts| ==> Fits(f.fields[j], parts[j])
    ensures |EncFields(f, parts, i)| <= |EncFields(f, parts, |f.fields|)|
    ensures var e := EncFields(f, parts, |f.fields|);
            DecFields(f, i, e, |EncFields(f, parts, i)|) == Ok((parts[i..], |e|))
    decreases f, 0, |f.fields| - i
  {
    hide Dec, Enc, DecFields, EncFields, Fits;
    var e := EncFields(f, parts, |f.fields|);
    if i < |f.fields| {
      FieldAt(f, parts, i, |f.fields|);
      EncDec(f.fields[i], parts[i]);
      FieldsReadBack(f, parts, i + 1);
      FieldJoin(f, parts[i], i, e, |EncFields(f, parts, i)|, parts[i + 1..]);
      PartsFrom(parts, i);
    } else {
      UnfoldFields(f, i, e, |e|);
      assert parts[i..] == [];
    }
  }

  lemma PartsFrom(vs: seq<Val>, i: nat)
    requires i < |vs|
    ensures [vs[i]] + vs[i + 1..] == vs[i..]
  {
  }

  lemma FieldJoin(f: Fmt, x: Val, i: nat, e: seq<byte>, pos: nat, rest: seq<Val>)
    requires f.FStruct? && i < |f.fields| && Fits(f.fields[i], x)
    requires var b := Enc(f.fields[i], x);
             && Dec(f.fields[i], b, 0) == Ok((x, |b|))
             && pos + |b| <= |e| && e[pos..pos + |b|] == b
             && DecFields(f, i + 1, e, pos + |b|) == Ok((rest, |e|))
    ensures DecFields(f, i, e, pos) == Ok(([x] + rest, |e|))
  {
    hide Dec, Enc, DecFields, Fits;
    UnfoldFields(f, i, e, pos);
    ReadsBack(f.fields[i], x, e, pos);
  }

  lemma {:induction false} StructReadsBack(f: Fmt, v: Val)
    requires f.FStruct? && Fits(f, v)
    ensures Dec(f, Enc(f, v), 0) == Ok((v, |Enc(f, v)|))
    decreases f, 1, 0
  {
    FieldsReadBack(f, v.parts, 0);
    assert EncFields(f, v.parts, 0) == [] && v.parts[0..] == v.parts;
  }

  lemma UnfoldEncList(item: Fmt, vs: seq<Val>)
    requires Fits(FList(item), VList(vs))
    ensures forall i {:trigger vs[i]} :: 0 <= i < |vs| ==> Fits(item, vs[i])
    ensures |vs| < U32_RANGE && Enc(FList(item), VList(vs)) == PutU32(|vs|) + EncItems(item, vs)
  {
  }

  lemma UnfoldEncItems(item: Fmt, vs: seq<Val>)
    requires vs != [] && forall i {:trigger vs[i]} :: 0 <= i < |vs| ==> Fits(item, vs[i])
    ensures forall i {:trigger vs[1..][i]} :: 0 <= i < |vs| - 1 ==> Fits(item, vs[1..][i])
    ensures EncItems(item, vs) == Enc(item, vs[0]) + EncItems(item, vs[1..])
  {
  }

  lemma UnfoldList(item: Fmt, buf: seq<byte>, pos: nat)
    requires DecU32(buf, pos).Ok?
    ensures Dec(FList(item), buf, pos)
        == ListOf(DecItems(item, DecU32(buf, pos).value.0, buf, DecU32(buf, pos).value.1))
  {
  }

  lemma Halves(a: seq<byte>, b: seq<byte>)
    ensures (a + b)[0..0 + |a|] == a && (a + b)[|a|..|a| + |b|] == b
    ensures a[0..|a|] == a && b[0..|b|] == b
  {
  }

  lemma {:induction false} ItemsReadBack(item: Fmt, vs: seq<Val>)
    requires forall i {:trigger vs[i]} :: 0 <= i < |vs| ==> Fits(item, vs[i])
    ensures DecItems(item, |vs|, EncItems(item, vs), 0) == Ok((vs, |EncItems(item, vs)|))
    decreases item, 3, |vs|
  {
    hide Dec, Enc, Fits, DecItems;
    UnfoldItems(item, |vs|, EncItems(item, vs), 0);
    if vs != [] {
      UnfoldEncItems(item, vs);
      EncDec(item, vs[0]);
      ItemsReadBack(item, vs[1..]);
      hide EncItems, SameBytes;
      ItemsJoin(item, vs, Enc(item, vs[0]), EncItems(item, vs[1..]));
    } else {
      assert EncItems(item, vs) == [];
    }
  }

  lemma ItemsJoin(item: Fmt, vs: seq<Val>, ea: seq<byte>, eb: seq<byte>)
    requires vs != [] && Fits(item, vs[0]) && ea == Enc(item, vs[0]) && Dec(item, ea, 0) == Ok((vs[0], |ea|))
    requires DecItems(item, |vs| - 1, eb, 0) == Ok((vs[1..], |eb|))
    ensures DecItems(item, |vs|, ea + eb, 0) == Ok((vs, |ea + eb|))
  {
    hide Dec, Enc, Fits, DecItems;
    Halves(ea, eb);
    ReadsBack(item, vs[0], ea + eb, 0);
    ItemsStable(item, |vs| - 1, eb, 0, ea + eb, |ea|);
    UnfoldItems(item, |vs|, ea + eb, 0);
    assert [vs[0]] + vs[1..] == vs;
  }

  lemma {:induction false} ListReadsBack(item: Fmt, vs: seq<Val>)
    requires Fits(FList(item), VList(vs))
    ensures Dec(FList(item), Enc(FList(item), VList(vs)), 0) == Ok((VList(vs), |Enc(FList(item), VList(vs))|))
    decreases FList(item), 1, 0
  {
    UnfoldEncList(item, vs);
    ItemsReadBack(item, vs);
    hide Dec, Enc, Fits, DecItems, EncItems, PutU32, GetU32;
    var ea, eb := PutU32(|vs|), EncItems(item, vs);
    Halves(ea, eb);
    GetPutU32(|vs|);
    ItemsStable(item, |vs|, eb, 0, ea + eb, 4);
    UnfoldList(item, ea + eb, 0);
  }

  // ---------------------------------------------------------------- building a value part by part

  /** The encoding of known parts does not depend on the parts that follow. */
  lemma {:induction false} EncFieldsPrefix(f: Fmt, parts: seq<Val>, x: Val, n: nat)
    requires f.FStruct? && n <= |f.fields| && n <= |parts|
    requires forall i {:trigger parts[i]} :: 0 <= i < n ==> Fits(f.fields[i], parts[i])
    ensures forall i {:trigger (parts + [x])[i]} :: 0 <= i < n ==> Fits(f.fields[i], (parts + [x])[i])
    ensures EncFields(f, parts + [x], n) == EncFields(f, parts, n)
    decreases n
  {
    hide Enc;
    if n > 0 {
      EncFieldsPrefix(f, parts, x, n - 1);
    }
  }

  lemma {:induction false} EncItemsAppend(item: Fmt, vs: seq<Val>, x: Val)
    requires (forall i {:trigger vs[i]} :: 0 <= i < |vs| ==> Fits(item, vs[i])) && Fits(item, x)
    ensures forall i {:trigger (vs + [x])[i]} :: 0 <= i < |vs| + 1 ==> Fits(item, (vs + [x])[i])
    ensures EncItems(item, vs + [x]) == EncItems(item, vs) + Enc(item, x)
    decreases |vs|
  {
    hide Enc, Fits;
    if vs == [] {
      assert [] + [x] == [x] && [x][1..] == [];
    } else {
      EncItemsAppend(item, vs[1..], x);
      assert (vs + [x])[1..] == vs[1..] + [x];
    }
  }

  /** What is read after the parts already in hand. */
  function After(parts: seq<Val>, r: Result<(seq<Val>, nat), ProtoError>): Result<(seq<Val>, nat), ProtoError> {
    match r case Err(e) => Err(e) case Ok((vs, p)) => Ok((parts + vs, p))
  }

  lemma AfterCons(parts: seq<Val>, x: Val, r: Result<(seq<Val>, nat), ProtoError>)
    ensures After(parts, ConsOf(x, r)) == After(parts + [x], r)
    ensures After([], r) == r
  {
    if r.Ok? {
      assert parts + ([x] + r.value.0) == parts + [x] + r.value.0;
      assert [] + r.value.0 == r.value.0;
    }
  }

  // ---------------------------------------------------------------- whole bodies

  /** A body is one value and nothing after it (`expect_end`). */
  function DecBody(f: Fmt, buf: seq<byte>, pos: nat): Result<Val, ProtoError> {
    match Dec(f, buf, pos)
    case Err(e) => Err(e)
    case Ok((v, p)) => if p == |buf| then Ok(v) else Err(Invalid)
  }

  lemma BodyReadsBack(f: Fmt, v: Val, head: seq<byte>)
    requires Fits(f, v)
    ensures DecBody(f, head + Enc(f, v), |head|) == Ok(v)
  {
    EncDec(f, v);
    hide Dec, Enc, Fits;
    ReadsBack(f, v, head + Enc(f, v), |head|);
  }

  lemma TrailingRejected(f: Fmt, v: Val, head: seq<byte>, rest: seq<byte>)
    requires Fits(f, v) && rest != []
    ensures DecBody(f, head + Enc(f, v) + rest, |head|) == Err(Invalid)
  {
    EncDec(f, v);
    hide Dec, Enc, Fits;
    var buf := head + Enc(f, v) + rest;
    assert buf[|head|..|head| + |Enc(f, v)|] == Enc(f, v);
    ReadsBack(f, v, buf, |head|);
  }

  /** No proper prefix of a body is a body of the same format. */
  lemma PrefixRejected(f: Fmt, v: Val, head: seq<byte>, k: nat)
    requires Fits(f, v) && k < |Enc(f, v)|
    ensures DecBody(f, head + Enc(f, v)[..k], |head|).Err?
  {
    EncDec(f, v);
    hide Enc, Fits, Dec, SameBytes;
    var e := Enc(f, v);
    var cut, whole := head + e[..k], head + e;
    assert whole[|head|..|head| + |e|] == e;
    ReadsBack(f, v, whole, |head|);
    DecStable(f, cut, |head|, whole, |head|);
    CutIsSame(cut, whole, |head|);
  }

  lemma CutIsSame(cut: seq<byte>, whole: seq<byte>, pos: nat)
    requires pos <= |cut| && cut <= whole
    ensures forall p: nat {:trigger SameBytes(cut, pos, p, whole, pos)} ::
        pos <= p <= |cut| ==> SameBytes(cut, pos, p, whole, pos)
  {
  }
}
