/** Writing and reading messages in place (src/proto/wire.rs): a byte vector that grows and a reader that advances.
    Ghost fields record which format is being written or read and which of its parts are done. */
module WireIO {
  import opened Wrappers
  import opened Bytes
  import opened Wire

  function Nums(ids: seq<u32>): (vs: seq<Val>)
    ensures |vs| == |ids| && forall i {:trigger vs[i]} :: 0 <= i < |ids| ==> vs[i] == VNum(ids[i])
  {
    seq(|ids|, i requires 0 <= i < |ids| => VNum(ids[i]))
  }

  class BodyWriter {
    var data: seq<byte>
    ghost var head: seq<byte>
    ghost var fmt: Fmt
    ghost var parts: seq<Val>

    /** The bytes so far are `head` and the first parts of a struct of format `fmt`. */
    ghost predicate Writing()
      reads this
    {
      && fmt.FStruct? && |parts| <= |fmt.fields|
      && (forall i {:trigger parts[i]} :: 0 <= i < |parts| ==> Fits(fmt.fields[i], parts[i]))
      && data == head + EncFields(fmt, parts, |parts|)
    }

    ghost predicate Next(f: Fmt)
      reads this
    {
      fmt.FStruct? && |parts| < |fmt.fields| && fmt.fields[|parts|] == f
    }

    constructor ()
      ensures data == [] && head == []
    {
      data, head, fmt, parts := [], [], FU8, [];
    }

    ghost method Begin(f: Fmt)
      requires f.FStruct?
      modifies `head, `fmt, `parts
      ensures Writing() && head == data && fmt == f && parts == []
    {
      head, fmt, parts := data, f, [];
      assert head + [] == head;
    }

    /** One more part has been written. */
    ghost method Wrote(f: Fmt, x: Val, before: seq<byte>, more: seq<byte>)
      requires fmt.FStruct? && |parts| < |fmt.fields| && fmt.fields[|parts|] == f && Fits(f, x) && more == Enc(f, x)
      requires forall i {:trigger parts[i]} :: 0 <= i < |parts| ==> Fits(fmt.fields[i], parts[i])
      requires before == head + EncFields(fmt, parts, |parts|) && data == before + more
      modifies `parts
      ensures Writing() && parts == old(parts) + [x]
    {
      hide Enc, Fits;
      EncFieldsPrefix(fmt, parts, x, |parts|);
      assert head + EncFields(fmt, parts, |parts|) + more == head + (EncFields(fmt, parts, |parts|) + more);
      parts := parts + [x];
    }

    /** The struct is complete; `h`, `f` and `ps` say what it is a part of. */
    ghost method End(h: seq<byte>, f: Fmt, ps: seq<Val>)
      requires Writing() && |parts| == |fmt.fields|
      modifies `head, `fmt, `parts
      ensures Fits(old(fmt), VStruct(old(parts))) && data == old(head) + Enc(old(fmt), VStruct(old(parts)))
      ensures head == h && fmt == f && parts == ps
    {
      head, fmt, parts := h, f, ps;
    }

    method Extend(s: seq<byte>)
      modifies `data
      ensures data == old(data) + s
    {
      data := data + s;
    }

    method Enum8(n: u8, ghost max: u8)
      requires Writing() && Next(FEnum8(max)) && n <= max
      modifies `data, `parts
      ensures Writing() && parts == old(parts) + [VNum(n)]
    {
      Extend([n]);
      Wrote(FEnum8(max), VNum(n), old(data), [n]);
    }

    method Enum16(n: u16, ghost max: u16)
      requires Writing() && Next(FEnum16(max)) && n <= max
      modifies `data, `parts
      ensures Writing() && parts == old(parts) + [VNum(n)]
    {
      hide PutU16;
      Extend(PutU16(n));
      Wrote(FEnum16(max), VNum(n), old(data), PutU16(n));
    }

    method U32(n: u32)
      requires Writing() && Next(FU32)
      modifies `data, `parts
      ensures Writing() && parts == old(parts) + [VNum(n)]
    {
      hide PutU32;
      Extend(PutU32(n));
      Wrote(FU32, VNum(n), old(data), PutU32(n));
    }

    method U64(n: u64)
      requires Writing() && Next(FU64)
      modifies `data, `parts
      ensures Writing() && parts == old(parts) + [VNum(n)]
    {
      hide PutU64;
      Extend(PutU64(n));
      Wrote(FU64, VNum(n), old(data), PutU64(n));
    }

    method I32(n: i32)
      requires Writing() && Next(FI32)
      modifies `data, `parts
      ensures Writing() && parts == old(parts) + [VNum(n)]
    {
      hide PutI32;
      Extend(PutI32(n));
      Wrote(FI32, VNum(n), old(data), PutI32(n));
    }

    method I64(n: i64)
      requires Writing() && Next(FI64)
      modifies `data, `parts
      ensures Writing() && parts == old(parts) + [VNum(n)]
    {
      hide PutI64;
      Extend(PutI64(n));
      Wrote(FI64, VNum(n), old(data), PutI64(n));
    }

    method Str(s: seq<byte>)
      requires Writing() && Next(FStr) && |s| < U16_RANGE
      modifies `data, `parts
      ensures Writing() && parts == old(parts) + [VBytes(s)]
    {
      hide PutU16;
      Extend(PutU16(AsU16(|s|)));
      Extend(s);
      assert data == old(data) + PutStr(s);
      Wrote(FStr, VBytes(s), old(data), PutStr(s));
    }

    method Blob(s: seq<byte>)
      requires Writing() && Next(FBlob) && |s| < U32_RANGE
      modifies `data, `parts
      ensures Writing() && parts == old(parts) + [VBytes(s)]
    {
      hide PutU32;
      Extend(PutU32(AsU32(|s|)));
      Extend(s);
      assert data == old(data) + PutBlob(s);
      Wrote(FBlob, VBytes(s), old(data), PutBlob(s));
    }

    method OptBlob(o: Option<seq<byte>>)
      requires Writing() && Next(FOptBlob) && (o.Some? ==> |o.value| < 0x8000_0000)
      modifies `data, `parts
      ensures Writing() && parts == old(parts) + [VOpt(o)]
    {
      hide PutI32;
      if o.None? {
        Extend(PutI32(-1));
      } else {
        Extend(PutI32(AsI32(|o.value|)));
        Extend(o.value);
      }
      assert data == old(data) + PutOptBlob(o);
      Wrote(FOptBlob, VOpt(o), old(data), PutOptBlob(o));
    }

    /** A count, then the ids. */
    method U32List(ids: seq<u32>)
      requires Writing() && Next(FList(FU32)) && |ids| < U32_RANGE
      modifies `data, `parts
      ensures Writing() && parts == old(parts) + [VList(Nums(ids))]
    {
      hide PutU32, Nums, EncFields;
      Extend(PutU32(AsU32(|ids|)));
      ghost var start := data;
      ghost var vs := Nums(ids);
      NoItems(FU32, data);
      for i := 0 to |ids|
        invariant head == old(head) && fmt == old(fmt) && parts == old(parts)
        invariant data == start + EncItems(FU32, vs[..i])
      {
        NextItem(FU32, vs, i, start);
        Extend(PutU32(ids[i]));
      }
      assert vs[..|vs|] == vs;
      WroteList(FU32, vs, old(data));
    }

    /** A whole list has been written. */
    ghost method WroteList(item: Fmt, vs: seq<Val>, before: seq<byte>)
      requires fmt.FStruct? && |parts| < |fmt.fields| && fmt.fields[|parts|] == FList(item)
      requires |vs| < U32_RANGE && forall i {:trigger vs[i]} :: 0 <= i < |vs| ==> Fits(item, vs[i])
      requires forall i {:trigger parts[i]} :: 0 <= i < |parts| ==> Fits(fmt.fields[i], parts[i])
      requires before == head + EncFields(fmt, parts, |parts|)
      requires data == before + PutU32(|vs|) + EncItems(item, vs)
      modifies `parts
      ensures Writing() && parts == old(parts) + [VList(vs)]
    {
      ListBytes(item, vs, before);
      hide *;
      Wrote(FList(item), VList(vs), before, Enc(FList(item), VList(vs)));
    }
  }

  lemma ListBytes(item: Fmt, vs: seq<Val>, before: seq<byte>)
    requires |vs| < U32_RANGE && forall i {:trigger vs[i]} :: 0 <= i < |vs| ==> Fits(item, vs[i])
    ensures Fits(FList(item), VList(vs))
    ensures before + PutU32(|vs|) + EncItems(item, vs) == before + Enc(FList(item), VList(vs))
  {
    ListFits(item, vs);
    UnfoldEncList(item, vs);
    hide PutU32, EncFields, EncItems, Enc, Fits;
    Joined(before, PutU32(|vs|), EncItems(item, vs));
  }

  lemma Joined(a: seq<byte>, b: seq<byte>, c: seq<byte>)
    ensures a + b + c == a + (b + c)
  {
  }

  lemma ListFits(item: Fmt, vs: seq<Val>)
    requires |vs| < U32_RANGE && forall i {:trigger vs[i]} :: 0 <= i < |vs| ==> Fits(item, vs[i])
    ensures Fits(FList(item), VList(vs))
  {
  }

  lemma NoItems(item: Fmt, data: seq<byte>)
    ensures forall vs: seq<Val> {:trigger vs[..0]} :: vs[..0] == [] && data == data + EncItems(item, vs[..0])
  {
    assert EncItems(item, []) == [] && data + [] == data;
    forall vs: seq<Val> ensures vs[..0] == [] && data == data + EncItems(item, vs[..0]) {
      assert vs[..0] == [];
    }
  }

  lemma NextItem(item: Fmt, vs: seq<Val>, i: nat, start: seq<byte>)
    requires i < |vs| && forall j {:trigger vs[j]} :: 0 <= j < |vs| ==> Fits(item, vs[j])
    ensures start + EncItems(item, vs[..i + 1]) == start + EncItems(item, vs[..i]) + Enc(item, vs[i])
  {
    hide Enc, Fits;
    EncItemsAppend(item, vs[..i], vs[i]);
    assert vs[..i] + [vs[i]] == vs[..i + 1];
  }

  class Reader {
    const buf: seq<byte>
    var pos: nat
    ghost var from: nat
    ghost var fmt: Fmt
    ghost var parts: seq<Val>

    /** Reading a struct of format `fmt` from position `from` gives `parts` and whatever follows `pos`. */
    ghost predicate Reading()
      reads this
    {
      && pos <= |buf| && fmt.FStruct? && |parts| <= |fmt.fields|
      && DecFields(fmt, 0, buf, from) == After(parts, DecFields(fmt, |parts|, buf, pos))
    }

    ghost predicate Next(f: Fmt)
      reads this
    {
      fmt.FStruct? && |parts| < |fmt.fields| && fmt.fields[|parts|] == f
    }

    /** The struct cannot be read. */
    ghost predicate Fails(e: ProtoError)
      reads this
    {
      fmt.FStruct? && Dec(fmt, buf, from) == Err(e)
    }

    constructor (buf: seq<byte>)
      ensures this.buf == buf && pos == 0
    {
      this.buf, pos, from, fmt, parts := buf, 0, 0, FU8, [];
    }

    ghost method Begin(f: Fmt)
      requires f.FStruct? && pos <= |buf|
      modifies `from, `fmt, `parts
      ensures Reading() && from == pos && fmt == f && parts == []
    {
      hide DecFields;
      from, fmt, parts := pos, f, [];
      AfterCons([], VNum(0), DecFields(fmt, 0, buf, pos));
    }

    /** Back to what the struct just read is a part of. */
    ghost method Resume(f0: nat, f1: Fmt, f2: seq<Val>)
      modifies `from, `fmt, `parts
      ensures from == f0 && fmt == f1 && parts == f2
    {
      from, fmt, parts := f0, f1, f2;
    }

    /** One more part has been read, up to the present position. */
    ghost method Got(f: Fmt, x: Val, before: nat)
      requires fmt.FStruct? && |parts| < |fmt.fields| && fmt.fields[|parts|] == f && pos <= |buf|
      requires DecFields(fmt, 0, buf, from) == After(parts, DecFields(fmt, |parts|, buf, before))
      requires Dec(f, buf, before) == Ok((x, pos))
      modifies `parts
      ensures Reading() && parts == old(parts) + [x]
    {
      hide Dec, DecFields, After;
      UnfoldFields(fmt, |parts|, buf, before);
      AfterCons(parts, x, DecFields(fmt, |parts| + 1, buf, pos));
      parts := parts + [x];
    }

    lemma Missed(f: Fmt, e: ProtoError, before: nat)
      requires fmt.FStruct? && |parts| < |fmt.fields| && fmt.fields[|parts|] == f
      requires DecFields(fmt, 0, buf, from) == After(parts, DecFields(fmt, |parts|, buf, before))
      requires Dec(f, buf, before) == Err(e)
      ensures Fails(e)
    {
      UnfoldFields(fmt, |parts|, buf, before);
    }

    /** A struct whose parts have all been read. */
    lemma Done()
      requires Reading() && |parts| == |fmt.fields|
      ensures pos <= |buf| && Dec(fmt, buf, from) == Ok((VStruct(parts), pos))
    {
      UnfoldFields(fmt, |parts|, buf, pos);
      assert parts + [] == parts;
    }

    method TakeBytes(n: nat) returns (r: Result<seq<byte>, ProtoError>)
      requires pos <= |buf|
      modifies `pos
      ensures match Take(buf, old(pos), n)
              case Err(e) => r == Err(e) && pos == old(pos)
              case Ok((s, p)) => r == Ok(s) && pos == p
    {
      if |buf| - pos < n {
        return Err(Truncated);
      }
      r := Ok(buf[pos..pos + n]);
      pos := pos + n;
    }

    /** A number that is not a part of its own: the count of a list. */
    method Count() returns (r: Result<u32, ProtoError>)
      requires pos <= |buf|
      modifies `pos
      ensures pos <= |buf|
      ensures match DecU32(buf, old(pos)) case Err(e) => r == Err(e) case Ok((n, p)) => r == Ok(n) && pos == p
    {
      hide GetU32;
      var s :- TakeBytes(4);
      return Ok(GetU32(s));
    }

    /** A byte of which only the values up to `max` are known. */
    method Enum8(max: u8) returns (r: Result<u8, ProtoError>)
      requires Reading() && Next(FEnum8(max))
      modifies `pos, `parts
      ensures r.Ok? ==> Reading() && parts == old(parts) + [VNum(r.value)] && r.value <= max
      ensures r.Err? ==> Fails(r.error)
    {
      var s := TakeBytes(1);
      if s.Err? {
        Missed(FEnum8(max), s.error, old(pos));
        return Err(s.error);
      }
      if s.value[0] > max {
        Missed(FEnum8(max), Invalid, old(pos));
        return Err(Invalid);
      }
      Got(FEnum8(max), VNum(s.value[0]), old(pos));
      return Ok(s.value[0]);
    }

    method Enum16(max: u16) returns (r: Result<u16, ProtoError>)
      requires Reading() && Next(FEnum16(max))
      modifies `pos, `parts
      ensures r.Ok? ==> Reading() && parts == old(parts) + [VNum(r.value)] && r.value <= max
      ensures r.Err? ==> Fails(r.error)
    {
      hide GetU16;
      var s := TakeBytes(2);
      if s.Err? {
        Missed(FEnum16(max), s.error, old(pos));
        return Err(s.error);
      }
      var n: int := GetU16(s.value);
      if n > max {
        Missed(FEnum16(max), Invalid, old(pos));
        return Err(Invalid);
      }
      Got(FEnum16(max), VNum(n), old(pos));
      return Ok(n);
    }

    method U32() returns (r: Result<u32, ProtoError>)
      requires Reading() && Next(FU32)
      modifies `pos, `parts
      ensures r.Ok? ==> Reading() && parts == old(parts) + [VNum(r.value)]
      ensures r.Err? ==> Fails(r.error)
    {
      hide GetU32;
      var s := TakeBytes(4);
      if s.Err? {
        Missed(FU32, s.error, old(pos));
        return Err(s.error);
      }
      Got(FU32, VNum(GetU32(s.value)), old(pos));
      return Ok(GetU32(s.value));
    }

    method U64() returns (r: Result<u64, ProtoError>)
      requires Reading() && Next(FU64)
      modifies `pos, `parts
      ensures r.Ok? ==> Reading() && parts == old(parts) + [VNum(r.value)]
      ensures r.Err? ==> Fails(r.error)
    {
      hide GetU64;
      var s := TakeBytes(8);
      if s.Err? {
        Missed(FU64, s.error, old(pos));
        return Err(s.error);
      }
      Got(FU64, VNum(GetU64(s.value)), old(pos));
      return Ok(GetU64(s.value));
    }

    method I32() returns (r: Result<i32, ProtoError>)
      requires Reading() && Next(FI32)
      modifies `pos, `parts
      ensures r.Ok? ==> Reading() && parts == old(parts) + [VNum(r.value)]
      ensures r.Err? ==> Fails(r.error)
    {
      hide GetI32;
      var s := TakeBytes(4);
      if s.Err? {
        Missed(FI32, s.error, old(pos));
        return Err(s.error);
      }
      Got(FI32, VNum(GetI32(s.value)), old(pos));
      return Ok(GetI32(s.value));
    }

    method I64() returns (r: Result<i64, ProtoError>)
      requires Reading() && Next(FI64)
      modifies `pos, `parts
      ensures r.Ok? ==> Reading() && parts == old(parts) + [VNum(r.value)]
      ensures r.Err? ==> Fails(r.error)
    {
      hide GetI64;
      var s := TakeBytes(8);
      if s.Err? {
        Missed(FI64, s.error, old(pos));
        return Err(s.error);
      }
      Got(FI64, VNum(GetI64(s.value)), old(pos));
      return Ok(GetI64(s.value));
    }

    method Str() returns (r: Result<seq<byte>, ProtoError>)
      requires Reading() && Next(FStr)
      modifies `pos, `parts
      ensures r.Ok? ==> Reading() && parts == old(parts) + [VBytes(r.value)]
      ensures r.Err? ==> Fails(r.error)
    {
      hide GetU16, DecFields;
      var s := TakeBytes(2);
      if s.Err? {
        Missed(FStr, s.error, old(pos));
        return Err(s.error);
      }
      r := TakeBytes(GetU16(s.value));
      if r.Err? {
        Missed(FStr, r.error, old(pos));
        return;
      }
      Got(FStr, VBytes(r.value), old(pos));
    }

    method Blob() returns (r: Result<seq<byte>, ProtoError>)
      requires Reading() && Next(FBlob)
      modifies `pos, `parts
      ensures r.Ok? ==> Reading() && parts == old(parts) + [VBytes(r.value)]
      ensures r.Err? ==> Fails(r.error)
    {
      hide GetU32, DecFields;
      var s := TakeBytes(4);
      if s.Err? {
        Missed(FBlob, s.error, old(pos));
        return Err(s.error);
      }
      r := TakeBytes(GetU32(s.value));
      if r.Err? {
        Missed(FBlob, r.error, old(pos));
        return;
      }
      Got(FBlob, VBytes(r.value), old(pos));
    }

    method OptBlob() returns (r: Result<Option<seq<byte>>, ProtoError>)
      requires Reading() && Next(FOptBlob)
      modifies `pos, `parts
      ensures r.Ok? ==> Reading() && parts == old(parts) + [VOpt(r.value)]
      ensures r.Err? ==> Fails(r.error)
    {
      hide GetI32, DecFields;
      var s := TakeBytes(4);
      if s.Err? {
        Missed(FOptBlob, s.error, old(pos));
        return Err(s.error);
      }
      var len: int := GetI32(s.value);
      if len < 0 {
        Got(FOptBlob, VOpt(None), old(pos));
        return Ok(None);
      }
      var b := TakeBytes(len);
      if b.Err? {
        Missed(FOptBlob, b.error, old(pos));
        return Err(b.error);
      }
      Got(FOptBlob, VOpt(Some(b.value)), old(pos));
      return Ok(Some(b.value));
    }

    method U32List() returns (r: Result<seq<u32>, ProtoError>)
      requires Reading() && Next(FList(FU32))
      modifies `pos, `parts
      ensures r.Ok? ==> Reading() && parts == old(parts) + [VList(Nums(r.value))]
      ensures r.Err? ==> Fails(r.error)
    {
      hide GetU32, DecFields, DecItems, Nums;
      var n := Count();
      if n.Err? {
        Missed(FList(FU32), n.error, old(pos));
        return Err(n.error);
      }
      ghost var start := pos;
      var ids := [];
      assert Nums([]) == [];
      AfterCons([], VNum(0), DecItems(FU32, n.value, buf, pos));
      for i := 0 to n.value
        invariant pos <= |buf| && |ids| == i && from == old(from) && fmt == old(fmt) && parts == old(parts)
        invariant DecItems(FU32, n.value, buf, start) == After(Nums(ids), DecItems(FU32, n.value - i, buf, pos))
      {
        ghost var at := pos;
        UnfoldItems(FU32, n.value - i, buf, pos);
        var id := Count();
        if id.Err? {
          Missed(FList(FU32), id.error, old(pos));
          return Err(id.error);
        }
        AfterCons(Nums(ids), VNum(id.value), DecItems(FU32, n.value - i - 1, buf, pos));
        assert Nums(ids + [id.value]) == Nums(ids) + [VNum(id.value)];
        ids := ids + [id.value];
      }
      ListRead(FU32, n.value, Nums(ids), old(pos), start, buf, pos);
      Got(FList(FU32), VList(Nums(ids)), old(pos));
      return Ok(ids);
    }
  }

  lemma ListRead(item: Fmt, n: u32, vs: seq<Val>, before: nat, start: nat, buf: seq<byte>, pos: nat)
    requires DecU32(buf, before) == Ok((n, start))
    requires DecItems(item, n, buf, start) == After(vs, DecItems(item, 0, buf, pos))
    ensures Dec(FList(item), buf, before) == Ok((VList(vs), pos))
  {
    hide DecU32;
    UnfoldItems(item, 0, buf, pos);
    assert vs + [] == vs;
  }

  lemma CountFails(item: Fmt, buf: seq<byte>, before: nat)
    requires DecU32(buf, before).Err?
    ensures Dec(FList(item), buf, before) == Err(DecU32(buf, before).error)
  {
    hide DecU32;
  }

  lemma ListFails(item: Fmt, n: u32, e: ProtoError, buf: seq<byte>, before: nat, start: nat)
    requires DecU32(buf, before) == Ok((n, start)) && DecItems(item, n, buf, start) == Err(e)
    ensures Dec(FList(item), buf, before) == Err(e)
  {
    hide DecU32, DecItems;
  }
}
