/** Machine integers and their little-endian byte forms, as the disk and the wire both use them. */
module Bytes {

  type byte = x: int | 0 <= x < 0x100
  type u8 = x: int | 0 <= x < 0x100
  type u16 = x: int | 0 <= x < 0x1_0000
  type u32 = x: int | 0 <= x < 0x1_0000_0000
  type u64 = x: int | 0 <= x < 0x1_0000_0000_0000_0000
  type i32 = x: int | -0x8000_0000 <= x < 0x8000_0000
  type i64 = x: int | -0x8000_0000_0000_0000 <= x < 0x8000_0000_0000_0000

  const U16_RANGE: nat := 0x1_0000
  const U32_RANGE: nat := 0x1_0000_0000
  const U64_RANGE: nat := 0x1_0000_0000_0000_0000

  /** The `as u32` cast: the low 32 bits. */
  function AsU32(n: nat): u32 { n % U32_RANGE }

  /** The `as u16` cast: the low 16 bits. */
  function AsU16(n: nat): u16 { n % U16_RANGE }

  /** The `as i32` cast: the low 32 bits, read in two's complement. */
  function AsI32(n: nat): i32 {
    var low := n % U32_RANGE;
    if low < 0x8000_0000 then low else low - U32_RANGE
  }

  function Pow256(width: nat): nat
    ensures Pow256(width) > 0
  {
    if width == 0 then 1 else 0x100 * Pow256(width - 1)
  }

  /** The `width` low bytes of `n`, least significant first. */
  function ToLE(n: nat, width: nat): (s: seq<byte>)
    ensures |s| == width
  {
    if width == 0 then [] else [n % 0x100] + ToLE(n / 0x100, width - 1)
  }

  function FromLE(s: seq<byte>): nat {
    if s == [] then 0 else s[0] + 0x100 * FromLE(s[1..])
  }

  lemma {:induction false} FromToLE(n: nat, width: nat)
    requires n < Pow256(width)
    ensures FromLE(ToLE(n, width)) == n
  {
    if width > 0 {
      FromToLE(n / 0x100, width - 1);
      assert ToLE(n, width)[1..] == ToLE(n / 0x100, width - 1);
    }
  }

  /** The least significant byte comes first. */
  lemma {:induction false} LittleEndian(n: nat, width: nat, i: nat)
    requires i < width
    ensures ToLE(n, width)[i] == n / Pow256(i) % 0x100
  {
    if i > 0 {
      LittleEndian(n / 0x100, width - 1, i - 1);
      DivTwice(n, Pow256(i - 1));
    }
  }

  lemma DivTwice(n: nat, d: nat)
    requires d > 0
    ensures n / 0x100 / d == n / (0x100 * d)
  {
    var q := n / 0x100;
    var t := q / d;
    assert t * d <= q < (t + 1) * d;
    assert 0x100 * (t * d) <= n < 0x100 * ((t + 1) * d);
    IsQuotient(n, 0x100 * d, t);
  }

  lemma IsQuotient(n: nat, d: nat, t: nat)
    requires d > 0 && t * d <= n < (t + 1) * d
    ensures n / d == t
  {
    var q := n / d;
    assert q * d <= n < (q + 1) * d;
    TimesGrows(q + 1, t, d);
    TimesGrows(t + 1, q, d);
  }

  lemma TimesGrows(a: nat, b: nat, d: nat)
    ensures a <= b ==> a * d <= b * d
  {
  }

  lemma {:induction false} ToFromLE(s: seq<byte>)
    ensures FromLE(s) < Pow256(|s|)
    ensures ToLE(FromLE(s), |s|) == s
  {
    if s != [] {
      ToFromLE(s[1..]);
      var n := FromLE(s);
      assert n % 0x100 == s[0] && n / 0x100 == FromLE(s[1..]);
      assert s == [s[0]] + s[1..];
    }
  }

  // ---------------------------------------------------------------- fixed widths

  function PutU16(x: u16): (s: seq<byte>) ensures |s| == 2 { ToLE(x, 2) }
  function PutU32(x: u32): (s: seq<byte>) ensures |s| == 4 { ToLE(x, 4) }
  function PutU64(x: u64): (s: seq<byte>) ensures |s| == 8 { ToLE(x, 8) }
  function PutI32(x: i32): (s: seq<byte>) ensures |s| == 4 { ToLE(if x < 0 then x + U32_RANGE else x, 4) }
  function PutI64(x: i64): (s: seq<byte>) ensures |s| == 8 { ToLE(if x < 0 then x + U64_RANGE else x, 8) }

  lemma Widths()
    ensures Pow256(1) == 0x100
    ensures Pow256(2) == U16_RANGE
    ensures Pow256(4) == U32_RANGE
    ensures Pow256(8) == U64_RANGE
  {
    assert Pow256(2) == 0x100 * 0x100;
    assert Pow256(3) == 0x100 * Pow256(2);
    assert Pow256(4) == 0x100 * Pow256(3);
    assert Pow256(5) == 0x100 * Pow256(4);
    assert Pow256(6) == 0x100 * Pow256(5);
    assert Pow256(7) == 0x100 * Pow256(6);
    assert Pow256(8) == 0x100 * Pow256(7);
  }

  function GetU16(s: seq<byte>): u16 requires |s| == 2 { ToFromLE(s); Widths(); FromLE(s) }
  function GetU32(s: seq<byte>): u32 requires |s| == 4 { ToFromLE(s); Widths(); FromLE(s) }
  function GetU64(s: seq<byte>): u64 requires |s| == 8 { ToFromLE(s); Widths(); FromLE(s) }

  function GetI32(s: seq<byte>): i32
    requires |s| == 4
  {
    var n := GetU32(s);
    if n < 0x8000_0000 then n else n - U32_RANGE
  }

  function GetI64(s: seq<byte>): i64
    requires |s| == 8
  {
    var n := GetU64(s);
    if n < 0x8000_0000_0000_0000 then n else n - U64_RANGE
  }

  lemma GetPutU16(x: u16) ensures GetU16(PutU16(x)) == x { hide ToLE, FromLE; Widths(); FromToLE(x, 2); }
  lemma GetPutU32(x: u32) ensures GetU32(PutU32(x)) == x { hide ToLE, FromLE; Widths(); FromToLE(x, 4); }
  lemma GetPutU64(x: u64) ensures GetU64(PutU64(x)) == x { hide ToLE, FromLE; Widths(); FromToLE(x, 8); }

  lemma GetPutI32(x: i32)
    ensures GetI32(PutI32(x)) == x
  {
    hide ToLE, FromLE;
    Widths();
    FromToLE(if x < 0 then x + U32_RANGE else x, 4);
  }

  lemma GetPutI64(x: i64)
    ensures GetI64(PutI64(x)) == x
  {
    hide ToLE, FromLE;
    Widths();
    FromToLE(if x < 0 then x + U64_RANGE else x, 8);
  }

  /** A four-byte field read as a signed or an unsigned number is rebuilt from what was read. */
  lemma PutGet32(s: seq<byte>)
    requires |s| == 4
    ensures PutU32(GetU32(s)) == s
    ensures PutI32(GetI32(s)) == s
  {
    hide ToLE, FromLE;
    ToFromLE(s);
    Widths();
  }

  lemma PutGet64(s: seq<byte>)
    requires |s| == 8
    ensures PutU64(GetU64(s)) == s
    ensures PutI64(GetI64(s)) == s
  {
    hide ToLE, FromLE;
    ToFromLE(s);
    Widths();
  }
}
