/** Fixed-width integers, the flag operations on them, and little-endian byte strings. */
module Bytes {
  type u8 = b: int | 0 <= b < 0x100
  type u16 = n: int | 0 <= n < 0x1_0000
  type u32 = n: int | 0 <= n < 0x1_0000_0000
  type u64 = n: int | 0 <= n < 0x1_0000_0000_0000_0000
  type i64 = n: int | -0x8000_0000_0000_0000 <= n < 0x8000_0000_0000_0000

  const U32_MAX := 0xffff_ffff
  const U16_MAX := 0xffff
  const U64_RANGE := 0x1_0000_0000_0000_0000

  // ---------------------------------------------------------------- flags and bit fields

  /** `value & mask != 0`, for a mask of one bit. */
  predicate HasFlag(value: nat, mask: nat)
    requires mask > 0
  {
    (value / mask) % 2 == 1
  }

  /** `value | mask`, for a mask of one bit. */
  function SetFlag(value: nat, mask: nat): nat
    requires mask > 0
  {
    if HasFlag(value, mask) then value else value + mask
  }

  /** `((stage << 6) & 0xc0) | (commandType & 0x3f)` */
  function PackStage(stage: u8, commandType: u8): u8 {
    (stage % 4) * 64 + commandType % 64
  }

  // ---------------------------------------------------------------- little-endian integers

  function Pow256(k: nat): (p: nat)
    ensures p > 0
  {
    if k == 0 then 1 else 256 * Pow256(k - 1)
  }

  lemma Pow256Values()
    ensures Pow256(1) == 0x100
    ensures Pow256(2) == 0x1_0000
    ensures Pow256(4) == 0x1_0000_0000
    ensures Pow256(8) == U64_RANGE
  {
    assert Pow256(2) == 0x1_0000;
    assert Pow256(4) == 0x1_0000_0000;
    assert Pow256(6) == 0x1_0000_0000_0000;
  }

  /** The k low bytes of n, least significant first: `to_le_bytes`. */
  function LittleEndian(n: nat, k: nat): (s: seq<u8>)
    ensures |s| == k
  {
    if k == 0 then [] else [n % 256] + LittleEndian(n / 256, k - 1)
  }

  /** The order of the bytes of a length or a packed time. */
  lemma FourBytes(n: nat)
    ensures LittleEndian(n, 4) == [n % 256, n / 256 % 256, n / 256 / 256 % 256, n / 256 / 256 / 256 % 256]
  {
    var a, b, c := n / 256, n / 256 / 256, n / 256 / 256 / 256;
    assert LittleEndian(c, 1) == [c % 256] + LittleEndian(c / 256, 0);
    assert LittleEndian(b, 2) == [b % 256] + LittleEndian(c, 1);
    assert LittleEndian(a, 3) == [a % 256] + LittleEndian(b, 2);
    assert LittleEndian(n, 4) == [n % 256] + LittleEndian(a, 3);
  }

  /** `from_le_bytes` */
  function FromLittleEndian(s: seq<u8>): (n: nat)
    ensures n < Pow256(|s|)
  {
    if s == [] then 0 else s[0] + 256 * FromLittleEndian(s[1..])
  }

  lemma {:induction false} ReadBackInteger(n: nat, k: nat)
    requires n < Pow256(k)
    ensures FromLittleEndian(LittleEndian(n, k)) == n
  {
    if k > 0 {
      ReadBackInteger(n / 256, k - 1);
      assert LittleEndian(n, k)[1..] == LittleEndian(n / 256, k - 1);
    }
  }

  lemma {:induction false} WriteBackBytes(s: seq<u8>)
    ensures LittleEndian(FromLittleEndian(s), |s|) == s
  {
    if s != [] {
      WriteBackBytes(s[1..]);
      SplitLowByte(s[0], FromLittleEndian(s[1..]));
      assert [s[0]] + s[1..] == s;
    }
  }

  lemma SplitLowByte(low: u8, high: nat)
    ensures (low + 256 * high) % 256 == low && (low + 256 * high) / 256 == high
  {
  }

  /** Zero bytes on the right do not change the number read. */
  lemma {:induction false} ZeroExtension(s: seq<u8>, zeros: seq<u8>)
    requires forall i :: 0 <= i < |zeros| ==> zeros[i] == 0
    ensures FromLittleEndian(s + zeros) == FromLittleEndian(s)
    decreases |s| + |zeros|
  {
    if s != [] {
      assert (s + zeros)[1..] == s[1..] + zeros;
      ZeroExtension(s[1..], zeros);
    } else if zeros != [] {
      assert s + zeros == zeros;
      ZeroExtension([], zeros[1..]);
      assert [] + zeros[1..] == zeros[1..];
    }
  }

  function ReadU16(s: seq<u8>): (n: u16)
    requires |s| == 2
  {
    Pow256Values();
    FromLittleEndian(s)
  }

  function ReadU32(s: seq<u8>): (n: u32)
    requires |s| == 4
  {
    Pow256Values();
    FromLittleEndian(s)
  }

  lemma ReadBackU16(n: u16)
    ensures ReadU16(LittleEndian(n, 2)) == n
  {
    Pow256Values();
    ReadBackInteger(n, 2);
  }

  lemma ReadBackU32(n: u32)
    ensures ReadU32(LittleEndian(n, 4)) == n
  {
    Pow256Values();
    ReadBackInteger(n, 4);
  }

  lemma WriteBackU16(s: seq<u8>)
    requires |s| == 2
    ensures LittleEndian(ReadU16(s), 2) == s
  {
    WriteBackBytes(s);
  }

  lemma WriteBackU32(s: seq<u8>)
    requires |s| == 4
    ensures LittleEndian(ReadU32(s), 4) == s
  {
    WriteBackBytes(s);
  }

  // ---------------------------------------------------------------- concatenation

  function Concat(parts: seq<seq<u8>>): seq<u8> {
    if parts == [] then [] else parts[0] + Concat(parts[1..])
  }

  lemma {:induction false} ConcatAppend(parts: seq<seq<u8>>, last: seq<u8>)
    ensures Concat(parts + [last]) == Concat(parts) + last
  {
    if parts == [] {
      assert parts + [last] == [last] && Concat([last][1..]) == [];
      assert last + [] == [] + last;
    } else {
      ConcatAppend(parts[1..], last);
      assert (parts + [last])[1..] == parts[1..] + [last];
      assert parts[0] + (Concat(parts[1..]) + last) == parts[0] + Concat(parts[1..]) + last;
    }
  }

  // ---------------------------------------------------------------- signed 64-bit integers

  /** The unsigned number with the same 64 bits. */
  function ToTwosComplement(v: i64): u64 {
    if v < 0 then v + U64_RANGE else v
  }

  function FromTwosComplement(n: u64): i64 {
    if n >= U64_RANGE / 2 then n - U64_RANGE else n
  }

  /** Half of the numbers stand for themselves, the other half for what is 2^64 less. */
  lemma TwosComplementMeans(n: u64)
    ensures FromTwosComplement(n) == if n < 0x8000_0000_0000_0000 then n else n - 0x1_0000_0000_0000_0000
    ensures ToTwosComplement(FromTwosComplement(n)) == n
  {
  }

  /** `i64::to_le_bytes` */
  function I64Bytes(v: i64): (s: seq<u8>) {
    LittleEndian(ToTwosComplement(v), 8)
  }

  /** `i64::from_le_bytes` */
  function I64FromBytes(s: seq<u8>): i64
    requires |s| == 8
  {
    Pow256Values();
    FromTwosComplement(FromLittleEndian(s))
  }

  lemma ReadBackI64(v: i64)
    ensures I64FromBytes(I64Bytes(v)) == v
  {
    Pow256Values();
    ReadBackInteger(ToTwosComplement(v), 8);
  }
}
