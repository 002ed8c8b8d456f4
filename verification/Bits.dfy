/** The arithmetic readings of flags and packed fields are the source's bit operations: every mask in use, at its
    width. */
module Bits {
  import opened Bytes

  // ---------------------------------------------------------------- flag bytes

  lemma ArrayFlagIsBit(x: bv8)
    ensures HasFlag(x as int, 0x02) <==> x & 0x02 != 0
  {
  }

  lemma KvAndLeaderFlagIsBit(x: bv8)
    ensures HasFlag(x as int, 0x04) <==> x & 0x04 != 0
  {
  }

  lemma PropertyFlagIsBit(x: bv8)
    ensures HasFlag(x as int, 0x10) <==> x & 0x10 != 0
  {
  }

  lemma DataFlagIsBit(x: bv8)
    ensures HasFlag(x as int, 0x20) <==> x & 0x20 != 0
    ensures SetFlag(x as int, 0x20) == (x | 0x20) as int
  {
  }

  lemma LowMinuteBit(x: bv8)
    ensures HasFlag(x as int, 0x40) <==> x & 0x40 != 0
  {
  }

  // ---------------------------------------------------------------- the packed stage and type

  /** Packing is a shift, two masks and an or; `TypeBits` is how `x >> 6` and `x & 0x3f` take the byte apart again. */
  lemma PackStageIsBits(x: bv8, y: bv8)
    ensures PackStage(x as int, y as int) == (((x << 6) & 0xc0) | (y & 0x3f)) as int
  {
    StageBits(x);
    TypeBits(y);
    OrIsSum(x, y);
  }

  lemma OrIsSum(x: bv8, y: bv8)
    ensures (((x << 6) & 0xc0) | (y & 0x3f)) as int == ((x << 6) & 0xc0) as int + (y & 0x3f) as int
  {
  }

  lemma StageBits(x: bv8)
    ensures ((x << 6) & 0xc0) as int == (x as int % 4) * 64
  {
  }

  lemma TypeBits(x: bv8)
    ensures (x >> 6) as int == x as int / 64 && (x & 0x3f) as int == x as int % 64
  {
  }

  // ---------------------------------------------------------------- flag words, byte by byte

  lemma PriorityFlagIsBit(x: bv16)
    ensures HasFlag(x as int, 0x0010) <==> x & 0x0010 != 0
  {
    var high, low := WordBytes(x);
    PropertyFlagIsBit(low);
    LowByteFlags(high as int, low as int);
  }

  lemma MinuteFlagIsBit(x: bv16)
    ensures HasFlag(x as int, 0x0040) <==> x & 0x0040 != 0
  {
    var high, low := WordBytes(x);
    LowMinuteBit(low);
    LowByteFlags(high as int, low as int);
  }

  lemma MillisecondFlagIsBit(x: bv16)
    ensures HasFlag(x as int, 0x0400) <==> x & 0x0400 != 0
  {
    var high, low := WordBytes(x);
    KvAndLeaderFlagIsBit(high);
    HighByteFlag(high as int, low as int);
  }

  /** Merging either flag into a packed time is an or. */
  lemma MergePriorityIsOr(x: bv16)
    ensures SetFlag(x as int, 0x0010) == (x | 0x0010) as int
  {
    PriorityFlagIsBit(x);
    SetMeans(x as int, 0x0010, x & 0x0010 != 0);
    OrPriority(x);
  }

  lemma MergeMillisecondIsOr(x: bv16)
    ensures SetFlag(x as int, 0x0400) == (x | 0x0400) as int
  {
    MillisecondFlagIsBit(x);
    SetMeans(x as int, 0x0400, x & 0x0400 != 0);
    OrMillisecond(x);
  }

  lemma SetMeans(value: nat, mask: nat, has: bool)
    requires mask > 0 && (HasFlag(value, mask) <==> has)
    ensures SetFlag(value, mask) == value + if has then 0 else mask
  {
  }

  lemma OrPriority(x: bv16)
    ensures (x | 0x0010) as int == x as int + if x & 0x0010 != 0 then 0 else 0x0010
  {
  }

  lemma OrMillisecond(x: bv16)
    ensures (x | 0x0400) as int == x as int + if x & 0x0400 != 0 then 0 else 0x0400
  {
  }

  lemma WordBytes(x: bv16) returns (high: bv8, low: bv8)
    ensures x as int == 256 * high as int + low as int
    ensures x & 0x0010 != 0 <==> low & 0x10 != 0
    ensures x & 0x0040 != 0 <==> low & 0x40 != 0
    ensures x & 0x0400 != 0 <==> high & 0x04 != 0
  {
    high, low := (x >> 8) as bv8, (x & 0xff) as bv8;
    Split(x);
    Narrow(x >> 8);
    Narrow(x & 0xff);
    WordBits(x);
  }

  lemma Split(x: bv16)
    ensures x as int == 256 * ((x >> 8) as int) + (x & 0xff) as int
  {
  }

  lemma Narrow(x: bv16)
    requires x <= 0xff
    ensures (x as bv8) as int == x as int
  {
  }

  lemma WordBits(x: bv16)
    ensures x & 0x0010 != 0 <==> ((x & 0xff) as bv8) & 0x10 != 0
    ensures x & 0x0040 != 0 <==> ((x & 0xff) as bv8) & 0x40 != 0
    ensures x & 0x0400 != 0 <==> ((x >> 8) as bv8) & 0x04 != 0
  {
  }

  lemma LowByteFlags(high: u8, low: u8)
    ensures HasFlag(256 * high + low, 0x10) <==> HasFlag(low, 0x10)
    ensures HasFlag(256 * high + low, 0x40) <==> HasFlag(low, 0x40)
  {
    assert (256 * high + low) / 0x10 == 16 * high + low / 0x10;
    assert (256 * high + low) / 0x40 == 4 * high + low / 0x40;
  }

  lemma HighByteFlag(high: u8, low: u8)
    ensures HasFlag(256 * high + low, 0x400) <==> HasFlag(high, 0x04)
  {
    assert (256 * high + low) / 0x400 == high / 0x04;
  }
}
