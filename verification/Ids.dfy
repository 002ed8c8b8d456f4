/** Request and lock identifiers (src/protocol/id.rs) and lock keys (src/key.rs). */
module Ids {
  import opened Bytes
  import opened Protocol

  const COUNTER_RANGE := 0x1_0000_0000
  const COUNTER_MASK_RANGE := 0x8000_0000

  /** The k low bytes of n, most significant first. */
  function BigEndian(n: nat, k: nat): (s: seq<u8>)
    ensures |s| == k
  {
    if k == 0 then [] else BigEndian(n / 256, k - 1) + [n % 256]
  }

  /** The number held by the k low bytes of n. */
  function Low(n: nat, k: nat): nat {
    if k == 0 then 0 else 256 * Low(n / 256, k - 1) + n % 256
  }

  /** `(n >> 8 * k) as u8`: a shift by eight bits is a division by 256. */
  function ByteAt(n: nat, k: nat): u8 {
    if k == 0 then n % 256 else ByteAt(n / 256, k - 1)
  }

  lemma {:induction false} SameBytesExactly(m: nat, n: nat, k: nat)
    ensures BigEndian(m, k) == BigEndian(n, k) <==> Low(m, k) == Low(n, k)
  {
    if k > 0 {
      SameBytesExactly(m / 256, n / 256, k - 1);
      var a, b := BigEndian(m, k), BigEndian(n, k);
      assert a[..k - 1] == BigEndian(m / 256, k - 1) && a[k - 1] == m % 256;
      assert b[..k - 1] == BigEndian(n / 256, k - 1) && b[k - 1] == n % 256;
    }
  }

  lemma {:induction false} LowIsAll(n: nat, k: nat)
    requires n < Pow256(k)
    ensures Low(n, k) == n
  {
    if k > 0 {
      LowIsAll(n / 256, k - 1);
    }
  }

  lemma {:induction false} BigEndianBytes(n: nat, k: nat, i: nat)
    requires i < k
    ensures BigEndian(n, k)[i] == ByteAt(n, k - 1 - i)
  {
    if i < k - 1 {
      BigEndianBytes(n / 256, k - 1, i);
    }
  }

  /** The 31 counter bits of the identifier made when the counter stands at `counter`. */
  function CounterBits(counter: u32): nat {
    (counter + 1) % COUNTER_RANGE % COUNTER_MASK_RANGE
  }

  /** The identifier made from a timestamp, a random number and the counter's value before the call. */
  function IdFrom(timestamp: u64, random: u64, counter: u32): Id16 {
    BigEndian(timestamp, 6) + BigEndian(random, 6) + BigEndian(CounterBits(counter), 4)
  }

  /** Where each ingredient lies: the low 48 bits of the clock, the low 48 random bits and the 31 bits of the bumped
      counter, each most significant byte first. */
  lemma IdBytes(timestamp: u64, random: u64, counter: u32, i: nat)
    requires i < 16
    ensures IdFrom(timestamp, random, counter)[i]
         == if i < 6 then ByteAt(timestamp, 5 - i)
            else if i < 12 then ByteAt(random, 11 - i)
            else ByteAt((counter + 1) % 0x8000_0000, 15 - i)
  {
    var id := IdFrom(timestamp, random, counter);
    CounterBitsAt(counter);
    if i < 6 {
      assert id[i] == BigEndian(timestamp, 6)[i];
      BigEndianBytes(timestamp, 6, i);
    } else if i < 12 {
      assert id[i] == BigEndian(random, 6)[i - 6];
      BigEndianBytes(random, 6, i - 6);
    } else {
      assert id[i] == BigEndian(CounterBits(counter), 4)[i - 12];
      BigEndianBytes(CounterBits(counter), 4, i - 12);
    }
  }

  /** `Id16::new` and the global counter it bumps. */
  class IdGenerator {
    var counter: u32

    constructor ()
      ensures counter == 0
    {
      counter := 0;
    }

    method New(timestamp: u64, random: u64) returns (id: Id16)
      modifies this
      ensures id == IdFrom(timestamp, random, old(counter))
      ensures counter == (old(counter) + 1) % COUNTER_RANGE
    {
      var bytes := new u8[16](_ => 0);
      StoreSix(bytes, 0, timestamp);
      StoreSix(bytes, 6, random);
      counter := (counter + 1) % COUNTER_RANGE;
      StoreFour(bytes, 12, counter % COUNTER_MASK_RANGE);
      id := bytes[..];
    }
  }

  method StoreSix(bytes: array<u8>, at: nat, n: u64)
    requires at + 6 <= bytes.Length
    modifies bytes
    ensures bytes[..] == old(bytes[..at]) + BigEndian(n, 6) + old(bytes[at + 6..])
  {
    bytes[at] := ByteAt(n, 5);
    bytes[at + 1] := ByteAt(n, 4);
    bytes[at + 2] := ByteAt(n, 3);
    bytes[at + 3] := ByteAt(n, 2);
    bytes[at + 4] := ByteAt(n, 1);
    bytes[at + 5] := ByteAt(n, 0);
    forall i | 0 <= i < 6
      ensures BigEndian(n, 6)[i] == ByteAt(n, 5 - i)
    {
      BigEndianBytes(n, 6, i);
    }
  }

  method StoreFour(bytes: array<u8>, at: nat, n: u32)
    requires at + 4 <= bytes.Length
    modifies bytes
    ensures bytes[..] == old(bytes[..at]) + BigEndian(n, 4) + old(bytes[at + 4..])
  {
    bytes[at] := ByteAt(n, 3);
    bytes[at + 1] := ByteAt(n, 2);
    bytes[at + 2] := ByteAt(n, 1);
    bytes[at + 3] := ByteAt(n, 0);
    forall i | 0 <= i < 4
      ensures BigEndian(n, 4)[i] == ByteAt(n, 3 - i)
    {
      BigEndianBytes(n, 4, i);
    }
  }

  /** Two identifiers are equal exactly when all three ingredients agree on the bits that are kept. */
  lemma IdsEqualExactly(t1: u64, r1: u64, c1: u32, t2: u64, r2: u64, c2: u32)
    ensures IdFrom(t1, r1, c1) == IdFrom(t2, r2, c2) <==>
            Low(t1, 6) == Low(t2, 6) && Low(r1, 6) == Low(r2, 6) && CounterBits(c1) == CounterBits(c2)
  {
    var a, b := IdFrom(t1, r1, c1), IdFrom(t2, r2, c2);
    assert a[..6] == BigEndian(t1, 6) && a[6..12] == BigEndian(r1, 6) && a[12..] == BigEndian(CounterBits(c1), 4);
    assert b[..6] == BigEndian(t2, 6) && b[6..12] == BigEndian(r2, 6) && b[12..] == BigEndian(CounterBits(c2), 4);
    SameBytesExactly(t1, t2, 6);
    SameBytesExactly(r1, r2, 6);
    SameCounterBytes(c1, c2);
  }

  lemma SameCounterBytes(c1: u32, c2: u32)
    ensures BigEndian(CounterBits(c1), 4) == BigEndian(CounterBits(c2), 4) <==> CounterBits(c1) == CounterBits(c2)
  {
    Pow256Values();
    SameBytesExactly(CounterBits(c1), CounterBits(c2), 4);
    LowIsAll(CounterBits(c1), 4);
    LowIsAll(CounterBits(c2), 4);
  }

  /** The k-th identifier of a run that starts at counter value `start`, whatever the clock and the
      random source answer. */
  ghost function IdAt(start: u32, clock: nat -> u64, random: nat -> u64, k: nat): Id16 {
    IdFrom(clock(k), random(k), (start + k) % COUNTER_RANGE)
  }

  lemma CounterBitsAt(n: nat)
    ensures CounterBits(n % COUNTER_RANGE) == (n + 1) % COUNTER_MASK_RANGE
  {
    var high, low := n / COUNTER_RANGE, n % COUNTER_RANGE;
    if low + 1 == COUNTER_RANGE {
      WindowRemainder(2 * high + 2, 0);
    } else if low + 1 >= COUNTER_MASK_RANGE {
      WindowRemainder(2 * high + 1, low + 1 - COUNTER_MASK_RANGE);
    } else {
      WindowRemainder(2 * high, low + 1);
    }
  }

  lemma WindowRemainder(q: nat, r: nat)
    requires r < COUNTER_MASK_RANGE
    ensures (COUNTER_MASK_RANGE * q + r) % COUNTER_MASK_RANGE == r
  {
  }

  lemma ApartInWindow(a: nat, b: nat)
    requires a < b < a + COUNTER_MASK_RANGE
    ensures a % COUNTER_MASK_RANGE != b % COUNTER_MASK_RANGE
  {
  }

  lemma RepeatsAtWindow(a: nat)
    ensures (a + COUNTER_MASK_RANGE) % COUNTER_MASK_RANGE == a % COUNTER_MASK_RANGE
  {
  }

  /** Fewer than 2^31 increments apart, two identifiers always differ: the counter wraps at 2^32 and is
      cut to 31 bits, and neither the clock nor the random bits matter. */
  lemma IdsDistinctInWindow(start: u32, clock: nat -> u64, random: nat -> u64, i: nat, j: nat)
    requires i < j < i + COUNTER_MASK_RANGE
    ensures IdAt(start, clock, random, i) != IdAt(start, clock, random, j)
  {
    IdsEqualExactly(clock(i), random(i), (start + i) % COUNTER_RANGE, clock(j), random(j), (start + j) % COUNTER_RANGE);
    CounterBitsAt(start + i);
    CounterBitsAt(start + j);
    ApartInWindow(start + i + 1, start + j + 1);
  }

  /** The window is exact: at 2^31 increments the counter bytes repeat, so only the clock and the random
      bits are left to tell the two identifiers apart. */
  lemma IdsAtWindowExactly(start: u32, clock: nat -> u64, random: nat -> u64, i: nat)
    ensures var j := i + COUNTER_MASK_RANGE;
            IdAt(start, clock, random, i) == IdAt(start, clock, random, j) <==>
            Low(clock(i), 6) == Low(clock(j), 6) && Low(random(i), 6) == Low(random(j), 6)
  {
    var j := i + COUNTER_MASK_RANGE;
    IdsEqualExactly(clock(i), random(i), (start + i) % COUNTER_RANGE, clock(j), random(j), (start + j) % COUNTER_RANGE);
    CounterBitsAt(start + i);
    CounterBitsAt(start + j);
    RepeatsAtWindow(start + i + 1);
    assert start + j + 1 == start + i + 1 + COUNTER_MASK_RANGE;
  }

  // ---------------------------------------------------------------- keys

  /** `Key16::new`: long keys are hashed, short ones padded on the left with zeros. The hash is a parameter. */
  function NormalizeKey(key: seq<u8>, md5: seq<u8> -> Key16): (k: Key16)
    ensures |key| == 16 ==> k == key
  {
    if |key| > 16 then md5(key) else
    var zeros: seq<u8> := seq(16 - |key|, _ => 0);
    zeros + key
  }

  /** A key of up to sixteen bytes ends up on the right behind zeros; a longer one is replaced by its hash. */
  lemma KeyIsPaddedOrHashed(key: seq<u8>, md5: seq<u8> -> Key16)
    ensures var k := NormalizeKey(key, md5);
            && (|key| > 16 ==> k == md5(key))
            && (|key| <= 16 ==> k[16 - |key|..] == key)
            && (|key| <= 16 ==> forall i :: 0 <= i < 16 - |key| ==> k[i] == 0)
  {
    if |key| <= 16 {
      var zeros: seq<u8> := seq(16 - |key|, _ => 0);
      assert NormalizeKey(key, md5) == zeros + key;
    }
  }
}
