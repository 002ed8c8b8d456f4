/** A token is a lock that nobody releases: it returns when it expires (src/blocking/primitives.rs, src/time.rs).
    Periods are real numbers here. */
module TokenBuckets {
  import opened Bytes
  import opened Protocol
  import opened Ids
  import opened Locks

  function Ceil(x: real): (n: int)
    ensures n as real - 1.0 < x <= n as real
  {
    -((-x).Floor)
  }

  /** A float-to-integer cast as Rust defines it: out of range values go to the nearest end. */
  function SaturateU16(n: int): u16 {
    if n < 0 then 0 else if n > U16_MAX then U16_MAX else n
  }

  /** The count of a lock is one less than the number of holders it admits. */
  function CountFor(tokens: u16): (count: u16)
    ensures count + 1 == if tokens > 1 then tokens else 1
  {
    if tokens == 0 then 0 else tokens - 1
  }

  class TokenBucketFlow {
    const lock: Lock

    /** Builds the lock in seconds, then sets its count, then turns short periods into milliseconds. */
    constructor (backend: Backend, dbId: u8, timeoutFlags: u16, expiredFlags: u16, key: seq<u8>, count: u16,
                 timeout: u16, period: real, md5: seq<u8> -> Key16)
      modifies backend`drawn
      ensures fresh(lock) && lock.backend == backend && backend.drawn == old(backend.drawn) + 1
      ensures lock.Spec() == LockSpec(dbId, NormalizeKey(key, md5), backend.ids(old(backend.drawn)),
                                      WithFlags(timeout, timeoutFlags), Expiry(period, expiredFlags),
                                      CountFor(count), 0)
    {
      var expired: u16 :=
        if period < 3.0 then Max(SaturateU16(Ceil(period * 1000.0)), 1) else SaturateU16(Ceil(period));
      var id := backend.NewId();
      var bucket := new Lock(backend, dbId, NormalizeKey(key, md5), id, WithFlags(timeout, timeoutFlags),
                             WithFlags(expired, expiredFlags), 0, 0);
      bucket.count := CountFor(count);
      if period < 3.0 {
        bucket.expired := MergeFlag(bucket.expired, EXPRIED_FLAG_MILLISECOND_TIME);
      }
      lock := bucket;
    }
  }

  function Max(a: u16, b: u16): u16 {
    if a < b then b else a
  }

  /** The packed expiry of a token: a number and the flags that give its unit. */
  function Expiry(period: real, flags: u16): u32 {
    if period < 3.0
    then WithFlags(Max(SaturateU16(Ceil(period * 1000.0)), 1), SetFlag(flags, EXPRIED_FLAG_MILLISECOND_TIME))
    else WithFlags(SaturateU16(Ceil(period)), flags)
  }

  /** The flags of a token's expiry: the default ones, with 0x0400 set below three seconds. */
  lemma ExpiryFlags(period: real, flags: u16)
    ensures TimeFlags(Expiry(period, flags)) == if period < 3.0 then SetFlag(flags, 0x0400) else flags
  {
    if period < 3.0 {
      SetMillis(flags);
      UnpackTime(Max(SaturateU16(Ceil(period * 1000.0)), 1), SetFlag(flags, EXPRIED_FLAG_MILLISECOND_TIME));
    } else {
      UnpackTime(SaturateU16(Ceil(period)), flags);
    }
  }

  /** How long, in seconds, one unit of a packed expiry lasts; the minute flag counts only without the millisecond
      one. */
  function Unit(packed: u32): real {
    if HasFlag(TimeFlags(packed), EXPRIED_FLAG_MILLISECOND_TIME) then 0.001
    else if HasFlag(TimeFlags(packed), EXPRIED_FLAG_MINUTE_TIME) then 60.0
    else 1.0
  }

  function Duration(packed: u32): real {
    TimeValue(packed) as real * Unit(packed)
  }

  /** Neither of the flags that change the unit. */
  predicate NoUnitFlags(flags: u16) {
    !HasFlag(flags, EXPRIED_FLAG_MILLISECOND_TIME) && !HasFlag(flags, EXPRIED_FLAG_MINUTE_TIME)
  }

  lemma InMillis(value: u16, flags: u16)
    requires HasFlag(flags, EXPRIED_FLAG_MILLISECOND_TIME)
    ensures Unit(WithFlags(value, flags)) == 0.001 && Duration(WithFlags(value, flags)) == value as real * 0.001
  {
    UnpackTime(value, flags);
  }

  lemma InSeconds(value: u16, flags: u16)
    requires NoUnitFlags(flags)
    ensures Unit(WithFlags(value, flags)) == 1.0 && Duration(WithFlags(value, flags)) == value as real
  {
    UnpackTime(value, flags);
  }

  /** Whatever other flags are the default, a token is held at least its period exactly when the period fits in 65535
      seconds. */
  lemma NeverShorterExactly(period: real, flags: u16)
    requires NoUnitFlags(flags)
    ensures Duration(Expiry(period, flags)) >= period <==> period <= 65535.0
  {
    ExpiryInMillis(period, flags);
    ExpiryInSeconds(period, flags);
  }

  /** It is held longer by less than one unit, milliseconds below three seconds and seconds from there, exactly when the
      period is positive. */
  lemma OvershootUnderOneUnitExactly(period: real, flags: u16)
    requires NoUnitFlags(flags)
    ensures Unit(Expiry(period, flags)) == if period < 3.0 then 0.001 else 1.0
    ensures Duration(Expiry(period, flags)) - period < Unit(Expiry(period, flags)) <==> period > 0.0
  {
    ExpiryInMillis(period, flags);
    ExpiryInSeconds(period, flags);
  }

  /** A longer period never gives a shorter hold, across the change of unit and the two ends of the range too. */
  lemma ExpiryIsMonotone(shorter: real, longer: real, flags: u16)
    requires shorter <= longer && NoUnitFlags(flags)
    ensures Duration(Expiry(shorter, flags)) <= Duration(Expiry(longer, flags))
  {
    ExpiryInMillis(shorter, flags);
    ExpiryInMillis(longer, flags);
    ExpiryInSeconds(shorter, flags);
    ExpiryInSeconds(longer, flags);
    CeilIsMonotone(shorter, longer);
    CeilIsMonotone(shorter * 1000.0, longer * 1000.0);
    var held, heldLonger := Duration(Expiry(shorter, flags)), Duration(Expiry(longer, flags));
    assert shorter < 3.0 ==> held <= 3.0;
    assert longer >= 3.0 ==> heldLonger >= 3.0;
  }

  lemma CeilIsMonotone(x: real, y: real)
    requires x <= y
    ensures Ceil(x) <= Ceil(y)
  {
  }

  /** Default flags that already count in milliseconds make every period from three seconds on be read as that many
      milliseconds, and so too short; below three seconds the flag changes nothing. */
  lemma MillisecondDefaultShortensExactly(period: real, flags: u16)
    requires HasFlag(flags, EXPRIED_FLAG_MILLISECOND_TIME)
    ensures Duration(Expiry(period, flags)) >= period <==> period < 3.0
    ensures Expiry(period, flags) == Expiry(period, flags - EXPRIED_FLAG_MILLISECOND_TIME) <==> period < 3.0
  {
    ExpiryInMillis(period, flags);
    InMillis(SaturateU16(Ceil(period)), flags);
    SetAfterClear(flags);
  }

  lemma SetAfterClear(flags: u16)
    requires HasFlag(flags, EXPRIED_FLAG_MILLISECOND_TIME)
    ensures flags >= EXPRIED_FLAG_MILLISECOND_TIME
    ensures SetFlag(flags - EXPRIED_FLAG_MILLISECOND_TIME, EXPRIED_FLAG_MILLISECOND_TIME) == flags
  {
  }

  lemma SetMillis(flags: u16)
    ensures SetFlag(flags, EXPRIED_FLAG_MILLISECOND_TIME) <= U16_MAX
    ensures HasFlag(SetFlag(flags, EXPRIED_FLAG_MILLISECOND_TIME), EXPRIED_FLAG_MILLISECOND_TIME)
  {
  }

  lemma ExpiryInMillis(period: real, flags: u16)
    ensures period < 3.0 ==>
              var ms := Ceil(period * 1000.0);
              Unit(Expiry(period, flags)) == 0.001 && ms <= 3000
              && Duration(Expiry(period, flags)) == (if ms < 1 then 1 else ms) as real * 0.001
  {
    if period < 3.0 {
      var ms := Ceil(period * 1000.0);
      assert ms <= 3000;
      SetMillis(flags);
      InMillis(if ms < 1 then 1 else ms, SetFlag(flags, EXPRIED_FLAG_MILLISECOND_TIME));
    }
  }

  lemma ExpiryInSeconds(period: real, flags: u16)
    requires NoUnitFlags(flags)
    ensures period >= 3.0 ==>
              Unit(Expiry(period, flags)) == 1.0
              && Duration(Expiry(period, flags)) == (if period > 65535.0 then 65535 else Ceil(period)) as real
  {
    if period >= 3.0 {
      InSeconds(SaturateU16(Ceil(period)), flags);
    }
  }
}
