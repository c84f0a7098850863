/**
 * The millisecond clock of the monitor. `millis()` returns a 32-bit
 * `unsigned long`, so every difference of two readings is taken modulo 2^32.
 */
module Clock {

  const Modulus: int := 0x1_0000_0000

  /** A value of the 32-bit `unsigned long` type. */
  type U32 = x: int | 0 <= x < 0x1_0000_0000

  /** Period of the outer scheduler tick in `loop`, in milliseconds. */
  const TickPeriod: U32 := 5000

  /** `now - since` on `unsigned long`: the milliseconds that passed, modulo 2^32. */
  function Elapsed(now: U32, since: U32): (e: U32)
    ensures since <= now ==> e == now - since
    ensures now < since ==> e == Modulus - (since - now)
  {
    (now - since) % Modulus
  }

  /**
   * `checkInterval * 1000` as the comparison with an `unsigned long` sees it:
   * the `int` product converted to unsigned, i.e. taken modulo 2^32.
   */
  function IntervalMillis(seconds: int): (t: U32)
    ensures 0 <= seconds * 1000 < Modulus ==> t == seconds * 1000
    ensures -Modulus < seconds * 1000 < 0 ==> t == Modulus + seconds * 1000
  {
    (seconds * 1000) % Modulus
  }

  /** An entry last checked at `lastCheck` is due at `now` (the negation of the `continue` test). */
  predicate Due(now: U32, lastCheck: U32, intervalSeconds: int)
    ensures IntervalMillis(intervalSeconds) == 0 ==> Due(now, lastCheck, intervalSeconds)
    ensures lastCheck == now ==> (Due(now, lastCheck, intervalSeconds) <==> IntervalMillis(intervalSeconds) == 0)
  {
    Elapsed(now, lastCheck) >= IntervalMillis(intervalSeconds)
  }

  /** The outer tick in `loop` runs when a full tick period has passed since the previous one. */
  predicate TickDue(now: U32, lastTick: U32)
    ensures lastTick <= now ==> (TickDue(now, lastTick) <==> now - lastTick >= 5000)
    ensures lastTick == now ==> !TickDue(now, lastTick)
  {
    Elapsed(now, lastTick) >= TickPeriod
  }

  /**
   * The unsigned subtraction is immune to the 49.7-day roll-over of `millis()`:
   * if `e` milliseconds really passed after an unbounded instant `start`
   * (and fewer than 2^32), the wrapped readings still give back exactly `e`.
   */
  lemma ElapsedAcrossWrap(start: nat, e: int)
    requires 0 <= e < Modulus
    ensures Elapsed((start + e) % Modulus, start % Modulus) == e
  {
    var a, b := start % Modulus, (start + e) % Modulus;
    var q, q' := start / Modulus, (start + e) / Modulus;
    assert start == q * Modulus + a;
    assert start + e == q' * Modulus + b;
    assert b - a == e + (q - q') * Modulus;
    if b >= a {
      assert q == q';
    } else {
      assert q' == q + 1;
    }
  }

  /**
   * Without roll-over and with a product that fits, an entry is due exactly
   * when at least `intervalSeconds` whole seconds have passed since its last check.
   */
  lemma DueWithoutWrap(now: U32, lastCheck: U32, intervalSeconds: int)
    requires lastCheck <= now
    requires 0 <= intervalSeconds * 1000 < Modulus
    ensures Due(now, lastCheck, intervalSeconds) <==> now - lastCheck >= intervalSeconds * 1000
  {
  }
}
