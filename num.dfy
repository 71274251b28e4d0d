/** Fixed-width integers and the saturating operations the source uses on them. */
module Num {

  const U16_LIMIT: int := 0x1_0000
  const U64_LIMIT: int := 0x1_0000_0000_0000_0000
  const U64_MAX: int := U64_LIMIT - 1

  type u16 = x: int | 0 <= x < 0x1_0000
  type u64 = x: int | 0 <= x < 0x1_0000_0000_0000_0000

  /** `a.saturating_sub(b)` on unsigned operands. */
  function SatSub(a: nat, b: nat): (r: nat)
    ensures a >= b ==> r + b == a
    ensures a < b ==> r == 0
    ensures r <= a
  {
    if a >= b then a - b else 0
  }

  /** `x as u64` for a non-negative float: values above the range saturate. */
  function SatCastU64(x: nat): (r: u64)
    ensures x <= U64_MAX ==> r == x
    ensures x > U64_MAX ==> r == U64_MAX
  {
    if x <= U64_MAX then x else U64_MAX
  }

  /** `x as u16` on an unsigned integer keeps the low 16 bits. */
  function TruncU16(x: nat): (r: u16)
    ensures x < U16_LIMIT ==> r == x
    ensures r <= x
    ensures exists k: nat :: x == k * U16_LIMIT + r
  {
    assert x == (x / U16_LIMIT) * U16_LIMIT + x % U16_LIMIT;
    x % U16_LIMIT
  }

  /** `earlier.elapsed()` measured at `now`, in milliseconds: an `Instant`
      difference saturates at zero rather than going negative. */
  function ElapsedMs(earlier: nat, now: nat): (r: nat)
    ensures now >= earlier ==> r == now - earlier
    ensures now < earlier ==> r == 0
  {
    SatSub(now, earlier)
  }

  /** `elapsed.max(0.001)`: the divisor of every rate, one millisecond at least. */
  function RateDivisorMs(elapsedMs: nat): (r: nat)
    ensures r >= 1
    ensures elapsedMs >= 1 ==> r == elapsedMs
    ensures elapsedMs == 0 ==> r == 1
  {
    if elapsedMs >= 1 then elapsedMs else 1
  }

  /** `(amount as f64 / secs) as u64` with `secs = elapsedMs / 1000` floored to 1 ms:
      with the time in whole milliseconds, the float division becomes a floor. */
  function PerSecond(amount: nat, elapsedMs: nat): (r: u64)
  {
    SatCastU64(amount * 1000 / RateDivisorMs(elapsedMs))
  }

  /** The floor-division meaning of `PerSecond`: below saturation, `r` is the
      largest whole rate whose `elapsed` milliseconds do not exceed `amount`. */
  lemma PerSecondIsFloor(amount: nat, elapsedMs: nat)
    requires elapsedMs >= 1
    requires amount * 1000 / elapsedMs <= U64_MAX
    ensures PerSecond(amount, elapsedMs) * elapsedMs <= amount * 1000
    ensures amount * 1000 < (PerSecond(amount, elapsedMs) + 1) * elapsedMs
  {
    var q := amount * 1000 / elapsedMs;
    assert amount * 1000 == q * elapsedMs + (amount * 1000) % elapsedMs;
  }

  /** The one-millisecond floor: any elapsed time below it rates like exactly 1 ms. */
  lemma PerSecondFloorsElapsed(amount: nat)
    ensures PerSecond(amount, 0) == PerSecond(amount, 1)
  {
  }
}
