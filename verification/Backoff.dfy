/**
 * Exponential backoff in wrapping int64 nanoseconds, as used between transaction retries and between
 * delivery attempts of an outbox row.
 */
module Backoff {
  import opened Core
  import opened Int64

  const RETRY_BASE: int := 5_000_000
  const RETRY_CAP: int := 200_000_000
  const RELAY_BASE: int := 1_000_000_000
  const RELAY_CAP: int := 60_000_000_000

  function Pow2(k: nat): (p: nat)
    ensures p >= 1
  {
    if k == 0 then 1 else 2 * Pow2(k - 1)
  }

  /** The machine's left shift: bits pushed past the top are lost, and the sign bit is reinterpreted. */
  function ShiftLeft(x: int, k: nat): (r: Int64) {
    Wrap(x * Pow2(k))
  }

  /** The guard both callers apply to a shifted ceiling. */
  function Guarded(ceiling: int, cap: int): (r: int) {
    if ceiling > cap || ceiling <= 0 then cap else ceiling
  }

  lemma {:induction false} Pow2Add(a: nat, b: nat)
    ensures Pow2(a + b) == Pow2(a) * Pow2(b)
  {
    if a > 0 { Pow2Add(a - 1, b); }
  }

  lemma {:induction false} Pow2Monotone(a: nat, b: nat)
    requires a <= b
    ensures Pow2(a) <= Pow2(b)
  {
    if a < b { Pow2Monotone(a, b - 1); }
  }

  lemma Pow2Values()
    ensures Pow2(23) == 0x80_0000
    ensures Pow2(30) == 0x4000_0000
    ensures Pow2(40) == 0x100_0000_0000
    ensures Pow2(42) == 0x400_0000_0000
    ensures Pow2(63) == TWO_63
    ensures Pow2(64) == TWO_64
  {
    assert Pow2(8) == 0x100;
    assert Pow2(10) == 0x400;
    Pow2Add(8, 8);
    Pow2Add(16, 7);
    assert Pow2(7) == 0x80;
    Pow2Add(10, 10);
    Pow2Add(20, 10);
    Pow2Add(20, 20);
    assert Pow2(2) == 4;
    Pow2Add(40, 2);
    Pow2Add(40, 23);
    Pow2Add(63, 1);
  }

  /** A positive number that differs from a multiple of d by a multiple of d is at least d. */
  lemma PositiveResidueAtLeastDivisor(x: int, w: int, d: nat, q: int, e: int)
    requires d > 0 && x == d * q && TWO_64 == d * e
    requires (x - w) % TWO_64 == 0
    requires w > 0
    ensures w >= d
  {
    var r := (x - w) / TWO_64;
    assert x - w == TWO_64 * r;
    assert w == d * (q - e * r) by {
      assert TWO_64 * r == d * (e * r);
    }
    assert q - e * r >= 1;
  }

  /** Shifting by fewer places than the base leaves free cannot overflow. */
  lemma {:induction false} ShortShiftFits(base: nat, b: nat, k: nat)
    requires b <= 63 && k <= 63 - b && base < Pow2(b)
    ensures base * Pow2(k) < TWO_63
  {
    Pow2Values();
    Pow2Monotone(k, 63 - b);
    Pow2Add(b, 63 - b);
    MulMonotone(base, Pow2(b), Pow2(k), Pow2(63 - b));
  }

  lemma MulMonotone(a: nat, b: nat, c: nat, d: nat)
    requires a < b && 0 < c <= d
    ensures a * c < b * d
  {
    assert a * c <= a * d;
    assert a * d < b * d;
  }

  /** base * 2^k is a multiple of 2^j for j = min(z + k, 64), when base is a multiple of 2^z. */
  lemma {:induction false} ShiftedIsMultiple(unit: nat, z: nat, k: nat, j: nat) returns (q: nat)
    requires j <= z + k
    ensures unit * Pow2(z) * Pow2(k) == Pow2(j) * q
  {
    Pow2Add(z, k);
    Pow2Add(j, z + k - j);
    q := unit * Pow2(z + k - j);
    Regroup(unit, Pow2(z), Pow2(k), Pow2(j), Pow2(z + k - j));
  }

  lemma Regroup(u: int, a: int, b: int, c: int, d: int)
    requires a * b == c * d
    ensures u * a * b == c * (u * d)
  {
    assert u * a * b == u * (a * b);
    assert u * (c * d) == c * (u * d);
  }

  /** A shifted base that wraps to something positive is still a multiple of 2^j, so it is no less. */
  lemma {:induction false} WrappedShiftAtLeast(base: nat, unit: nat, z: nat, k: nat, j: nat)
    requires base == unit * Pow2(z) && j <= z + k && j <= 64 && ShiftLeft(base, k) > 0
    ensures ShiftLeft(base, k) >= Pow2(j)
  {
    var q := ShiftedIsMultiple(unit, z, k, j);
    Pow2Values();
    Pow2Add(j, 64 - j);
    PositiveResidueAtLeastDivisor(base * Pow2(k), ShiftLeft(base, k), Pow2(j), q, Pow2(64 - j));
  }

  /** Overflowing base * 2^k wraps to something the guard always replaces by the cap. */
  lemma {:induction false} OverflowIsGuarded(base: nat, unit: nat, z: nat, b: nat, cap: nat, k: nat)
    requires base == unit * Pow2(z) && z <= b <= 63 && base < Pow2(b)
    requires cap < Pow2(63 - b + z)
    requires base * Pow2(k) >= TWO_63
    ensures Guarded(ShiftLeft(base, k), cap) == cap
  {
    if k <= 63 - b {
      ShortShiftFits(base, b, k);
      assert false;
    }
    if ShiftLeft(base, k) > 0 {
      var j := if z + k < 64 then z + k else 64;
      WrappedShiftAtLeast(base, unit, z, k, j);
      Pow2Monotone(63 - b + z, j);
    }
  }

  lemma GuardedFittingIsExact(x: int, cap: int)
    requires 0 < x < TWO_63
    ensures Guarded(Wrap(x), cap) == Min(x, cap)
  {
  }

  /** Without overflow the guard takes the minimum; with it, OverflowIsGuarded applies. */
  lemma {:induction false} GuardedShiftIsExact(base: nat, unit: nat, z: nat, b: nat, cap: nat, k: nat)
    requires 0 < base == unit * Pow2(z) && z <= b <= 63 && base < Pow2(b)
    requires 0 < cap < Pow2(63 - b + z) && cap < TWO_63
    ensures Guarded(ShiftLeft(base, k), cap) == Min(base * Pow2(k), cap)
  {
    if base * Pow2(k) >= TWO_63 {
      OverflowIsGuarded(base, unit, z, b, cap, k);
    } else {
      MulMonotone(0, base, 1, Pow2(k));
      GuardedFittingIsExact(base * Pow2(k), cap);
    }
  }

  lemma {:induction false} RetryCeilingExact(k: nat)
    ensures Guarded(ShiftLeft(RETRY_BASE, k), RETRY_CAP) == Min(RETRY_BASE * Pow2(k), RETRY_CAP)
  {
    Pow2Values();
    assert Pow2(0) == 1;
    GuardedShiftIsExact(RETRY_BASE, RETRY_BASE, 0, 23, RETRY_CAP, k);
  }

  lemma {:induction false} RelayCeilingExact(k: nat)
    ensures Guarded(ShiftLeft(RELAY_BASE, k), RELAY_CAP) == Min(RELAY_BASE * Pow2(k), RELAY_CAP)
  {
    Pow2Values();
    assert Pow2(9) == 512;
    GuardedShiftIsExact(RELAY_BASE, 1_953_125, 9, 30, RELAY_CAP, k);
  }

  /** A source of random numbers below a positive bound; it must not be asked for any other. */
  ghost predicate Draws(draw: int -> int) {
    forall n :: n > 0 ==> 0 <= draw(n) < n
  }

  /** The exact ceiling of the sleep after a given attempt. */
  function RetryCeiling(attempt: int): int
    requires attempt >= 1
  {
    Min(RETRY_BASE * Pow2(attempt - 1), RETRY_CAP)
  }

  /** The exact ceiling of the delay of a row that has failed `attempts` times. */
  function RelayCeiling(attempts: int): int {
    Min(RELAY_BASE * Pow2(if attempts > 0 then attempts else 0), RELAY_CAP)
  }

  /**
   * How long a transaction sleeps before attempt + 1: a draw below the exact ceiling, which is positive
   * for every attempt number, however large.
   */
  method RetryWait(attempt: int, draw: int -> int) returns (wait: int)
    requires attempt >= 1 && Draws(draw)
    ensures wait == draw(RetryCeiling(attempt))
    ensures 0 <= wait < RetryCeiling(attempt)
  {
    var ceiling: int := ShiftLeft(RETRY_BASE, attempt - 1);
    if ceiling > RETRY_CAP || ceiling <= 0 {
      ceiling := RETRY_CAP;
    }
    RetryCeilingExact(attempt - 1);
    wait := draw(ceiling);
  }

  /** When a row that has failed `attempts` times becomes ready again. */
  method NextAttempt(attempts: int, now: int, draw: int -> int) returns (at: int)
    requires Draws(draw)
    ensures at == now + draw(RelayCeiling(attempts))
    ensures now <= at < now + RelayCeiling(attempts)
  {
    var ceiling: int := RELAY_BASE;
    if attempts > 0 {
      ceiling := ShiftLeft(RELAY_BASE, attempts);
    }
    if ceiling > RELAY_CAP || ceiling <= 0 {
      ceiling := RELAY_CAP;
    }
    RelayCeilingExact(if attempts > 0 then attempts else 0);
    at := now + draw(ceiling);
  }
}
