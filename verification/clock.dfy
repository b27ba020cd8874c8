/** Abstract time. `Instant` and `Duration` are both natural numbers of
    nanoseconds; the real clock is never read, the current instant is passed
    in by whoever drives the model. */
module Clock {

  const NanosPerMilli: nat := 1_000_000
  const NanosPerSec: nat := 1_000_000_000

  /** `Duration::from_secs`. */
  function FromSecs(secs: nat): (d: nat)
    ensures d % NanosPerSec == 0
    ensures AsSecs(d) == secs
  {
    secs * NanosPerSec
  }

  /** `Duration::as_millis`: whole milliseconds, truncated. */
  function AsMillis(d: nat): (ms: nat)
  {
    d / NanosPerMilli
  }

  /** `Duration::as_secs`: whole seconds, truncated. */
  function AsSecs(d: nat): (secs: nat)
  {
    d / NanosPerSec
  }

  /** One more than the largest `u64`. */
  const U64Modulus: nat := 0x1_0000_0000_0000_0000

  /** The cast `as u64` of a `u128` count: it keeps the low 64 bits, so a
      count that fits is unchanged and a larger one wraps around. */
  function AsU64(n: nat): (r: nat)
    ensures r < U64Modulus
    ensures n < U64Modulus ==> r == n
    ensures (n - r) % U64Modulus == 0
  {
    n % U64Modulus
  }

  /** `Duration::saturating_sub`: the difference, or zero where it would be
      negative. */
  function SaturatingSub(a: nat, b: nat): (r: nat)
    ensures b <= a ==> r + b == a
    ensures a < b ==> r == 0
  {
    if b <= a then a - b else 0
  }

  /** Truncation to milliseconds never rounds up and loses less than one. */
  lemma AsMillisBounds(d: nat)
    ensures AsMillis(d) * NanosPerMilli <= d < (AsMillis(d) + 1) * NanosPerMilli
  {
  }

  /** Truncation to milliseconds is monotone. */
  lemma AsMillisMonotone(a: nat, b: nat)
    requires a <= b
    ensures AsMillis(a) <= AsMillis(b)
  {
    AsMillisBounds(a);
    AsMillisBounds(b);
  }

  /** A whole-millisecond total `t` minus `e`, truncated, is `t`'s millis
      minus `e`'s millis rounded UP: truncating the difference and
      subtracting the truncations differ by at most one millisecond. */
  lemma MillisOfDifference(t: nat, e: nat)
    requires t % NanosPerMilli == 0
    requires e <= t
    ensures AsMillis(t - e) <= AsMillis(t) - AsMillis(e) <= AsMillis(t - e) + 1
    ensures t - e <= (AsMillis(t) - AsMillis(e)) * NanosPerMilli < t - e + NanosPerMilli
  {
    var k := t / NanosPerMilli;
    var q := e / NanosPerMilli;
    var r := e % NanosPerMilli;
    assert t == k * NanosPerMilli;
    assert e == q * NanosPerMilli + r;
    AsMillisMonotone(e, t);
    assert (k - q) * NanosPerMilli == t - e + r;
    if r == 0 {
      assert t - e == (k - q) * NanosPerMilli;
      assert AsMillis(t - e) == k - q;
    } else {
      assert t - e == (k - q - 1) * NanosPerMilli + (NanosPerMilli - r);
      assert 0 < NanosPerMilli - r < NanosPerMilli;
      assert AsMillis(t - e) == k - q - 1;
    }
  }

  /** Whole seconds are whole milliseconds. */
  lemma WholeSecondsAreWholeMillis(d: nat)
    requires d % NanosPerSec == 0
    ensures d % NanosPerMilli == 0
  {
    var k := d / NanosPerSec;
    assert d == (k * 1000) * NanosPerMilli;
  }
}
