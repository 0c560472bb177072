/**
 * The timestamp arithmetic of the trigger decoder: the White Rabbit epoch fix
 * with its leap-second correction, the combination of second and nanosecond
 * counters into one 64-bit timestamp, and the signed difference of two
 * timestamps.
 */
module Timestamps {
  import opened MachineInts

  const NS_PER_SECOND: int := 1_000_000_000

  /** White Rabbit seconds value the trigger board reports when it has no time. */
  const UNKNOWN_WR_SECONDS: int := -2
  /** White Rabbit nanoseconds value the trigger board reports when it has no time. */
  const UNKNOWN_WR_NANOSECONDS: int := -3

  /** 2017-01-01T00:00:00 UTC, from when TAI is 37 s ahead of UTC. */
  const LEAP_BOUNDARY: int := 1483228800
  /** TAI - UTC in seconds from LEAP_BOUNDARY on. */
  const LEAP_CORRECTION: int := 37

  /** The number of seconds the epoch fix takes off a White Rabbit time. */
  function LeapCorrection(wrSeconds: i64): int
  {
    if wrSeconds >= LEAP_BOUNDARY then LEAP_CORRECTION else 0
  }

  /**
   * `getNanoseconds_since_UTC_epoch_fix`: nanoseconds since the UTC epoch of a
   * White Rabbit time stamp, 0 if either counter holds its "unknown" sentinel.
   * Written as the source evaluates it: the `long` difference is converted to
   * `unsigned long long`, multiplied, and the nanoseconds added, each step
   * modulo 2^64.
   */
  function EpochFix(wrSeconds: i64, wrNanoseconds: i64): (r: u64)
    ensures wrSeconds == UNKNOWN_WR_SECONDS || wrNanoseconds == UNKNOWN_WR_NANOSECONDS ==> r == 0
    ensures wrSeconds != UNKNOWN_WR_SECONDS && wrNanoseconds != UNKNOWN_WR_NANOSECONDS ==>
      Congruent(r, (wrSeconds - LeapCorrection(wrSeconds)) * NS_PER_SECOND + wrNanoseconds)
  {
    if wrSeconds == UNKNOWN_WR_SECONDS || wrNanoseconds == UNKNOWN_WR_NANOSECONDS then
      0
    else
      var seconds: i64 := wrSeconds - LeapCorrection(wrSeconds);
      var r := ToU64(ToU64(ToU64(seconds) * NS_PER_SECOND) + ToU64(wrNanoseconds));
      WrappedAffine(seconds, wrNanoseconds);
      r
  }

  /** Reducing modulo 2^64 after every step of `s * 10^9 + ns` is the same as once at the end. */
  lemma WrappedAffine(s: int, ns: int)
    ensures Congruent(ToU64(ToU64(ToU64(s) * NS_PER_SECOND) + ToU64(ns)), s * NS_PER_SECOND + ns)
  {
    var a := ToU64(s) * NS_PER_SECOND;
    CongruentScale(ToU64(s), s, NS_PER_SECOND);
    CongruentTransitive(ToU64(a), a, s * NS_PER_SECOND);
    CongruentAdd(ToU64(a), s * NS_PER_SECOND, ToU64(ns), ns);
    CongruentTransitive(ToU64(ToU64(a) + ToU64(ns)), ToU64(a) + ToU64(ns), s * NS_PER_SECOND + ns);
  }

  /**
   * `TriggerDecoder::makeTimestamp`: a second and a nanosecond counter, both
   * `unsigned int`, combined into one `std::uint64_t` nanosecond count. The
   * C++ evaluates it modulo 2^64; the contract says that no wrap-around ever
   * happens for 32-bit inputs.
   */
  function MakeTimestamp(s: u32, ns: u32): (r: u64)
    ensures r == s * NS_PER_SECOND + ns
  {
    ToU64(s * NS_PER_SECOND + ns)
  }

  /**
   * `TriggerDecoder::timestampDiff`: `a - b` after casting both to
   * `long long`. A difference outside the `long long` range is undefined in
   * C++; the model gives it the two's complement wrap-around of the hardware.
   */
  function TimestampDiff(a: u64, b: u64): (d: i64)
    ensures Congruent(d, a - b)
  {
    var sa: int, sb: int := ToI64(a), ToI64(b);
    var r := ToI64(sa - sb);
    CongruentSymmetric(sb, b);
    CongruentScale(b as int, sb, -1);
    CongruentAdd(sa, a, -sb, -(b as int));
    CongruentTransitive(r, sa - sb, a - b);
    r
  }

  // ---- makeTimestamp --------------------------------------------------------

  /**
   * A combined timestamp with a proper nanosecond field splits back into its
   * seconds (`/ 1e9`) and nanoseconds (`% 1e9`), as the decoder's diagnostic
   * printout of the beam gate time assumes.
   */
  lemma MakeTimestampSplit(s: u32, ns: u32)
    requires ns < NS_PER_SECOND
    ensures MakeTimestamp(s, ns) / NS_PER_SECOND == s
    ensures MakeTimestamp(s, ns) % NS_PER_SECOND == ns
  {
    DivModUnique(MakeTimestamp(s, ns), s, ns);
  }

  /** The unique quotient and remainder of a division by 10^9. */
  lemma DivModUnique(x: int, q: int, m: int)
    requires x == q * NS_PER_SECOND + m && 0 <= m < NS_PER_SECOND
    ensures x / NS_PER_SECOND == q && x % NS_PER_SECOND == m
  {
  }

  /** Combined timestamps are ordered as (seconds, nanoseconds) pairs are. */
  lemma MakeTimestampOrder(s1: u32, ns1: u32, s2: u32, ns2: u32)
    requires ns1 < NS_PER_SECOND && ns2 < NS_PER_SECOND
    ensures MakeTimestamp(s1, ns1) < MakeTimestamp(s2, ns2) <==> s1 < s2 || (s1 == s2 && ns1 < ns2)
    ensures MakeTimestamp(s1, ns1) == MakeTimestamp(s2, ns2) <==> s1 == s2 && ns1 == ns2
  {
    if s1 < s2 {
      assert s1 * NS_PER_SECOND + NS_PER_SECOND <= s2 * NS_PER_SECOND;
    } else if s2 < s1 {
      assert s2 * NS_PER_SECOND + NS_PER_SECOND <= s1 * NS_PER_SECOND;
    }
  }

  // ---- epoch fix ------------------------------------------------------------

  /**
   * For a non-negative 32-bit seconds count and nanoseconds count, the epoch
   * fix is the combined timestamp of the seconds minus the leap correction:
   * no wrap-around happens on realistic inputs.
   */
  lemma EpochFixIsCombinedTimestamp(s: i64, ns: i64)
    requires 0 <= s < TWO_32 && 0 <= ns < TWO_32
    ensures s - LeapCorrection(s) >= 0
    ensures EpochFix(s, ns) == MakeTimestamp(s - LeapCorrection(s), ns)
  {
    var x := (s - LeapCorrection(s)) * NS_PER_SECOND + ns;
    assert 0 <= x < TWO_64;
    ToU64Congruent(EpochFix(s, ns), x);
  }

  /**
   * Seconds and nanoseconds read back from a fixed timestamp: the seconds are
   * the White Rabbit seconds less the leap correction, the nanoseconds are
   * unchanged.
   */
  lemma EpochFixSplit(s: i64, ns: i64)
    requires 0 <= s < TWO_32 && 0 <= ns < NS_PER_SECOND
    ensures EpochFix(s, ns) / NS_PER_SECOND == s - LeapCorrection(s)
    ensures EpochFix(s, ns) % NS_PER_SECOND == ns
  {
    EpochFixIsCombinedTimestamp(s, ns);
    MakeTimestampSplit(s - LeapCorrection(s), ns);
  }

  /**
   * The leap boundary: the last second before 2017 is left alone, the first
   * second of 2017 loses 37 s, so the fixed time steps back by 36 s there.
   */
  lemma EpochFixAtLeapBoundary(ns: i64)
    requires 0 <= ns < NS_PER_SECOND
    ensures EpochFix(LEAP_BOUNDARY - 1, ns) == (LEAP_BOUNDARY - 1) * NS_PER_SECOND + ns
    ensures EpochFix(LEAP_BOUNDARY, ns) == (LEAP_BOUNDARY - LEAP_CORRECTION) * NS_PER_SECOND + ns
    ensures EpochFix(LEAP_BOUNDARY, ns) + 36 * NS_PER_SECOND == EpochFix(LEAP_BOUNDARY - 1, ns)
  {
    EpochFixIsCombinedTimestamp(LEAP_BOUNDARY - 1, ns);
    EpochFixIsCombinedTimestamp(LEAP_BOUNDARY, ns);
  }

  /**
   * The sentinels are exact values, not a range: a seconds count of -1 is
   * taken as a time and wraps around to a huge unsigned value.
   */
  lemma EpochFixNonSentinelWraps()
    ensures EpochFix(-1, 0) == TWO_64 - NS_PER_SECOND
  {
    ToU64Congruent(EpochFix(-1, 0), TWO_64 - NS_PER_SECOND);
  }

  // ---- timestampDiff --------------------------------------------------------

  /** On timestamps below 2^63 the difference is the exact one. */
  lemma TimestampDiffExact(a: u64, b: u64)
    requires a < TWO_63 && b < TWO_63
    ensures TimestampDiff(a, b) == a - b
  {
    CongruentInWindow(TimestampDiff(a, b), a - b, -TWO_63);
  }

  /** A timestamp differs from itself by 0. */
  lemma TimestampDiffSelf(a: u64)
    ensures TimestampDiff(a, a) == 0
  {
    CongruentInWindow(TimestampDiff(a, a), 0, -TWO_63);
  }

  /**
   * Swapping the arguments negates the difference exactly when the wrapped
   * difference is not 2^63, whose signed reading -2^63 has no negation in
   * `long long`.
   */
  lemma TimestampDiffAntisymmetric(a: u64, b: u64)
    ensures TimestampDiff(a, b) + TimestampDiff(b, a) == 0 <==> ToU64(a - b) != TWO_63
  {
    var d1: int, d2: int := TimestampDiff(a, b), TimestampDiff(b, a);
    var u: int := ToU64(a - b);
    CongruentAdd(d1, a - b, d2, b - a);
    var k := CongruentMultiple(d1 + d2, 0);
    assert k == 0 || k == -1;
    // d1 and u are two readings of the same 64-bit pattern
    CongruentSymmetric(u, a - b);
    CongruentTransitive(d1, a - b, u);
    MultipleCongruent(u, u - TWO_64, 1);
    CongruentTransitive(d1, u, u - TWO_64);
    if u == TWO_63 {
      CongruentInWindow(d1, -TWO_63, -TWO_63);
      assert d1 + d2 != 0;
    } else if d1 + d2 != 0 {
      assert d1 == -TWO_63 && d2 == -TWO_63;
      CongruentInWindow(d1, u - TWO_64, -TWO_63);
    }
  }

  /** Corollary on realistic timestamps (below 2^63). */
  lemma TimestampDiffAntisymmetricBelow(a: u64, b: u64)
    requires a < TWO_63 && b < TWO_63
    ensures TimestampDiff(a, b) + TimestampDiff(b, a) == 0
  {
    TimestampDiffExact(a, b);
    TimestampDiffExact(b, a);
  }
}
