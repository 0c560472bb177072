/**
 * Fixed-width C++ integers over Dafny's unbounded `int`.
 *
 * The decoder mixes `unsigned int`, `std::uint64_t`, `int` and `long`
 * arithmetic; every conversion and every wrap-around is written out with the
 * functions below, which are the C++20 conversion rules (reduction modulo
 * 2^N, two's complement for the signed types).
 */
module MachineInts {

  const TWO_31: int := 0x8000_0000
  const TWO_32: int := 0x1_0000_0000
  const TWO_63: int := 0x8000_0000_0000_0000
  const TWO_64: int := 0x1_0000_0000_0000_0000

  type u32 = x: int | 0 <= x < TWO_32
  type u64 = x: int | 0 <= x < TWO_64
  type i32 = x: int | -TWO_31 <= x < TWO_31
  type i64 = x: int | -TWO_63 <= x < TWO_63

  /** `std::numeric_limits<unsigned int>::max()` */
  const U32_MAX: u32 := TWO_32 - 1
  /** `std::numeric_limits<std::uint64_t>::max()` */
  const U64_MAX: u64 := TWO_64 - 1

  /** `x` and `y` have the same residue modulo 2^64: the same 64-bit pattern. */
  predicate Congruent(x: int, y: int)
  {
    (x - y) % TWO_64 == 0
  }

  /** Conversion of an integer value to `std::uint64_t`. */
  function ToU64(x: int): (r: u64)
    ensures Congruent(r, x)
    ensures 0 <= x < TWO_64 ==> r == x
  {
    x % TWO_64
  }

  /** Conversion of an integer value to `unsigned int`. */
  function ToU32(x: int): (r: u32)
    ensures (r - x) % TWO_32 == 0
    ensures 0 <= x < TWO_32 ==> r == x
  {
    x % TWO_32
  }

  /** Conversion of an integer value to `long long` (two's complement). */
  function ToI64(x: int): (r: i64)
    ensures Congruent(r, x)
    ensures -TWO_63 <= x < TWO_63 ==> r == x
  {
    var u := x % TWO_64;
    if u < TWO_63 then u else u - TWO_64
  }

  /** Conversion of an integer value to `int` (two's complement). */
  function ToI32(x: int): (r: i32)
    ensures (r - x) % TWO_32 == 0
    ensures -TWO_31 <= x < TWO_31 ==> r == x
  {
    var u := x % TWO_32;
    if u < TWO_31 then u else u - TWO_32
  }

  // ---- congruence modulo 2^64 ------------------------------------------------

  /** Congruent values differ by a whole multiple of 2^64. */
  lemma CongruentMultiple(x: int, y: int) returns (k: int)
    requires Congruent(x, y)
    ensures x - y == k * TWO_64
  {
    k := (x - y) / TWO_64;
  }

  /** Values differing by a whole multiple of 2^64 are congruent. */
  lemma {:induction false} MultipleCongruent(x: int, y: int, k: int)
    requires x - y == k * TWO_64
    ensures Congruent(x, y)
    decreases if k < 0 then -k else k
  {
    if k > 0 {
      MultipleCongruent(x - TWO_64, y, k - 1);
    } else if k < 0 {
      MultipleCongruent(x + TWO_64, y, k + 1);
    }
  }

  lemma CongruentSymmetric(x: int, y: int)
    requires Congruent(x, y)
    ensures Congruent(y, x)
  {
    var k := CongruentMultiple(x, y);
    MultipleCongruent(y, x, -k);
  }

  lemma CongruentTransitive(x: int, y: int, z: int)
    requires Congruent(x, y) && Congruent(y, z)
    ensures Congruent(x, z)
  {
    var k1 := CongruentMultiple(x, y);
    var k2 := CongruentMultiple(y, z);
    MultipleCongruent(x, z, k1 + k2);
  }

  /** Congruence is kept by addition. */
  lemma CongruentAdd(x: int, y: int, u: int, v: int)
    requires Congruent(x, y) && Congruent(u, v)
    ensures Congruent(x + u, y + v)
  {
    var k1 := CongruentMultiple(x, y);
    var k2 := CongruentMultiple(u, v);
    MultipleCongruent(x + u, y + v, k1 + k2);
  }

  /** Congruence is kept by multiplication with a constant factor. */
  lemma CongruentScale(x: int, y: int, c: int)
    requires Congruent(x, y)
    ensures Congruent(x * c, y * c)
  {
    var k := CongruentMultiple(x, y);
    assert x * c - y * c == (k * c) * TWO_64 by {
      assert x * c - y * c == (x - y) * c;
    }
    MultipleCongruent(x * c, y * c, k * c);
  }

  /** Two congruent values in one window of width 2^64 are equal. */
  lemma CongruentInWindow(x: int, y: int, low: int)
    requires Congruent(x, y)
    requires low <= x < low + TWO_64 && low <= y < low + TWO_64
    ensures x == y
  {
    var k := CongruentMultiple(x, y);
  }

  /** Two values with the same residue modulo 2^64 have the same 64-bit image. */
  lemma ToU64Congruent(x: int, y: int)
    requires Congruent(x, y)
    ensures ToU64(x) == ToU64(y)
  {
    CongruentTransitive(ToU64(x), x, y);
    CongruentSymmetric(ToU64(y), y);
    CongruentTransitive(ToU64(x), y, ToU64(y));
    CongruentInWindow(ToU64(x), ToU64(y), 0);
  }

  /** The same, for the signed 64-bit image. */
  lemma ToI64Congruent(x: int, y: int)
    requires Congruent(x, y)
    ensures ToI64(x) == ToI64(y)
  {
    CongruentTransitive(ToI64(x), x, y);
    CongruentSymmetric(ToI64(y), y);
    CongruentTransitive(ToI64(x), y, ToI64(y));
    CongruentInWindow(ToI64(x), ToI64(y), -TWO_63);
  }

  /** A signed 64-bit image is fixed by the unsigned one. */
  lemma ToI64OfU64(x: int)
    ensures ToI64(ToU64(x)) == ToI64(x)
  {
    ToI64Congruent(ToU64(x), x);
  }
}

/** Option, Outcome and Result, for the decoder's optional fields and its exceptions. */
module Results {

  datatype Option<+T> = None | Some(value: T)

  /** The result of an operation that returns nothing but may fail. */
  datatype Outcome<+E> = Pass | Fail(error: E)

  datatype Result<+T, +E> = Success(value: T) | Failure(error: E) {
    predicate IsFailure() {
      Failure?
    }

    function PropagateFailure<U>(): Result<U, E>
      requires Failure?
    {
      Failure(error)
    }

    function Extract(): T
      requires Success?
    {
      value
    }
  }
}
