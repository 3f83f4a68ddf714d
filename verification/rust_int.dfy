/** Rust's fixed-width integers over Dafny's unbounded `int`.

Every operator the programs use is written out with its Rust meaning:
`checked_*(..).ok_or(CustomError::CalculationError)?` fails with
`CalculationError`, a plain operator traps (`overflow-checks` is on in an Anchor
build) and a division by zero always traps, `saturating_mul` stops at the
maximum, and `as` keeps the low bits.
*/
module RustInt {
  import opened Outcomes

  const U64_LIMIT: int := 0x1_0000_0000_0000_0000
  const U128_LIMIT: int := 0x1_0000_0000_0000_0000_0000_0000_0000_0000
  const I64_MIN: int := -0x8000_0000_0000_0000
  const I64_MAX: int := 0x7fff_ffff_ffff_ffff

  type U8 = x: int | 0 <= x < 0x100
  type U16 = x: int | 0 <= x < 0x1_0000
  type U64 = x: int | 0 <= x < 0x1_0000_0000_0000_0000
  type U128 = x: int | 0 <= x < 0x1_0000_0000_0000_0000_0000_0000_0000_0000
  type I64 = x: int | -0x8000_0000_0000_0000 <= x < 0x8000_0000_0000_0000

  const U64_MAX: U64 := 0xffff_ffff_ffff_ffff
  const U128_MAX: U128 := 0xffff_ffff_ffff_ffff_ffff_ffff_ffff_ffff

  predicate IsU64(x: int) { 0 <= x < U64_LIMIT }
  predicate IsU128(x: int) { 0 <= x < U128_LIMIT }
  predicate IsI64(x: int) { I64_MIN <= x <= I64_MAX }

  /** `[u64; 3]` */
  datatype U64x3 = U64x3(at0: U64, at1: U64, at2: U64)

  const ZERO_U64X3: U64x3 := U64x3(0, 0, 0)

  // ---------------------------------------------------------------
  // Casts
  // ---------------------------------------------------------------

  /** `x as u64` for an unsigned or signed source: the low 64 bits. */
  function AsU64(x: int): (r: U64)
    ensures IsU64(x) ==> r == x
    ensures (x - r) % U64_LIMIT == 0
  {
    x % U64_LIMIT
  }

  /** `x as u128` for an `i64`: sign extension, so a negative value wraps. */
  function I64AsU128(x: I64): (r: U128)
    ensures x >= 0 ==> r == x
    ensures x < 0 ==> r == U128_LIMIT + x
  {
    if x >= 0 then x else U128_LIMIT + x
  }

  /** `x as i64` for a `u64`: values from 2^63 on become negative. */
  function U64AsI64(x: U64): (r: I64)
    ensures x <= I64_MAX ==> r == x
    ensures x > I64_MAX ==> r == x - U64_LIMIT
  {
    if x <= I64_MAX then x else x - U64_LIMIT
  }

  function MinInt(a: int, b: int): (r: int)
    ensures r <= a && r <= b
    ensures r == a || r == b
  {
    if a <= b then a else b
  }

  // ---------------------------------------------------------------
  // u128
  // ---------------------------------------------------------------

  /** `a * b` on u128 */
  function MulU128(a: U128, b: U128): (r: Res<U128>)
    ensures a * b < U128_LIMIT <==> r.Ok?
    ensures r.Ok? ==> r.value == a * b
    ensures !r.Ok? ==> r.Panic?
  {
    if a * b < U128_LIMIT then Ok(a * b) else Panic
  }

  /** `a.saturating_mul(b)` on u128 */
  function SaturatingMulU128(a: U128, b: U128): (r: U128)
    ensures a * b < U128_LIMIT ==> r == a * b
    ensures a * b >= U128_LIMIT ==> r == U128_MAX
  {
    if a * b < U128_LIMIT then a * b else U128_MAX
  }

  /** `a / b` on u128 */
  function DivU128(a: U128, b: U128): (r: Res<U128>)
    ensures b == 0 <==> r.Panic?
    ensures b != 0 ==> r == Ok(a / b)
  {
    if b == 0 then Panic else Ok(a / b)
  }

  /** `a.pow(2)` on u128 */
  function SquareU128(a: U128): (r: Res<U128>)
    ensures a * a < U128_LIMIT <==> r.Ok?
    ensures r.Ok? ==> r.value == a * a
    ensures !r.Ok? ==> r.Panic?
  {
    if a * a < U128_LIMIT then Ok(a * a) else Panic
  }

  function CheckedAddU128(a: U128, b: U128): (r: Res<U128>)
    ensures a + b < U128_LIMIT ==> r == Ok(a + b)
    ensures a + b >= U128_LIMIT ==> r == Err(CalculationError)
  {
    if a + b < U128_LIMIT then Ok(a + b) else Err(CalculationError)
  }

  function CheckedSubU128(a: U128, b: U128): (r: Res<U128>)
    ensures b <= a ==> r == Ok(a - b)
    ensures b > a ==> r == Err(CalculationError)
  {
    if b <= a then Ok(a - b) else Err(CalculationError)
  }

  function CheckedMulU128(a: U128, b: U128): (r: Res<U128>)
    ensures a * b < U128_LIMIT ==> r == Ok(a * b)
    ensures a * b >= U128_LIMIT ==> r == Err(CalculationError)
  {
    if a * b < U128_LIMIT then Ok(a * b) else Err(CalculationError)
  }

  /** `checked_div` fails only on a zero divisor, and then with an error code,
      not a panic. */
  function CheckedDivU128(a: U128, b: U128): (r: Res<U128>)
    ensures b != 0 ==> r == Ok(a / b)
    ensures b == 0 ==> r == Err(CalculationError)
  {
    if b != 0 then Ok(a / b) else Err(CalculationError)
  }

  // ---------------------------------------------------------------
  // u64
  // ---------------------------------------------------------------

  function CheckedAddU64(a: U64, b: U64): (r: Res<U64>)
    ensures a + b < U64_LIMIT ==> r == Ok(a + b)
    ensures a + b >= U64_LIMIT ==> r == Err(CalculationError)
  {
    if a + b < U64_LIMIT then Ok(a + b) else Err(CalculationError)
  }

  function CheckedSubU64(a: U64, b: U64): (r: Res<U64>)
    ensures b <= a ==> r == Ok(a - b)
    ensures b > a ==> r == Err(CalculationError)
  {
    if b <= a then Ok(a - b) else Err(CalculationError)
  }

  /** `a + b` on u64 */
  function AddU64(a: U64, b: U64): (r: Res<U64>)
    ensures a + b < U64_LIMIT ==> r == Ok(a + b)
    ensures a + b >= U64_LIMIT ==> r == Panic
  {
    if a + b < U64_LIMIT then Ok(a + b) else Panic
  }

  /** `a - b` on u64 */
  function SubU64(a: U64, b: U64): (r: Res<U64>)
    ensures b <= a ==> r == Ok(a - b)
    ensures b > a ==> r == Panic
  {
    if b <= a then Ok(a - b) else Panic
  }

  /** `a * b` on u64 */
  function MulU64(a: U64, b: U64): (r: Res<U64>)
    ensures a * b < U64_LIMIT ==> r == Ok(a * b)
    ensures a * b >= U64_LIMIT ==> r == Panic
  {
    if a * b < U64_LIMIT then Ok(a * b) else Panic
  }

  /** `a / b` on u64 */
  function DivU64(a: U64, b: U64): (r: Res<U64>)
    ensures b == 0 <==> r.Panic?
    ensures b != 0 ==> r == Ok(a / b)
  {
    if b == 0 then Panic else Ok(a / b)
  }

  // ---------------------------------------------------------------
  // i64
  // ---------------------------------------------------------------

  /** `a + b` on i64 */
  function AddI64(a: I64, b: I64): (r: Res<I64>)
    ensures IsI64(a + b) ==> r == Ok(a + b)
    ensures !IsI64(a + b) ==> r == Panic
  {
    if IsI64(a + b) then Ok(a + b) else Panic
  }

  function CheckedAddI64(a: I64, b: I64): (r: Res<I64>)
    ensures IsI64(a + b) ==> r == Ok(a + b)
    ensures !IsI64(a + b) ==> r == Err(CalculationError)
  {
    if IsI64(a + b) then Ok(a + b) else Err(CalculationError)
  }

  function CheckedSubI64(a: I64, b: I64): (r: Res<I64>)
    ensures IsI64(a - b) ==> r == Ok(a - b)
    ensures !IsI64(a - b) ==> r == Err(CalculationError)
  {
    if IsI64(a - b) then Ok(a - b) else Err(CalculationError)
  }

  /** `-a` on i64: only `i64::MIN` has no negation. */
  function NegI64(a: I64): (r: Res<I64>)
    ensures a == I64_MIN <==> r.Panic?
    ensures a != I64_MIN ==> r == Ok(-a)
  {
    if a == I64_MIN then Panic else Ok(-a)
  }

  /** `a.abs()` on i64 */
  function AbsI64(a: I64): (r: Res<I64>)
    ensures a == I64_MIN <==> r.Panic?
    ensures a != I64_MIN ==> r.Ok? && r.value >= 0 && (r.value == a || r.value == -a)
  {
    if a == I64_MIN then Panic else if a < 0 then Ok(-a) else Ok(a)
  }

  /** Rust's `/` on integers rounds toward zero, unlike Dafny's Euclidean `/`. */
  function TruncDiv(a: int, b: int): (q: int)
    requires b != 0
    ensures a >= 0 && b > 0 ==> q == a / b
  {
    if (a >= 0) == (b > 0) then
      (if a >= 0 then a / b else (-a) / (-b))
    else
      -((if a >= 0 then a else -a) / (if b > 0 then b else -b))
  }

  /** `a / b` on i64 where the quotient exists. */
  function TruncDivI64(a: I64, b: I64): (q: I64)
    requires b != 0 && !(a == I64_MIN && b == -1)
    ensures q == TruncDiv(a, b)
  {
    TruncDivBound(a, b);
    TruncDiv(a, b)
  }

  /** `a / b` on i64: traps on a zero divisor and on `i64::MIN / -1`. */
  function DivI64(a: I64, b: I64): (r: Res<I64>)
    ensures b == 0 || (a == I64_MIN && b == -1) <==> r.Panic?
    ensures r.Ok? ==> r.value == TruncDiv(a, b)
    ensures b > 0 && a >= 0 ==> r == Ok(a / b)
  {
    if b == 0 || (a == I64_MIN && b == -1) then Panic
    else Ok(TruncDivI64(a, b))
  }

  lemma TruncDivBound(a: I64, b: I64)
    requires b != 0 && !(a == I64_MIN && b == -1)
    ensures IsI64(TruncDiv(a, b))
  {
    var m: int := if a >= 0 then a else -(a as int);
    var n: int := if b > 0 then b else -(b as int);
    DivLeNumerator(m, n);
    if n >= 2 {
      DivByLargerLe(m, 2, n);
    }
  }

  // ---------------------------------------------------------------
  // Multiplication and division facts used by the proofs
  // ---------------------------------------------------------------

  lemma MulLe(k: int, x: int, y: int)
    requires k >= 0 && x <= y
    ensures k * x <= k * y
  {
    assert k * y - k * x == k * (y - x);
  }

  lemma MulCancelLt(d: int, x: int, y: int)
    requires d > 0 && d * x < d * y
    ensures x < y
  {
    if x >= y {
      MulLe(d, y, x);
    }
  }

  lemma DivLeNumerator(a: int, d: int)
    requires a >= 0 && d >= 1
    ensures 0 <= a / d <= a
  {
    var q := a / d;
    assert d * q <= a;
    MulLe(q, 1, d);
  }

  /** A numerator below the divisor floors to 0. */
  lemma DivOfSmaller(a: int, d: int)
    requires 0 <= a < d
    ensures a / d == 0
  {
  }

  /** Dividing by more gives no more. */
  lemma DivByLargerLe(a: int, d1: int, d2: int)
    requires a >= 0 && 1 <= d1 <= d2
    ensures a / d2 <= a / d1
  {
    var q := a / d2;
    MulLe(q, d1, d2);
    assert d1 * q <= a;
    assert a < d1 * (a / d1 + 1);
    MulCancelLt(d1, q, a / d1 + 1);
  }

  /** Floor division is monotone in the numerator. */
  lemma DivMonotone(a: int, b: int, d: int)
    requires 0 <= a <= b && d >= 1
    ensures a / d <= b / d
  {
    var qa, qb := a / d, b / d;
    assert d * qa <= a;
    assert b < d * (qb + 1);
    MulCancelLt(d, qa, qb + 1);
  }

  /** `t * e / d < t` when `e < d`. */
  lemma MulDivBelow(t: int, e: int, d: int)
    requires t >= 1 && 0 <= e < d
    ensures t * e / d < t
  {
    MulLe(t, e, d - 1);
    assert t * e < t * d;
    var q := t * e / d;
    assert d * q <= t * e;
    MulCancelLt(d, q, t);
  }

  /** `t * e / d <= t` when `e <= d`. */
  lemma MulDivAtMost(t: int, e: int, d: int)
    requires t >= 0 && 0 <= e <= d && d >= 1
    ensures 0 <= t * e / d <= t
  {
    MulLe(t, 0, e);
    MulLe(t, e, d);
    var q := t * e / d;
    assert d * q <= t * e;
    assert t * d < d * (t + 1);
    MulCancelLt(d, q, t + 1);
  }

  /** The product of two u64 values always fits in a u128. */
  lemma U64ProductFits(a: U64, b: U64)
    ensures 0 <= a * b <= U64_MAX * U64_MAX < U128_LIMIT
  {
    var m: int := U64_MAX;
    MulLe(a, 0, b);
    MulLe(a, b, m);
    MulLe(m, a, m);
    assert a * m == m * a;
    assert m * m < U128_LIMIT;
  }
}
