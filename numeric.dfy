/** Fixed-width integer arithmetic of the contract, written out over Dafny's unbounded `int`.
    Rust's `i128`, `u128` and `u32` become range predicates; the saturating operations the
    contract calls (`saturating_add`, `saturating_sub`, `saturating_mul`), the truncating
    division of `/` on signed integers and the `as` casts between widths are explicit
    functions. Plain `+`, `-` and `*` abort on overflow in the contract; callers model that
    as a failure of the whole operation. */
module Numeric {

  const I128_MIN: int := -0x8000_0000_0000_0000_0000_0000_0000_0000
  const I128_MAX: int := 0x7fff_ffff_ffff_ffff_ffff_ffff_ffff_ffff
  const U128_MAX: int := 0xffff_ffff_ffff_ffff_ffff_ffff_ffff_ffff
  const U32_MAX: int := 0xffff_ffff
  const TWO_128: int := 0x1_0000_0000_0000_0000_0000_0000_0000_0000
  const TWO_32: int := 0x1_0000_0000

  predicate IsI128(x: int) { I128_MIN <= x <= I128_MAX }
  predicate IsU128(x: int) { 0 <= x <= U128_MAX }
  predicate IsU32(x: int) { 0 <= x <= U32_MAX }

  /** The integer types of the contract's stored values. */
  type i128 = x: int | I128_MIN <= x <= I128_MAX
  type u32 = x: int | 0 <= x <= U32_MAX

  function Min(a: int, b: int): (r: int)
    ensures r <= a && r <= b && (r == a || r == b)
  {
    if a <= b then a else b
  }

  function Max(a: int, b: int): (r: int)
    ensures r >= a && r >= b && (r == a || r == b)
  {
    if a >= b then a else b
  }

  /** `i128::saturating_add`: the exact sum, clamped to the i128 range. */
  function SatAddI128(a: int, b: int): (r: int)
    ensures IsI128(r)
    ensures IsI128(a + b) ==> r == a + b
  {
    if a + b > I128_MAX then I128_MAX else if a + b < I128_MIN then I128_MIN else a + b
  }

  /** `i128::saturating_sub`. */
  function SatSubI128(a: int, b: int): (r: int)
    ensures IsI128(r)
    ensures IsI128(a - b) ==> r == a - b
  {
    SatAddI128(a, -b)
  }

  /** `i128::saturating_mul`. */
  function SatMulI128(a: int, b: int): (r: int)
    ensures IsI128(r)
    ensures IsI128(a * b) ==> r == a * b
  {
    if a * b > I128_MAX then I128_MAX else if a * b < I128_MIN then I128_MIN else a * b
  }

  /** `u128::saturating_mul` on non-negative operands. */
  function SatMulU128(a: nat, b: nat): (r: nat)
    ensures IsU128(r)
    ensures a * b <= U128_MAX ==> r == a * b
    ensures r <= a * b
  {
    if a * b > U128_MAX then U128_MAX else a * b
  }

  /** `u32::saturating_add`. */
  function SatAddU32(a: int, b: int): (r: int)
    requires IsU32(a) && IsU32(b)
    ensures IsU32(r)
    ensures a + b <= U32_MAX ==> r == a + b
  {
    if a + b > U32_MAX then U32_MAX else a + b
  }

  /** Rust's `/` on signed integers by a positive divisor: rounds toward zero,
      where Dafny's `/` rounds toward negative infinity. */
  function TruncDiv(a: int, b: int): (q: int)
    requires b > 0
    ensures a >= 0 ==> q == a / b
    ensures a < 0 ==> q == -((-a) / b)
  {
    if a >= 0 then a / b else -((-a) / b)
  }

  /** `x as u128` for an i128 `x`: two's-complement reinterpretation. */
  function I128AsU128(x: int): (r: int)
    requires IsI128(x)
    ensures IsU128(r)
    ensures x >= 0 ==> r == x
  {
    if x >= 0 then x else x + TWO_128
  }

  /** `x as i128` for a u128 `x`: two's-complement reinterpretation. */
  function U128AsI128(x: int): (r: int)
    requires IsU128(x)
    ensures IsI128(r)
    ensures x <= I128_MAX ==> r == x
    ensures x > I128_MAX ==> r < 0
  {
    if x <= I128_MAX then x else x - TWO_128
  }

  /** `x as u32` for an i128 `x`: keeps the low 32 bits. */
  function I128AsU32(x: int): (r: int)
    ensures IsU32(r)
    ensures 0 <= x <= U32_MAX ==> r == x
  {
    x % TWO_32
  }

  /** k * d <= n exactly when k <= n / d. */
  lemma DivAtLeast(n: nat, d: nat, k: int)
    requires d >= 1
    ensures k * d <= n <==> k <= n / d
  {
    var q := n / d;
    assert n == q * d + n % d;
    if k <= q {
      MulLe(k, q, d);
    } else {
      MulLe(q + 1, k, d);
      assert (q + 1) * d == q * d + d;
    }
  }

  /** Multiplying by a non-negative factor preserves order. */
  lemma MulLe(a: int, b: int, d: int)
    requires a <= b && d >= 0
    ensures a * d <= b * d
  {
    assert b * d - a * d == (b - a) * d;
  }
}
