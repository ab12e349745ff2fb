/** Fixed-width machine integers and the C++ operators that act on them. */
module Words {

  const TWO31: int := 0x8000_0000
  const TWO32: int := 0x1_0000_0000
  const TWO63: int := 0x8000_0000_0000_0000
  const TWO64: int := 0x1_0000_0000_0000_0000
  const MIN64: int := -0x8000_0000_0000_0000
  const MAX64: int := 0x7FFF_FFFF_FFFF_FFFF

  type U32 = x: int | 0 <= x < 0x1_0000_0000
  type I32 = x: int | -0x8000_0000 <= x < 0x8000_0000
  type U64 = x: int | 0 <= x < 0x1_0000_0000_0000_0000
  type I64 = x: int | -0x8000_0000_0000_0000 <= x < 0x8000_0000_0000_0000

  /** The two halves of a ULARGE_INTEGER, and the whole built from halves. */
  function Low(x: U64): U32 { x % 0x1_0000_0000 }
  function High(x: U64): U32 { x / 0x1_0000_0000 }
  function Quad(high: U32, low: U32): U64 { high * 0x1_0000_0000 + low }

  /** Conversions between widths: the value is taken modulo the width. */
  function ToU32(x: int): U32 { x % 0x1_0000_0000 }
  function ToU64(x: int): U64 { x % 0x1_0000_0000_0000_0000 }
  function ToI32(x: int): I32 { var u := x % 0x1_0000_0000; if u < 0x8000_0000 then u else u - 0x1_0000_0000 }
  function ToI64(x: int): I64 { var u := x % 0x1_0000_0000_0000_0000; if u < 0x8000_0000_0000_0000 then u
      else u - 0x1_0000_0000_0000_0000 }

  /** Reducing twice is reducing once. */
  lemma I32Twice(x: int, y: int)
    ensures ToI32(ToI32(x) + y) == ToI32(x + y)
  {
  }

  function Abs(x: int): nat { if x < 0 then -x else x }

  function Min(x: int, y: int): int { if x < y then x else y }

  /** The `/` and `%` of C++: the quotient is rounded towards zero. */
  function TruncDiv(n: int, d: int): int
    requires d != 0
  {
    if (n < 0) == (d < 0) then Abs(n) / Abs(d) else -(Abs(n) / Abs(d))
  }

  function TruncMod(n: int, d: int): int
    requires d != 0
  {
    if n < 0 then -(Abs(n) % Abs(d)) else Abs(n) % Abs(d)
  }

  lemma MulMonotone(x: int, y: int, d: nat)
    requires x <= y
    ensures x * d <= y * d
  {
    assert (y - x) * d >= 0;
    assert (y - x) * d == y * d - x * d;
  }

  lemma CancelLe(x: int, y: int, d: nat)
    requires x * d <= y * d && d > 0
    ensures x <= y
  {
    if x > y {
      MulMonotone(y + 1, x, d);
    }
  }

  lemma MulStep(k: int, a: int)
    ensures (k + 1) * a == k * a + a && 0 * a == 0
  {
  }

  /** Taking the divisor away once. */
  lemma DivStep(n: int, d: int)
    requires n >= d > 0
    ensures (n - d) / d == n / d - 1 && (n - d) % d == n % d
  {
    var q, r := (n - d) / d, (n - d) % d;
    assert n == (q + 1) * d + r;
    DivUnique(n, d, q + 1, r);
  }

  /** A quotient and remainder that fit determine the division. */
  lemma DivUnique(n: nat, d: nat, q: nat, r: nat)
    requires n == q * d + r && r < d
    ensures n / d == q && n % d == r
  {
    var q' := n / d;
    assert q' * d <= n < (q' + 1) * d by { assert (q' + 1) * d == q' * d + d; }
    assert q * d <= n < (q + 1) * d by { assert (q + 1) * d == q * d + d; }
    if q < q' {
      MulMonotone(q + 1, q', d);
    } else if q' < q {
      MulMonotone(q' + 1, q, d);
    }
  }
}
