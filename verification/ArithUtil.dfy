/**
 The 128-bit helpers of arithutil.cpp.  Both routines work on 32-bit words;
 here each is proved to compute one function of unbounded integers, MulDiv.
 */
module ArithUtil {
  import opened Words
  import opened BitMath

  /** Compute (a * b + d) / c, as exact integers, then what the code does with the result. */
  function MulDiv(a: int, b: int, c: int, d: int): I64 {
    Quotient(a * b + d, c, (a < 0) != (b < 0))
  }

  /** n / c, with the sign given to 0 / 0 by the factors of n. */
  function Quotient(n: int, c: int, signOfZero: bool): I64 {
    if c == 0 then
      Saturated(if n == 0 then signOfZero else n < 0)
    else
      var q := TruncDiv(n, c);
      if -0x1_0000_0000_0000_0000 < q < 0x1_0000_0000_0000_0000 then ToI64(q) else Saturated(q < 0)
  }

  function Saturated(negative: bool): I64 {
    if negative then MIN64 else MAX64
  }

  // ---------- what the function promises ----------

  /** A quotient that a LONGLONG can hold is returned exactly. */
  lemma MulDivExact(a: I64, b: I64, c: I64, d: I64)
    requires c != 0 && MIN64 <= TruncDiv(a * b + d, c) <= MAX64
    ensures MulDiv(a, b, c, d) == TruncDiv(a * b + d, c)
  {
  }

  /** The result is the quotient clamped to 64 bits exactly when the quotient is
      outside the two bands that wrap; the guard of the code tests against 2^64, not 2^63. */
  lemma MulDivClampsIff(a: I64, b: I64, c: I64, d: I64)
    requires c != 0
    ensures var q := TruncDiv(a * b + d, c);
            MulDiv(a, b, c, d) == (if q < MIN64 then MIN64 else if q > MAX64 then MAX64 else q)
            <==> !(TWO63 <= q < TWO64) && !(-TWO64 < q < -TWO63)
  {
  }

  /** A quotient in the band comes back with the wrong sign. */
  lemma MulDivWraps()
    ensures TruncDiv(TWO31 * TWO32, 1) == TWO63 && MulDiv(TWO31, TWO32, 1, 0) == MIN64
  {
  }

  /** Scaling up and back down is the identity. */
  lemma MulDivCancels(a: I64, b: I64)
    requires b != 0
    ensures MulDiv(a, b, b, 0) == a == MulDiv(b, a, b, 0)
  {
    assert Abs(a * b) == Abs(a) * Abs(b) by { AbsProduct(a, b); }
    DivUnique(Abs(a * b), Abs(b), Abs(a), 0);
    assert a * b == b * a;
    assert TruncDiv(a * b, b) == a by { ProductSign(a, b); }
  }

  lemma AbsProduct(a: int, b: int)
    ensures Abs(a * b) == Abs(a) * Abs(b)
  {
    ProductSign(a, b);
    assert (-a) * b == -(a * b) && a * (-b) == -(a * b) && (-a) * (-b) == a * b;
  }

  lemma ProductSign(a: int, b: int)
    ensures a == 0 || b == 0 ==> a * b == 0
    ensures a != 0 && b != 0 ==> (a * b < 0 <==> (a < 0) != (b < 0)) && a * b != 0
  {
    if a > 0 && b > 0 { assert a * b > 0; }
    if a < 0 && b > 0 { assert (-a) * b > 0; }
    if a > 0 && b < 0 { assert a * (-b) > 0; }
    if a < 0 && b < 0 { assert (-a) * (-b) > 0; }
  }

  // ---------- llMulDiv ----------

  /** Schoolbook multiplication; the middle word does not overflow because the operands are at most 2^63. */
  method LongMultiply(ua: U64, ub: U64) returns (p0: U64, p1: U64)
    requires ua <= 0x8000_0000_0000_0000 && ub <= 0x8000_0000_0000_0000
    ensures p1 * 0x1_0000_0000_0000_0000 + p0 == ua * ub
  {
    Schoolbook(ua, ub);
    Columns(Low(ua) * Low(ub), Low(ua) * High(ub), High(ua) * Low(ub), High(ua) * High(ub));
    p0 := UInt32x32To64(Low(ua), Low(ub));
    var x := ToU64(UInt32x32To64(Low(ua), High(ub)) + UInt32x32To64(High(ua), Low(ub)) + High(p0));
    p0 := Quad(Low(x), Low(p0));
    p1 := ToU64(UInt32x32To64(High(ua), High(ub)) + High(x));
  }

  function UInt32x32To64(x: U32, y: U32): U64 { ToU64(x * y) }

  /** Adding up the four partial products loses nothing. */
  lemma Columns(ll: int, lh: int, hl: int, hh: int)
    requires 0 <= ll <= 0xFFFF_FFFF * 0xFFFF_FFFF && 0 <= hh <= 0x8000_0000 * 0x8000_0000
    requires 0 <= lh <= 0xFFFF_FFFF * 0x8000_0000 && 0 <= hl <= 0x8000_0000 * 0xFFFF_FFFF
    ensures ToU64(ll) == ll && ToU64(lh) == lh && ToU64(hl) == hl && ToU64(hh) == hh
    ensures var x := ToU64(lh + hl + High(ll));
            && x == lh + hl + High(ll)
            && ToU64(hh + High(x)) * 0x1_0000_0000_0000_0000 + Quad(Low(x), Low(ll))
               == hh * 0x1_0000_0000_0000_0000 + (lh + hl) * 0x1_0000_0000 + ll
  {
  }

  lemma Schoolbook(ua: U64, ub: U64)
    requires ua <= 0x8000_0000_0000_0000 && ub <= 0x8000_0000_0000_0000
    ensures var ll, lh, hl, hh := Low(ua) * Low(ub), Low(ua) * High(ub), High(ua) * Low(ub), High(ua) * High(ub);
            && ua * ub == hh * 0x1_0000_0000_0000_0000 + (lh + hl) * 0x1_0000_0000 + ll
            && 0 <= ll <= (0x1_0000_0000 - 1) * (0x1_0000_0000 - 1) && 0 <= hh <= 0x8000_0000 * 0x8000_0000
            && 0 <= lh <= (0x1_0000_0000 - 1) * 0x8000_0000 && 0 <= hl <= 0x8000_0000 * (0x1_0000_0000 - 1)
  {
    var al: int, ah: int, bl: int, bh: int := Low(ua), High(ua), Low(ub), High(ub);
    assert ua == ah * 0x1_0000_0000 + al && ub == bh * 0x1_0000_0000 + bl;
    Distribute(al, ah, bl, bh);
    ProductBound(al, 0x1_0000_0000 - 1, bl, 0x1_0000_0000 - 1);
    ProductBound(al, 0x1_0000_0000 - 1, bh, 0x8000_0000);
    ProductBound(ah, 0x8000_0000, bl, 0x1_0000_0000 - 1);
    ProductBound(ah, 0x8000_0000, bh, 0x8000_0000);
  }

  lemma Distribute(al: int, ah: int, bl: int, bh: int)
    ensures (ah * 0x1_0000_0000 + al) * (bh * 0x1_0000_0000 + bl) ==
            ah * bh * 0x1_0000_0000_0000_0000 + (al * bh + ah * bl) * 0x1_0000_0000 + al * bl
  {
  }

  lemma ProductBound(x: nat, mx: nat, y: nat, my: nat)
    requires x <= mx && y <= my
    ensures 0 <= x * y <= mx * my
  {
    MulMonotone(x, mx, y);
    MulMonotone(y, my, mx);
  }

  /** The number that a sign flag and a 128-bit magnitude stand for. */
  function Signed(negative: bool, p0: int, p1: int): int {
    var m := p1 * 0x1_0000_0000_0000_0000 + p0;
    if negative then -m else m
  }

  /** Add two quadwords by their words, propagating the carry. */
  method AddWithCarry(x: U64, y: U64) returns (sum: U64, carry: U64)
    ensures sum + carry * 0x1_0000_0000_0000_0000 == x + y
    ensures carry <= 1
  {
    // lowest words
    var t1: U64 := Low(y) + Low(x);
    // second words, with the carry
    var t2: U64 := High(t1) + High(y) + High(x);
    sum := Quad(Low(t2), Low(t1));
    // the carry into the upper half
    carry := High(t2);
    Recombine(x);
    Recombine(y);
    Recombine(t1);
    Recombine(t2);
  }

  lemma Recombine(x: U64)
    ensures Quad(High(x), Low(x)) == x
  {
  }

  /** Two's-complement negation of a 128-bit value. */
  method Negate(p0: U64, p1: U64) returns (q0: U64, q1: U64)
    requires p0 != 0 || p1 != 0
    ensures q1 * 0x1_0000_0000_0000_0000 + q0 ==
            0x1_0000_0000_0000_0000_0000_0000_0000_0000 - (p1 * 0x1_0000_0000_0000_0000 + p0)
  {
    q0 := 0xFFFF_FFFF_FFFF_FFFF - p0;
    q1 := 0xFFFF_FFFF_FFFF_FFFF - p1;
    q0 := ToU64(q0 + 1);
    q1 := ToU64(q1 + if q0 == 0 then 1 else 0);
  }

  /** 128-bit two's-complement addition of d, or of -d when the product is negative,
      followed by a negation when the sum came out negative. */
  method ExtendedAdd(p0: U64, p1: U64, bSign: bool, d: I64) returns (q0: U64, q1: U64, sign: bool)
    requires p1 <= 0x4000_0000_0000_0000 && d != 0
    ensures Signed(sign, q0, q1) == Signed(bSign, p0, p1) + d
    ensures q1 <= 0x4000_0000_0000_0001
    ensures q0 == 0 == q1 ==> sign == bSign
  {
    sign := bSign;
    var ud0, ud1: U64;
    if bSign {
      ud0 := ToU64(0 - d);
      ud1 := if d > 0 then ToU64(-1) else 0;
    } else {
      ud0 := ToU64(d);
      ud1 := if d < 0 then ToU64(-1) else 0;
    }
    var carry;
    q0, carry := AddWithCarry(p0, ud0);
    // upper halves; a carry out is dropped
    q1 := ToU64(p1 + ToU64(ud1 + carry));
    SignOfSum(p0, p1, if bSign then 0 - d else d, q0, carry);
    // the sum may have changed sign
    if ToI32(High(q1)) < 0 {
      sign := !sign;
      q0, q1 := Negate(q0, q1);
    }
  }

  lemma SignOfSum(p0: U64, p1: U64, e: int, q0: U64, carry: U64)
    requires p1 <= 0x4000_0000_0000_0000 && -0x8000_0000_0000_0000 <= e <= 0x8000_0000_0000_0000
    requires q0 + carry * 0x1_0000_0000_0000_0000 == p0 + ToU64(e)
    ensures var q1 := ToU64(p1 + ToU64((if e < 0 then ToU64(-1) else 0) + carry));
            var total := p1 * 0x1_0000_0000_0000_0000 + p0 + e;
            && (total < 0 <==> ToI32(High(q1)) < 0)
            && q1 * 0x1_0000_0000_0000_0000 + q0 ==
               (if total < 0 then total + 0x1_0000_0000_0000_0000_0000_0000_0000_0000 else total)
  {
    assert ToU64(e) == if e < 0 then e + 0x1_0000_0000_0000_0000 else e;
    var hi := p1 + carry - (if e < 0 then 1 else 0);
    var q1 := ToU64(p1 + ToU64((if e < 0 then ToU64(-1) else 0) + carry));
    assert q1 == if hi < 0 then hi + 0x1_0000_0000_0000_0000 else hi;
  }

  /** The compiler's unsigned division. */
  method DivMod(n: U64, d: U64) returns (q: U64, m: U64)
    requires d > 0
    ensures n == q * d + m && m < d
    ensures q <= n
  {
    q, m := n / d, n % d;
    assert q * d >= q by { MulMonotone(1, d, q); }
  }

  /** For a 32-bit divisor: two divisions of a quadword, the remainder of the first carried into the second. */
  method DivideByDword(p0: U64, p1: U64, uc: U32) returns (result: U64)
    requires p1 < uc
    ensures result * uc <= p1 * 0x1_0000_0000_0000_0000 + p0 < result * uc + uc
  {
    var uliDividend: U64 := Quad(p1, High(p0));
    var high, m := DivMod(uliDividend, uc);
    SmallQuotient(p1, High(p0), uc, high, m);
    var low, r := DivMod(Quad(m, Low(p0)), uc);
    SmallQuotient(m, Low(p0), uc, low, r);
    result := Quad(high, low);
    TwoDigits(p0, p1, uc, high, m, low, r);
  }

  lemma SmallQuotient(high: U32, low: U32, uc: U32, q: U64, m: U64)
    requires high < uc && Quad(high, low) == q * uc + m
    ensures q < 0x1_0000_0000
  {
    if q >= 0x1_0000_0000 {
      MulMonotone(0x1_0000_0000, q, uc);
    }
  }

  lemma TwoDigits(p0: U64, p1: U32, d: int, h: int, m: U32, l: int, r: int)
    requires Quad(p1, High(p0)) == h * d + m && Quad(m, Low(p0)) == l * d + r
    ensures p1 * 0x1_0000_0000_0000_0000 + p0 == (h * 0x1_0000_0000 + l) * d + r
  {
    Recombine(p0);
    Factor(h, l, d);
  }

  lemma Factor(h: int, l: int, d: int)
    ensures (h * 0x1_0000_0000 + l) * d == (h * d) * 0x1_0000_0000 + l * d
  {
  }

  /** 64 steps of shift, compare and subtract. */
  method LongDivision(d0: U64, d1: U64, uc: U64) returns (result: U64)
    requires d1 < uc <= 0x8000_0000_0000_0000
    ensures result * uc <= d1 * 0x1_0000_0000_0000_0000 + d0 < result * uc + uc
  {
    var p0: U64, p1: U64 := d0, d1;
    result := 0;
    ghost var n := d1 * 0x1_0000_0000_0000_0000 + d0;
    ghost var rest: nat := d0;
    Pow2Values();
    for i := 0 to 64
      invariant Dividing(n, uc, i, result, p0, p1, rest)
    {
      ghost var bit, rest' := DivisionStep(n, uc, i, result, p0, p1, rest);
      ShiftWords(result, p1);
      result := ToU64(result * 2);
      // p, as one number of 128 bits, is doubled
      p1 := ToU64(p1 * 2);
      if High(p0) >= 0x8000_0000 {
        p1 := Quad(High(p1), ToU32(Low(p1) + 1));
      }
      p0 := ToU64(p0 * 2);
      // does the divisor go once more?
      if uc <= p1 {
        p1 := p1 - uc;
        result := result + 1;
      }
      rest := rest';
    }
    assert Pow2(64 - 64) == 1;
  }

  /** After i steps: the quotient so far, the partial remainder, and the `rest` of the dividend still in p0. */
  ghost predicate Dividing(n: nat, uc: nat, i: nat, result: nat, p0: int, p1: nat, rest: nat) {
    && i <= 64
    && rest < Pow2(64 - i)
    && p0 == rest * Pow2(i)
    && n == (result * uc + p1) * Pow2(64 - i) + rest
    && p1 < uc
    && result < Pow2(i)
  }

  lemma DivisionStep(n: nat, uc: nat, i: nat, result: nat, p0: U64, p1: nat, rest: nat) returns (bit: nat, rest': nat)
    requires Dividing(n, uc, i, result, p0, p1, rest) && i < 64 && uc <= 0x8000_0000_0000_0000
    ensures bit <= 1 && (bit == 1 <==> High(p0) >= 0x8000_0000)
    ensures 2 * result < 0xFFFF_FFFF_FFFF_FFFF && 2 * p1 + bit < 0x1_0000_0000_0000_0000
    ensures Dividing(n, uc, i + 1, 2 * result + (if uc <= 2 * p1 + bit then 1 else 0), ToU64(p0 * 2),
                     2 * p1 + bit - (if uc <= 2 * p1 + bit then uc else 0), rest')
  {
    var half := Pow2(63 - i);
    bit, rest' := TopBit(rest, half, i, p0);
    Pow2Values();
    Pow2Monotone(i + 1, 64);
    ShiftIn(result, uc, p1, half, bit);
  }

  /** The next bit to be shifted out of the low quadword. */
  lemma TopBit(rest: nat, half: nat, i: nat, p0: U64) returns (bit: nat, rest': nat)
    requires i < 64 && half == Pow2(63 - i) && rest < 2 * half && p0 == rest * Pow2(i)
    ensures bit <= 1 && rest == bit * half + rest' && rest' < half
    ensures bit == 1 <==> High(p0) >= 0x8000_0000
    ensures ToU64(p0 * 2) == rest' * Pow2(i + 1)
  {
    bit := if rest < half then 0 else 1;
    rest' := if rest < half then rest else rest - half;
    Pow2Sum(63 - i, i);
    Pow2Values();
    Split(rest', half, Pow2(i));
    HighBit(p0, bit, rest' * Pow2(i));
  }

  lemma Split(rest: nat, half: nat, p: nat)
    requires rest < half
    ensures (rest + half) * p == rest * p + half * p
    ensures 0 <= rest * p <= half * p - p
    ensures rest * (2 * p) == 2 * (rest * p)
  {
    MulMonotone(rest + 1, half, p);
    assert (rest + 1) * p == rest * p + p;
  }

  lemma HighBit(p0: U64, bit: int, low: nat)
    requires 0 <= bit <= 1 && p0 == bit * 0x8000_0000_0000_0000 + low && low < 0x8000_0000_0000_0000
    ensures bit == 1 <==> High(p0) >= 0x8000_0000
    ensures ToU64(p0 * 2) == low * 2
  {
  }

  /** Shifting left by one: the low word of an even quadword is then incremented without a carry. */
  lemma ShiftWords(result: nat, p1: nat)
    requires 2 * result < 0xFFFF_FFFF_FFFF_FFFF && 2 * p1 < 0x1_0000_0000_0000_0000
    ensures ToU64(result * 2) == 2 * result && ToU64(p1 * 2) == 2 * p1
    ensures Quad(High(ToU64(p1 * 2)), ToU32(Low(ToU64(p1 * 2)) + 1)) == 2 * p1 + 1
  {
  }

  lemma ShiftIn(r: int, uc: int, p: int, half: int, bit: int)
    ensures (r * uc + p) * (2 * half) + bit * half == (2 * (r * uc) + 2 * p + bit) * half
    ensures (2 * r) * uc == 2 * (r * uc) && (2 * r + 1) * uc == 2 * (r * uc) + uc
  {
  }

  /** llMulDiv computes MulDiv for every argument. */
  method LlMulDiv(a: I64, b: I64, c: I64, d: I64) returns (r: I64)
    ensures r == MulDiv(a, b, c, d)
  {
    var uc := Magnitude(c);
    hide Quotient, Saturated, Signed;
    var p0, p1, bSign := MultiplyAdd(a, b, d);
    ghost var nSign := bSign;
    if c < 0 {
      bSign := !bSign;
    }
    // also the case of a zero divisor
    if uc <= p1 {
      SaturatedCase(a * b + d, c, (a < 0) != (b < 0), nSign, p0, p1);
      return Saturated(bSign);
    }
    var ullResult: U64;
    if p1 == 0 {
      // the dividend fits in 64 bits
      var rest;
      ullResult, rest := DivMod(p0, uc);
    } else if High(uc) == 0 {
      ullResult := DivideByDword(p0, p1, Low(uc));
    } else {
      ullResult := LongDivision(p0, p1, uc);
    }
    QuotientCase(a * b + d, c, (a < 0) != (b < 0), nSign, p0, p1, ullResult);
    r := if bSign then ToI64(0 - ToI64(ullResult)) else ToI64(ullResult);
  }

  /** a * b + d as a sign and a 128-bit magnitude. */
  method MultiplyAdd(a: I64, b: I64, d: I64) returns (p0: U64, p1: U64, bSign: bool)
    ensures Signed(bSign, p0, p1) == a * b + d
    ensures p0 == 0 == p1 ==> bSign == ((a < 0) != (b < 0))
  {
    // work on magnitudes
    var ua := Magnitude(a);
    var ub := Magnitude(b);
    bSign := (a < 0) != (b < 0);
    p0, p1 := LongMultiply(ua, ub);
    SignedProduct(a, b, p0, p1);
    if d != 0 {
      p0, p1, bSign := ExtendedAdd(p0, p1, bSign, d);
    }
  }

  function Magnitude(x: I64): (m: U64)
    ensures m == Abs(x) <= 0x8000_0000_0000_0000
  {
    ToU64(if x >= 0 then x else 0 - x)
  }

  lemma SignedProduct(a: I64, b: I64, p0: U64, p1: U64)
    requires p1 * 0x1_0000_0000_0000_0000 + p0 == Abs(a) * Abs(b)
    ensures Signed((a < 0) != (b < 0), p0, p1) == a * b
    ensures p1 <= 0x4000_0000_0000_0000
  {
    AbsProduct(a, b);
    ProductSign(a, b);
    ProductBound(Abs(a), 0x8000_0000_0000_0000, Abs(b), 0x8000_0000_0000_0000);
  }

  lemma SaturatedCase(n: int, c: I64, sign0: bool, nSign: bool, p0: U64, p1: U64)
    requires Abs(c) <= p1 && n == Signed(nSign, p0, p1)
    requires p0 == 0 == p1 ==> nSign == sign0
    ensures Quotient(n, c, sign0) == Saturated(nSign != (c < 0))
  {
    if c != 0 {
      BigQuotient(p1 * 0x1_0000_0000_0000_0000 + p0, p1, Abs(c));
    }
  }

  lemma BigQuotient(m: nat, p1: nat, uc: nat)
    requires m >= p1 * 0x1_0000_0000_0000_0000 && 0 < uc <= p1
    ensures m / uc >= 0x1_0000_0000_0000_0000
  {
    var q := m / uc;
    assert m < (q + 1) * uc by { assert (q + 1) * uc == q * uc + uc; }
    if q < 0x1_0000_0000_0000_0000 {
      MulMonotone(q + 1, 0x1_0000_0000_0000_0000, uc);
    }
  }

  lemma QuotientCase(n: int, c: I64, sign0: bool, nSign: bool, p0: U64, p1: U64, q: U64)
    requires n == Signed(nSign, p0, p1)
    requires q * Abs(c) <= p1 * 0x1_0000_0000_0000_0000 + p0 < q * Abs(c) + Abs(c)
    ensures Quotient(n, c, sign0) == if nSign != (c < 0) then ToI64(0 - ToI64(q)) else ToI64(q)
  {
    var m := p1 * 0x1_0000_0000_0000_0000 + p0;
    DivUnique(m, Abs(c), q, m - q * Abs(c));
    if m == 0 {
      DivUnique(0, Abs(c), 0, 0);
    }
    assert TruncDiv(n, c) == if nSign != (c < 0) then 0 - q else q;
    NegateTwice(q);
  }

  lemma NegateTwice(q: U64)
    ensures ToI64(0 - ToI64(q)) == ToI64(0 - q)
  {
  }

  // ---------- Int64x32Div32 ----------

  /** Int64x32Div32 is llMulDiv with 32-bit b, c and d: the same function, by shorter steps. */
  method Int64x32Div32(a: I64, b: I32, c: I32, d: I32) returns (r: I64)
    ensures r == MulDiv(a, b, c, d)
  {
    var uc: U32 := ToU32(if c >= 0 then c else 0 - c);
    hide Quotient, Saturated, Signed;
    var p0, p1, bSign := MultiplyAdd96(a, b, d);
    ghost var nSign := bSign;
    if c < 0 {
      bSign := !bSign;
    }
    // also the case of a zero divisor
    if uc <= p1 {
      SaturatedCase(a * b + d, c, (a < 0) != (b < 0), nSign, p0, p1);
      return Saturated(bSign);
    }
    var uliResult := Divide96(p0, p1, uc);
    QuotientCase(a * b + d, c, (a < 0) != (b < 0), nSign, p0, p1, uliResult);
    r := if bSign then ToI64(0 - ToI64(uliResult)) else ToI64(uliResult);
  }

  /** 64-bit by 32-bit unsigned division to a 32-bit quotient and remainder. */
  method EnlargedUnsignedDivide(high: U32, low: U32, divisor: U32) returns (q: U32, m: U32)
    requires high < divisor
    ensures Quad(high, low) == q * divisor + m && m < divisor
  {
    var quotient;
    quotient, m := DivMod(Quad(high, low), divisor);
    SmallQuotient(high, low, divisor, quotient, m);
    q := ToU32(quotient);
  }

  lemma SmallQuad(high: U32, low: U32)
    ensures Quad(high, low) == high * 0x1_0000_0000 + low
    ensures Quad(high, low) < 0x1_0000_0000 ==> Quad(high, low) == low
  {
  }

  method Divide96(p0: U64, p1: U32, uc: U32) returns (uliResult: U64)
    requires p1 < uc
    ensures uliResult * uc <= p1 * 0x1_0000_0000_0000_0000 + p0 < uliResult * uc + uc
  {
    hide Quad, High, Low;
    var high: U32, m: U32 := 0, High(p0);
    SmallQuad(p1, High(p0));
    if Quad(p1, High(p0)) >= uc {
      high, m := EnlargedUnsignedDivide(p1, High(p0), uc);
    }
    assert Quad(p1, High(p0)) == high * uc + m && m < uc;
    var low, r := EnlargedUnsignedDivide(m, Low(p0), uc);
    SmallQuad(high, low);
    uliResult := Quad(high, low);
    TwoDigits(p0, p1, uc, high, m, low, r);
  }

  /** a * b + d as a sign and a 96-bit magnitude. */
  method MultiplyAdd96(a: I64, b: I32, d: I32) returns (p0: U64, p1: U32, bSign: bool)
    ensures Signed(bSign, p0, p1) == a * b + d
    ensures p0 == 0 == p1 ==> bSign == ((a < 0) != (b < 0))
  {
    var ua := Magnitude(a);
    var ub: U32 := ToU32(if b >= 0 then b else 0 - b);
    bSign := (a < 0) != (b < 0);
    p0, p1 := LongMultiply96(ua, ub);
    SignedProduct(a, b, p0, p1);
    if d != 0 {
      p0, p1, bSign := ExtendedAdd96(p0, p1, bSign, d);
    }
  }

  method LongMultiply96(ua: U64, ub: U32) returns (p0: U64, p1: U32)
    requires ua <= 0x8000_0000_0000_0000 && ub <= 0x8000_0000
    ensures p1 * 0x1_0000_0000_0000_0000 + p0 == ua * ub
    ensures p1 <= 0x4000_0000
  {
    p0 := UInt32x32To64(Low(ua), ub);
    p1 := 0;
    Schoolbook96(ua, ub);
    Columns96(Low(ua) * ub, High(ua) * ub);
    if High(ua) != 0 {
      var x := ToU64(UInt32x32To64(High(ua), ub) + High(p0));
      p0 := Quad(Low(x), Low(p0));
      p1 := High(x);
    }
  }

  lemma Schoolbook96(ua: U64, ub: U32)
    requires ua <= 0x8000_0000_0000_0000 && ub <= 0x8000_0000
    ensures ua * ub == High(ua) * ub * 0x1_0000_0000 + Low(ua) * ub
    ensures 0 <= Low(ua) * ub <= 0xFFFF_FFFF * 0x8000_0000 && 0 <= High(ua) * ub <= 0x8000_0000 * 0x8000_0000
    ensures High(ua) == 0 ==> High(ua) * ub == 0
  {
    assert High(ub) == 0 && Low(ub) == ub;
    Schoolbook(ua, ub);
    ProductBound(Low(ua), 0xFFFF_FFFF, ub, 0x8000_0000);
    ProductBound(High(ua), 0x8000_0000, ub, 0x8000_0000);
  }

  lemma Columns96(ll: int, hl: int)
    requires 0 <= ll <= 0xFFFF_FFFF * 0x8000_0000 && 0 <= hl <= 0x8000_0000 * 0x8000_0000
    ensures ToU64(ll) == ll && ToU64(hl) == hl
    ensures var x := ToU64(hl + High(ll));
            && High(x) <= 0x4000_0000
            && High(x) * 0x1_0000_0000_0000_0000 + Quad(Low(x), Low(ll)) == hl * 0x1_0000_0000 + ll
  {
  }

  method ExtendedAdd96(p0: U64, p1: U32, bSign: bool, d: I32) returns (q0: U64, q1: U32, sign: bool)
    requires p1 <= 0x4000_0000 && d != 0
    ensures Signed(sign, q0, q1) == Signed(bSign, p0, p1) + d
    ensures q0 == 0 == q1 ==> sign == bSign
  {
    sign := bSign;
    // widened before its magnitude is taken
    var e := if bSign then 0 - d else d;
    var ud0: U64 := ToU64(e);
    var ud1: U32 := if e < 0 then ToU32(-1) else 0;
    var carry;
    q0, carry := AddWithCarry(p0, ud0);
    // upper words; a carry out is dropped
    q1 := ToU32(p1 + ToU32(ud1 + carry));
    SignOfSum96(p0, p1, e, q0, carry);
    // the sum may have changed sign
    if ToI32(q1) < 0 {
      sign := !sign;
      q0, q1 := Negate96(q0, q1);
    }
  }

  method Negate96(p0: U64, p1: U32) returns (q0: U64, q1: U32)
    requires p0 != 0 || p1 != 0
    ensures q1 * 0x1_0000_0000_0000_0000 + q0 ==
            0x1_0000_0000_0000_0000_0000_0000 - (p1 * 0x1_0000_0000_0000_0000 + p0)
  {
    q0 := 0xFFFF_FFFF_FFFF_FFFF - p0;
    q1 := 0xFFFF_FFFF - p1;
    q0 := ToU64(q0 + 1);
    q1 := ToU32(q1 + if q0 == 0 then 1 else 0);
  }

  lemma SignOfSum96(p0: U64, p1: U32, e: int, q0: U64, carry: U64)
    requires p1 <= 0x4000_0000 && -TWO31 <= e <= TWO31 && carry <= 1
    requires q0 + carry * 0x1_0000_0000_0000_0000 == p0 + ToU64(e)
    ensures var q1 := ToU32(p1 + ToU32((if e < 0 then ToU32(-1) else 0) + carry));
            var total := p1 * 0x1_0000_0000_0000_0000 + p0 + e;
            && (total < 0 <==> ToI32(q1) < 0)
            && q1 * 0x1_0000_0000_0000_0000 + q0 ==
               (if total < 0 then total + 0x1_0000_0000_0000_0000_0000_0000 else total)
  {
    assert ToU64(e) == if e < 0 then e + 0x1_0000_0000_0000_0000 else e;
    var hi := p1 + carry - (if e < 0 then 1 else 0);
    var q1 := ToU32(p1 + ToU32((if e < 0 then ToU32(-1) else 0) + carry));
    assert q1 == if hi < 0 then hi + 0x1_0000_0000 else hi;
  }
}
