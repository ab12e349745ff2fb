/** Powers of two, and the bitwise AND of C++ on non-negative integers. */
module BitMath {
  import opened Words

  function Pow2(n: nat): (p: nat)
    ensures p > 0
  {
    if n == 0 then 1 else 2 * Pow2(n - 1)
  }

  lemma Pow2Values()
    ensures Pow2(32) == 0x1_0000_0000
    ensures Pow2(63) == 0x8000_0000_0000_0000 && Pow2(64) == 0x1_0000_0000_0000_0000
  {
    Square(2, 4);
    Square(4, 16);
    Square(8, 256);
    Square(16, 65536);
    Square(32, 0x1_0000_0000);
    assert Pow2(64) == 2 * Pow2(63);
  }

  lemma Square(n: nat, p: nat)
    requires Pow2(n) == p
    ensures Pow2(2 * n) == p * p
  {
    Pow2Sum(n, n);
  }

  lemma {:induction false} Pow2Sum(m: nat, n: nat)
    ensures Pow2(m) * Pow2(n) == Pow2(m + n)
  {
    if m > 0 {
      Pow2Sum(m - 1, n);
      DoubleLeft(Pow2(m - 1), Pow2(n));
    }
  }

  lemma DoubleLeft(p: int, q: int)
    ensures 2 * p * q == 2 * (p * q)
  {
  }

  lemma {:induction false} Pow2Monotone(m: nat, n: nat)
    requires m <= n
    ensures Pow2(m) <= Pow2(n)
  {
    if m < n {
      Pow2Monotone(m, n - 1);
    }
  }

  /** x & y, bit by bit. */
  function And(x: nat, y: nat): (z: nat)
    ensures z <= x && z <= y
  {
    if x == 0 || y == 0 then 0
    else 2 * And(x / 2, y / 2) + (if x % 2 == 1 && y % 2 == 1 then 1 else 0)
  }

  lemma AndStep(x: nat, y: nat)
    ensures And(x, y) == 2 * And(x / 2, y / 2) + (if x % 2 == 1 && y % 2 == 1 then 1 else 0)
  {
  }

  lemma AndEven(x: nat, y: nat)
    ensures And(x, 2 * y) == 2 * And(x / 2, y)
  {
    AndStep(x, 2 * y);
    assert 2 * y / 2 == y && 2 * y % 2 == 0;
  }

  lemma AndOdd(x: nat, p: nat)
    requires p > 0
    ensures And(x, 2 * p - 1) == 2 * And(x / 2, p - 1) + x % 2
  {
    AndStep(x, 2 * p - 1);
    assert (2 * p - 1) / 2 == p - 1 && (2 * p - 1) % 2 == 1;
  }

  /** A mask of k ones keeps the remainder. */
  lemma AndLowMask(x: nat, k: nat)
    ensures And(x, Pow2(k) - 1) == x % Pow2(k)
  {
    var q := LowBits(x, k);
    DivUnique(x, Pow2(k), q, And(x, Pow2(k) - 1));
  }

  lemma {:induction false} LowBits(x: nat, k: nat) returns (q: nat)
    ensures x == q * Pow2(k) + And(x, Pow2(k) - 1) && And(x, Pow2(k) - 1) < Pow2(k)
  {
    if k == 0 {
      q := x;
    } else {
      q := LowBits(x / 2, k - 1);
      LowStep(x, q, Pow2(k - 1));
    }
  }

  lemma LowStep(x: nat, q: nat, p: nat)
    requires p > 0 && x / 2 == q * p + And(x / 2, p - 1) && And(x / 2, p - 1) < p
    ensures x == q * (2 * p) + And(x, 2 * p - 1) && And(x, 2 * p - 1) < 2 * p
  {
    AndOdd(x, p);
    DoubleRight(q, p);
  }

  lemma DoubleRight(q: int, p: int)
    ensures q * (2 * p) == 2 * (q * p)
  {
  }

  /** A mask of n bits with k zeroes below clears the remainder. */
  lemma AndHighMask(x: nat, n: nat, k: nat)
    requires x < Pow2(n) && k <= n
    ensures Pow2(k) <= Pow2(n) && And(x, Pow2(n) - Pow2(k)) == x - x % Pow2(k)
  {
    Pow2Monotone(k, n);
    HighBits(x, n, k, Pow2(n) - Pow2(k));
    AndLowMask(x, k);
  }

  lemma {:induction false} HighBits(x: nat, n: nat, k: nat, mask: nat)
    requires x < Pow2(n) && k <= n && mask == Pow2(n) - Pow2(k)
    ensures And(x, mask) == x - And(x, Pow2(k) - 1)
  {
    if k == 0 {
      var q := LowBits(x, n);
      if q > 0 {
        MulMonotone(1, q, Pow2(n));
      }
    } else {
      Pow2Monotone(k - 1, n - 1);
      var half := Pow2(n - 1) - Pow2(k - 1);
      HighBits(x / 2, n - 1, k - 1, half);
      AndOdd(x, Pow2(k - 1));
      AndEven(x, half);
      assert mask == 2 * half;
    }
  }

  /** The bit of weight 2^k is not set in m. */
  lemma {:induction false} OneBitClear(k: nat, m: nat, q: nat, r: nat)
    requires m == q * (2 * Pow2(k)) + r && r < Pow2(k)
    ensures And(Pow2(k), m) == 0
  {
    if k == 0 {
      AndEven(1, q);
    } else {
      DoubleRight(q, Pow2(k));
      DoubleRight(q, 2 * Pow2(k - 1));
      AndStep(Pow2(k), m);
      OneBitClear(k - 1, m / 2, q, r / 2);
    }
  }

  /** The bit of weight 2^k is set in m. */
  lemma {:induction false} OneBitSet(k: nat, m: nat, q: nat, r: nat)
    requires m == q * (2 * Pow2(k)) + Pow2(k) + r && r < Pow2(k)
    ensures And(Pow2(k), m) == Pow2(k)
  {
    if k == 0 {
      AndStep(1, m);
    } else {
      DoubleRight(q, Pow2(k));
      DoubleRight(q, 2 * Pow2(k - 1));
      AndStep(Pow2(k), m);
      OneBitSet(k - 1, m / 2, q, r / 2);
    }
  }

  predicate IsPow2(a: int) {
    a >= 1 && (a == 1 || (a % 2 == 0 && IsPow2(a / 2)))
  }

  lemma {:induction false} Pow2Is(k: nat)
    ensures IsPow2(Pow2(k))
  {
    if k > 0 {
      Pow2Is(k - 1);
    }
  }

  /** The exponent of a power of two. */
  function Log2(a: int): (k: nat)
    requires IsPow2(a)
    ensures Pow2(k) == a
  {
    if a == 1 then 0 else 1 + Log2(a / 2)
  }

  /** The low bits of g below a are zero exactly when a divides g, for a power of two a. */
  lemma MaskTest(g: nat, a: int)
    requires IsPow2(a)
    ensures And(g, a - 1) == 0 <==> g % a == 0
  {
    AndLowMask(g, Log2(a));
  }

  /** Only powers of two divide a power of two. */
  lemma DivisorOfPow2(g: int, a: int)
    requires IsPow2(g) && a > 0 && g % a == 0
    ensures IsPow2(a)
  {
    hide IsPow2;
    var q := g / a;
    assert g == q * a;
    FactorOfPow2(g, a, q);
  }

  lemma {:induction false} FactorOfPow2(g: int, a: nat, q: int)
    requires IsPow2(g) && a > 0 && g == q * a
    ensures IsPow2(a)
    decreases g
  {
    FactorPositive(g, a, q);
    if g == 1 {
      ProductOne(a, q);
    } else if a % 2 == 0 {
      HalfOther(q, a);
      FactorOfPow2(g / 2, a / 2, q);
    } else if q % 2 == 0 {
      HalfProduct(q, a);
      FactorOfPow2(g / 2, a, q / 2);
    } else {
      OddProduct(q, a);
      assert false;
    }
  }

  lemma FactorPositive(g: int, a: nat, q: int)
    requires g >= 1 && g == q * a
    ensures q >= 1
  {
    if q < 1 {
      MulMonotone(q, 0, a);
    }
  }

  lemma ProductOne(a: nat, q: nat)
    requires q * a == 1
    ensures a == 1
  {
    if a > 1 {
      MulMonotone(1, q, a);
    }
  }

  lemma HalfOther(q: nat, a: nat)
    requires a % 2 == 0
    ensures q * a / 2 == q * (a / 2)
  {
    assert q * a == 2 * (q * (a / 2));
  }

  lemma HalfProduct(q: nat, a: nat)
    requires q % 2 == 0
    ensures q * a / 2 == q / 2 * a
  {
    assert q * a == 2 * (q / 2 * a);
  }

  lemma OddProduct(q: nat, a: nat)
    requires q % 2 == 1 && a % 2 == 1
    ensures q * a % 2 == 1
  {
    assert q * a == 2 * (q / 2 * a + a / 2) + 1;
  }
}
