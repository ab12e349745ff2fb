/**
 The video renderer's running statistics (renbase.cpp): sums kept per frame,
 the variance computed from them through llMulDiv, and the integer square root.
 */
module RenderStats {
  import opened Words
  import opened ArithUtil

  /** The five counters, as one value. */
  datatype Stats = Stats(cFramesDrawn: nat, iTotAcc: int, iSumSqAcc: int, iSumFrameTime: int, iSumSqFrameTime: int)

  /** The lateness of one frame and the time since the previous one, in 100ns units. */
  datatype Frame = Frame(trLate: I32, trFrame: I32)

  const NO_STATS := Stats(0, 0, 0, 0, 0)

  /** Lateness in ms, as it is added to the sums when `drawn` frames came before. */
  function LateMs(trLate: I32, drawn: nat): int {
    var tLate := TruncDiv(trLate, 10000);
    if tLate > 1000 || tLate < -1000 then
      if drawn <= 1 then 0 else if tLate > 0 then 1000 else -1000
    else tLate
  }

  function FrameMs(trFrame: I32): int {
    var tFrame := TruncDiv(trFrame, 10000);
    if tFrame > 1000 || tFrame < 0 then 1000 else tFrame
  }

  /** x is a time in 100ns units as whole ms, towards zero. */
  predicate WholeMs(x: int, tr: int) {
    && 10_000 * Abs(x) <= Abs(tr) < 10_000 * (Abs(x) + 1)
    && (x > 0 ==> tr > 0) && (x < 0 ==> tr < 0)
  }

  /** x is this lateness in whole ms; more than 1000 of them, either way, count as 1000. */
  predicate IsLateness(x: int, trLate: int) {
    if -10_010_000 < trLate < 10_010_000 then WholeMs(x, trLate) else x == if trLate > 0 then 1000 else -1000
  }

  /** x is this inter-frame time in whole ms; less than 0, or more than 1000 of them, count as 1000. */
  predicate IsFrameTime(x: int, trFrame: int) {
    if -10_000 < trFrame < 10_010_000 then WholeMs(x, trFrame) else x == 1000
  }

  lemma TruncMs(tr: I32)
    ensures WholeMs(TruncDiv(tr, 10000), tr)
  {
    var q, r := Abs(tr) / 10000, Abs(tr) % 10000;
    assert Abs(tr) == 10000 * q + r;
  }

  lemma MsAreMeasured(trLate: I32, trFrame: I32, drawn: nat)
    ensures drawn > 1 ==> IsLateness(LateMs(trLate, drawn), trLate)
    ensures IsFrameTime(FrameMs(trFrame), trFrame)
  {
    TruncMs(trLate);
    TruncMs(trFrame);
    hide TruncDiv;
  }

  function Record(s: Stats, f: Frame): Stats {
    var tLate, tFrame := LateMs(f.trLate, s.cFramesDrawn), FrameMs(f.trFrame);
    var s := if s.cFramesDrawn > 1
             then s.(iTotAcc := s.iTotAcc + tLate, iSumSqAcc := s.iSumSqAcc + tLate * tLate) else s;
    var s := if s.cFramesDrawn > 2
             then s.(iSumSqFrameTime := s.iSumSqFrameTime + tFrame * tFrame, iSumFrameTime := s.iSumFrameTime + tFrame)
             else s;
    s.(cFramesDrawn := s.cFramesDrawn + 1)
  }

  /** The counters after a run of frames. */
  ghost function After(frames: seq<Frame>): Stats {
    if frames == [] then NO_STATS
    else Record(After(frames[..|frames| - 1]), frames[|frames| - 1])
  }

  /** What n observations of size at most 1000 can add up to. */
  ghost predicate Observed(n: nat, total: int, sumSq: int) {
    && total * total <= n * sumSq
    && 0 <= sumSq <= n * 1_000_000
    && -1000 * n <= total <= 1000 * n
  }

  /** Cauchy-Schwarz, one observation at a time. */
  lemma Observe(n: nat, total: int, sumSq: int, x: int)
    requires Observed(n, total, sumSq) && -1000 <= x <= 1000
    ensures Observed(n + 1, total + x, sumSq + x * x)
  {
    AbsProduct(x, x);
    ProductBound(Abs(x), 1000, Abs(x), 1000);
    Cross(n, total, sumSq, x);
    Expand(n, total, sumSq, x);
  }

  lemma Expand(n: int, total: int, sumSq: int, x: int)
    ensures (total + x) * (total + x) == total * total + 2 * (total * x) + x * x
    ensures (n + 1) * (sumSq + x * x) == n * sumSq + sumSq + n * (x * x) + x * x
  {
  }

  /** 2 T x <= S + n x^2, from (n x - T)^2 >= 0 and T^2 <= n S. */
  lemma Cross(n: nat, total: int, sumSq: int, x: int)
    requires total * total <= n * sumSq && -1000 * n <= total <= 1000 * n && sumSq >= 0
    ensures 2 * (total * x) <= sumSq + n * (x * x)
  {
    var y := n * x - total;
    ProductSign(y, y);
    CompleteSquare(n, total, x);
    if n > 0 {
      CancelLe(2 * (total * x), sumSq + n * (x * x), n);
    }
  }

  lemma CompleteSquare(n: int, total: int, x: int)
    ensures (n * x - total) * (n * x - total) == (n * (x * x)) * n - (2 * (total * x)) * n + total * total
  {
    var y := n * x;
    assert (y - total) * (y - total) == y * y - 2 * (y * total) + total * total;
    assert y * y == (n * (x * x)) * n;
    assert y * total == (total * x) * n;
  }

  lemma {:induction false} SumsObserved(frames: seq<Frame>)
    ensures var s := After(frames);
            && s.cFramesDrawn == |frames|
            && Observed(if |frames| < 2 then 0 else |frames| - 2, s.iTotAcc, s.iSumSqAcc)
            && Observed(if |frames| < 3 then 0 else |frames| - 3, s.iSumFrameTime, s.iSumSqFrameTime)
  {
    if frames != [] {
      var before, f := frames[..|frames| - 1], frames[|frames| - 1];
      SumsObserved(before);
      var s := After(before);
      Observe(if |before| < 2 then 0 else |before| - 2, s.iTotAcc, s.iSumSqAcc, LateMs(f.trLate, |before|));
      Observe(if |before| < 3 then 0 else |before| - 3, s.iSumFrameTime, s.iSumSqFrameTime, FrameMs(f.trFrame));
    }
  }

  /** The estimate whose square root is reported. */
  function Variance(nSamples: int, sumSq: int, total: int): int
    requires nSamples > 1
  {
    TruncDiv(sumSq - MulDiv(total, total, nSamples, 0), nSamples - 1)
  }

  /** The renderer divides by one more than the number of observations; the estimate still stays in range. */
  lemma VarianceRange(n: nat, total: int, sumSq: int)
    requires 1 <= n < 0x7FFF_FFFF && Observed(n, total, sumSq)
    ensures 0 <= Variance(n + 1, sumSq, total) <= 1_000_000
  {
    hide Variance;
    var q := EstimateIs(n, total, sumSq);
    DivBound(sumSq - q, n, 1_000_000);
  }

  /** So frames that are all late by the same c ms, where an estimate by the formula in the comment is 0, are reported
      as steady exactly when c is less than the root of their number. */
  lemma SteadyIff(n: nat, c: int)
    requires 1 <= n < 0x7FFF_FFFF && -1000 <= c <= 1000
    ensures Variance(n + 1, n * (c * c), n * c) == 0 <==> c * c < n
  {
    ProductSign(c, c);
    ProductBound(Abs(c), 1000, Abs(c), 1000);
    AbsProduct(c, c);
    SteadyBounds(n, c, c * c);
    hide *;
    var q := EstimateIs(n, n * c, n * (c * c));
    SquareOfTotal(n, c);
    Quotients(n, c * c, q);
  }

  lemma SquareOfTotal(n: int, c: int)
    ensures (n * c) * (n * c) == (n * (c * c)) * n
  {
  }

  lemma WholeQuotient(x: nat, n: nat)
    requires n > 0
    ensures TruncDiv(x, n) == x / n
  {
  }

  lemma QuotientInRange(q: nat, sumSq: int, n: nat)
    requires q <= sumSq <= n * 1_000_000 && n < 0x7FFF_FFFF
    ensures q <= MAX64
  {
  }

  lemma EstimateIs(n: nat, total: int, sumSq: int) returns (q: nat)
    requires 1 <= n < 0x7FFF_FFFF && Observed(n, total, sumSq)
    ensures q * (n + 1) <= total * total < (q + 1) * (n + 1) && q <= sumSq
    ensures Variance(n + 1, sumSq, total) == (sumSq - q) / n
  {
    hide MulDiv, TruncDiv;
    q := MeanSquare(n, total, sumSq);
    QuotientInRange(q, sumSq, n);
    MulDivExact(total, total, n + 1, 0);
    WholeQuotient(sumSq - q, n);
  }

  ghost predicate AllEqual(frames: seq<Frame>, f: Frame) {
    forall i :: 0 <= i < |frames| ==> frames[i] == f
  }

  /** What the counters hold after a run of equal frames, each c ms late and t ms after the one before. */
  lemma {:induction false} EqualFrames(frames: seq<Frame>, f: Frame)
    requires AllEqual(frames, f)
    ensures var s, c, t := After(frames), LateMs(f.trLate, 2), FrameMs(f.trFrame);
            var n, k := if |frames| < 2 then 0 else |frames| - 2, if |frames| < 3 then 0 else |frames| - 3;
            && s.cFramesDrawn == |frames|
            && s.iTotAcc == n * c && s.iSumSqAcc == n * (c * c)
            && s.iSumFrameTime == k * t && s.iSumSqFrameTime == k * (t * t)
  {
    if frames != [] {
      EqualFrames(frames[..|frames| - 1], f);
      var c, t := LateMs(f.trLate, 2), FrameMs(f.trFrame);
      MulStep(|frames| - 3, c);
      MulStep(|frames| - 3, c * c);
      MulStep(|frames| - 4, t);
      MulStep(|frames| - 4, t * t);
    }
  }

  /** So over all runs of equal frames: the sync offset is reported as steady exactly if the number of its observations
      exceeds the square of the lateness, and the inter-frame time if theirs exceeds the square of the time. */
  lemma SteadyRunIff(frames: seq<Frame>, f: Frame)
    requires AllEqual(frames, f) && |frames| < 0x7FFF_FFFF
    ensures var s, c := After(frames), LateMs(f.trLate, 2);
            |frames| > 2 ==> (Variance(|frames| - 1, s.iSumSqAcc, s.iTotAcc) == 0 <==> c * c < |frames| - 2)
    ensures var s, t := After(frames), FrameMs(f.trFrame);
            |frames| > 3 ==> (Variance(|frames| - 2, s.iSumSqFrameTime, s.iSumFrameTime) == 0 <==> t * t < |frames| - 3)
  {
    EqualFrames(frames, f);
    ClampedMs(f);
    hide After, Variance, LateMs, FrameMs;
    if |frames| > 2 {
      SteadyIff(|frames| - 2, LateMs(f.trLate, 2));
    }
    if |frames| > 3 {
      SteadyIff(|frames| - 3, FrameMs(f.trFrame));
    }
  }

  lemma ClampedMs(f: Frame)
    ensures -1000 <= LateMs(f.trLate, 2) <= 1000 && 0 <= FrameMs(f.trFrame) <= 1000
  {
  }

  lemma SteadyBounds(n: nat, c: int, k: nat)
    requires -1000 <= c <= 1000 && k == c * c <= 1_000_000
    ensures Observed(n, n * c, n * k)
  {
    MulMonotone(c, 1000, n);
    MulMonotone(-1000, c, n);
    MulMonotone(k, 1_000_000, n);
    MulMonotone(0, k, n);
    assert (n * c) * (n * c) == n * (n * (c * c));
  }

  lemma Quotients(n: nat, k: nat, q: nat)
    requires n >= 1 && q * (n + 1) <= (n * k) * n < (q + 1) * (n + 1) && q <= n * k
    ensures (n * k - q) / n == 0 <==> k < n
  {
    var x := n * k - q;
    assert (n * k) * (n + 1) == (n * k) * n + n * k && x * (n + 1) == (n * k) * (n + 1) - q * (n + 1);
    assert n * k <= x * (n + 1) < n * k + (n + 1);
    SmallQuotientIff(x, n);
    LessIff(n, k, x);
  }

  lemma SmallQuotientIff(x: nat, n: nat)
    requires n >= 1
    ensures x / n == 0 <==> x < n
  {
    if x < n {
      DivUnique(x, n, 0, x);
    } else {
      DivUnique(x - n, n, (x - n) / n, (x - n) % n);
      DivStep(x, n);
    }
  }

  lemma LessIff(n: nat, k: nat, x: nat)
    requires n >= 1 && n * k <= x * (n + 1) < n * k + (n + 1)
    ensures x < n <==> k < n
  {
    assert (n - 1) * (n + 1) == n * n - 1 && n * (n + 1) == n * n + n && (n - 1) * n == n * n - n;
    if k < n {
      MulMonotone(k, n - 1, n);
      if x >= n {
        MulMonotone(n, x, n + 1);
      }
    } else {
      MulMonotone(n, k, n);
      if x < n {
        MulMonotone(x, n - 1, n + 1);
      }
    }
  }

  lemma MeanSquare(n: nat, total: int, sumSq: int) returns (q: int)
    requires n >= 1 && Observed(n, total, sumSq)
    ensures q == TruncDiv(total * total, n + 1) && 0 <= q <= sumSq
    ensures q * (n + 1) <= total * total < (q + 1) * (n + 1)
  {
    ProductSign(total, total);
    var t := total * total;
    q := t / (n + 1);
    DivParts(t, n + 1);
    assert (sumSq + 1) * (n + 1) == n * sumSq + sumSq + (n + 1);
    if q > sumSq {
      MulMonotone(sumSq + 1, q, n + 1);
    }
  }

  lemma DivParts(t: nat, d: nat)
    requires d > 0
    ensures (t / d) * d <= t < (t / d + 1) * d
  {
    MulStep(t / d, d);
  }

  lemma DivBound(x: nat, n: nat, m: nat)
    requires n > 0 && x <= n * m
    ensures x / n <= m
  {
    if x / n > m {
      MulMonotone(m + 1, x / n, n);
    }
  }

  /** For every run of frames both deviations are square roots of a number from 0 to 10^6. */
  lemma DeviationsInRange(frames: seq<Frame>)
    requires |frames| < 0x7FFF_FFFF
    ensures var s := After(frames);
            && (s.cFramesDrawn - 1 > 1 ==> 0 <= Variance(s.cFramesDrawn - 1, s.iSumSqAcc, s.iTotAcc) <= 1_000_000)
            && (s.cFramesDrawn - 2 > 1 ==>
                0 <= Variance(s.cFramesDrawn - 2, s.iSumSqFrameTime, s.iSumFrameTime) <= 1_000_000)
  {
    SumsObserved(frames);
    var s := After(frames);
    if s.cFramesDrawn - 1 > 1 {
      VarianceRange(s.cFramesDrawn - 2, s.iTotAcc, s.iSumSqAcc);
    }
    if s.cFramesDrawn - 2 > 1 {
      VarianceRange(s.cFramesDrawn - 3, s.iSumFrameTime, s.iSumSqFrameTime);
    }
  }

  // ---------- isqrt ----------

  ghost predicate IsFloorSqrt(r: nat, x: int) {
    r * r <= x < (r + 1) * (r + 1)
  }

  /** r or r + 1, where r is the square root of x rounded down. */
  ghost predicate NearSqrt(s: int, x: int) {
    exists r: nat :: IsFloorSqrt(r, x) && Settled(s, r)
  }

  predicate Settled(s: int, r: nat) { s == r || s == r + 1 }

  /** t is (s * s + x) / (2 * s). */
  ghost predicate Newton(s: int, x: int, t: int) {
    s > 0 && t * (2 * s) <= s * s + x < (t + 1) * (2 * s)
  }

  lemma SquareSucc(s: int)
    ensures (s + 1) * (s + 1) == s * s + 2 * s + 1
  {
  }

  lemma SquareLess(a: nat, b: nat)
    requires a * a < b * b
    ensures a < b
  {
    if a >= b {
      ProductBound(b, a, b, a);
    }
  }

  /** One step never goes below the root. */
  lemma NewtonFloor(s: int, x: int, r: nat, t: int)
    requires x > 0 && IsFloorSqrt(r, x) && Newton(s, x, t)
    ensures t >= r >= 1
  {
    var y := s - r;
    ProductSign(y, y);
    assert y * y == s * s + r * r - r * (2 * s);
    assert r * (2 * s) < (t + 1) * (2 * s);
    if t < r {
      MulMonotone(t + 1, r, 2 * s);
    }
  }

  /** The error after a step is quadratic in the error before it. */
  lemma NewtonError(s: int, x: int, t: int)
    requires x > 0 && t >= 0 && Newton(s, x, t)
    ensures 4 * (s * s) * (t * t - x) <= (s * s - x) * (s * s - x)
  {
    var n, m := s * s + x, t * (2 * s);
    ProductSign(s, s);
    ProductBound(t, t, 2 * s, 2 * s);
    ProductBound(m, n, m, n);
    Squares(s, t, s * s, x);
  }

  lemma Squares(s: int, t: int, s2: int, x: int)
    requires s2 == s * s
    ensures (t * (2 * s)) * (t * (2 * s)) == 4 * s2 * (t * t)
    ensures (s2 + x) * (s2 + x) == (s2 - x) * (s2 - x) + 4 * s2 * x
    ensures 4 * s2 * (t * t - x) == 4 * s2 * (t * t) - 4 * s2 * x
  {
    assert (t * (2 * s)) * (t * (2 * s)) == 4 * ((t * t) * (s * s));
  }

  /** If the relative error is num/den, the next one is num/(4 (num + den)) of it. */
  lemma Shrink(s2: int, x: int, e: int, next: int, num: nat, den: nat)
    requires s2 > 0 && s2 == x + e && e >= 0 && den * e <= num * x
    requires 4 * s2 * next <= e * e
    ensures 4 * (num + den) * next <= num * e
  {
    var k := num + den;
    SumTimes(num, den, e);
    SumTimes(x, e, num);
    assert k * e <= num * s2;
    MulMonotone(4 * s2 * next, e * e, k);
    MulMonotone(k * e, num * s2, e);
    Rotations(e, k, num, s2, next);
    CancelLe(4 * k * next, num * e, s2);
  }

  lemma SumTimes(a: int, b: int, c: int)
    ensures (a + b) * c == a * c + b * c == c * (a + b) && a * c == c * a && b * c == c * b
  {
  }

  lemma Rotations(e: int, k: int, num: int, s2: int, next: int)
    ensures (e * e) * k == (k * e) * e && (num * s2) * e == (num * e) * s2
    ensures (4 * s2 * next) * k == (4 * k * next) * s2
  {
  }

  /** Once at r or r + 1, the iteration stays there. */
  lemma StaysSettled(s: int, x: int, r: nat, t: int)
    requires x > 0 && IsFloorSqrt(r, x) && Settled(s, r) && Newton(s, x, t)
    ensures Settled(t, r)
  {
    NewtonFloor(s, x, r, t);
    SquareSucc(r);
    if s == r {
      assert (r + 2) * (2 * r) == 2 * (r * r) + 4 * r;
    } else {
      assert (r + 2) * (2 * s) == 2 * (s * s) + 2 * s;
    }
    assert s * s + x < (r + 2) * (2 * s);
    if t >= r + 2 {
      MulMonotone(r + 2, t, 2 * s);
    }
  }

  /** The square of s is too large by at most 6561 parts in 3280^2, or s is r or r + 1 anyway. */
  ghost predicate Close(s: int, x: int, r: nat) {
    s >= r && (Settled(s, r) || 10_758_400 * (s * s - x) <= 6561 * x)
  }

  /** Three steps from a guess between 1 and 2 times too large come that close; below 3280^2 they reach r or r + 1. */
  lemma ThreeSteps(s0: int, s1: int, s2: int, s3: int, x: int, r: nat)
    requires 0 < x <= s0 * s0 < 4 * x && IsFloorSqrt(r, x)
    requires Newton(s0, x, s1) && Newton(s1, x, s2) && Newton(s2, x, s3)
    ensures Close(s3, x, r) && (x < 10_758_400 ==> Settled(s3, r))
  {
    NewtonFloor(s0, x, r, s1);
    NewtonFloor(s1, x, r, s2);
    NewtonFloor(s2, x, r, s3);
    if Settled(s1, r) {
      StaysSettled(s1, x, r, s2);
      StaysSettled(s2, x, r, s3);
    } else if Settled(s2, r) {
      StaysSettled(s2, x, r, s3);
    } else {
      Above(s1, x, r);
      Above(s2, x, r);
      NewtonError(s0, x, s1);
      NewtonError(s1, x, s2);
      NewtonError(s2, x, s3);
      ErrorChain(s0 * s0, s1 * s1, s2 * s2, s3 * s3, x);
      if x < 10_758_400 {
        SmallError(s3, x, r);
      }
    }
  }

  lemma Above(s: int, x: int, r: nat)
    requires IsFloorSqrt(r, x) && s > r
    ensures s * s > x
  {
    ProductBound(r + 1, s, r + 1, s);
  }

  /** Errors of at most 9/16, then 81/1600, then 6561/10758400 of x; q0 to q3 are the squares of the guesses. */
  lemma ErrorChain(q0: int, q1: int, q2: int, q3: int, x: int)
    requires 0 < x <= q0 < 4 * x && q1 > x && q2 > x
    requires 4 * q0 * (q1 - x) <= (q0 - x) * (q0 - x)
    requires 4 * q1 * (q2 - x) <= (q1 - x) * (q1 - x)
    requires 4 * q2 * (q3 - x) <= (q2 - x) * (q2 - x)
    ensures 10_758_400 * (q3 - x) <= 6561 * x
  {
    FirstStep(q0, x, q0 - x, q1 - x);
    Shrink(q1, x, q1 - x, q2 - x, 9, 16);
    Shrink(q2, x, q2 - x, q3 - x, 81, 1600);
  }

  lemma FirstStep(s2: int, x: int, e0: int, e1: int)
    requires 0 < x <= s2 < 4 * x && e0 == s2 - x && 4 * s2 * e1 <= e0 * e0
    ensures 16 * e1 <= 9 * x
  {
    assert 0 <= 4 * e0 <= 3 * s2;
    ProductBound(4 * e0, 3 * s2, 4 * e0, 3 * s2);
    assert (4 * e0) * (4 * e0) == 16 * (e0 * e0);
    assert (3 * s2) * (3 * s2) == (9 * s2) * s2;
    assert 16 * (4 * s2 * e1) == (64 * e1) * s2;
    CancelLe(64 * e1, 9 * s2, s2);
  }

  lemma SmallError(s: nat, x: int, r: nat)
    requires IsFloorSqrt(r, x) && s >= r && x < 10_758_400
    requires 10_758_400 * (s * s - x) <= 6561 * x
    ensures Settled(s, r)
  {
    SquareLess(r, 3280);
    SquareSucc(r);
    SquareSucc(r + 1);
    if s >= r + 2 {
      ProductBound(r + 2, s, r + 2, s);
      assert s * s - x >= 2 * r + 4;
      ProductBound(r, 3279, r, r);
    }
  }

  ghost predicate CloseSqrt(s: int, x: int) {
    exists r: nat :: IsFloorSqrt(r, x) && Close(s, x, r)
  }

  /** The source's isqrt, whose own range is a square root of about 0 to 1000.  At 2^30 the sum overflows; the source
      divides by zero for -1 and -2. */
  method ISqrt(x: I32) returns (s: int)
    requires x != -1 && x != -2
    ensures 0 <= x < 10_758_400 ==> NearSqrt(s, x)
    ensures 0 <= x < 0x4000_0000 ==> CloseSqrt(s, x)
    ensures x == 0x4000_0000 ==> s == -0x8000
    ensures x > 0x4000_0000 ==> s == 0x8000
    ensures x < 0 ==> s == TruncDiv(x + 1, 2)
  {
    s := 1;
    if x > 0x4000_0000 {
      s := 0x8000;
    } else {
      // first guess: between one and two times the root
      while s * s < x
        invariant s in {1, 2, 4, 8, 16, 32, 64, 128, 256, 512, 1024, 2048, 4096, 8192, 16384, 32768}
        invariant s == 1 || s * s < 4 * x
        invariant x < 0 ==> s == 1
        decreases 32768 - s
      {
        s := 2 * s;
      }
      // three Newton steps
      if x == 0 {
        s := 0;
        assert IsFloorSqrt(0, 0) && Close(0, 0, 0);
      } else {
        s := Iterate(s, x);
      }
    }
  }

  method Iterate(s0: int, x: I32) returns (s: int)
    requires (x < -2 && s0 == 1) || (0 < x <= 0x4000_0000 && 1 <= s0 <= 32768 && x <= s0 * s0 < 4 * x)
    ensures 0 < x < 10_758_400 ==> NearSqrt(s, x)
    ensures 0 < x < 0x4000_0000 ==> CloseSqrt(s, x)
    ensures x == 0x4000_0000 ==> s == -0x8000
    ensures x < 0 ==> s == TruncDiv(x + 1, 2)
  {
    if x < 0 {
      assert Step(s0, x) == TruncDiv(x + 1, 2) < 0;
    } else if x == 0x4000_0000 {
      Overflow(s0, x);
    } else {
      ghost var r := FloorSqrt(x);
      SquareSucc(s0);
      SquareLess(r, s0 + 1);
      Iterations(s0, x, r);
    }
    s := Step(s0, x);
    if s >= 0 {
      s := Step(s, x);
    }
    if s >= 0 {
      s := Step(s, x);
    }
  }

  /** A Newton step in the machine's int. */
  function Step(s: int, x: I32): int
    requires s != 0
  {
    TruncDiv(ToI32(s * s + x), 2 * s)
  }

  lemma Iterations(s0: int, x: I32, r: nat)
    requires 0 < x < 0x4000_0000 && IsFloorSqrt(r, x)
    requires 1 <= s0 <= 32768 && r <= s0 && x <= s0 * s0 < 4 * x
    ensures Step(s0, x) >= 1 && Step(Step(s0, x), x) >= 1
    ensures Close(Step(Step(Step(s0, x), x), x), x, r)
    ensures x < 10_758_400 ==> NearSqrt(Step(Step(Step(s0, x), x), x), x)
  {
    var s1 := Step(s0, x);
    InRange(s0, x, r);
    var s2 := Step(s1, x);
    InRange(s1, x, r);
    InRange(s2, x, r);
    ThreeSteps(s0, s1, s2, Step(s2, x), x, r);
  }

  /** At 2^30 the sum is 2^31, which an int takes for negative. */
  lemma Overflow(s: int, x: I32)
    requires x == 0x4000_0000 && 1 <= s <= 32768 && x <= s * s
    ensures Step(s, x) == -0x8000
  {
    if s < 32768 {
      ProductBound(s, 32767, s, 32767);
    }
  }

  /** Short of 2^30 the step does not overflow. */
  lemma InRange(s: int, x: I32, r: nat)
    requires 0 < x < 0x4000_0000 && IsFloorSqrt(r, x) && 1 <= s && r <= s <= 32768
    ensures Newton(s, x, Step(s, x)) && 1 <= r <= Step(s, x) <= 32768
  {
    hide Step;
    StepIsNewton(s, x);
    NewtonFloor(s, x, r, Step(s, x));
    NewtonSmall(s, x, r, Step(s, x));
  }

  lemma NewtonSmall(s: int, x: int, r: nat, t: int)
    requires 0 < x < 0x4000_0000 && IsFloorSqrt(r, x) && 1 <= s && r <= s <= 32768 && Newton(s, x, t)
    ensures t <= 32768
  {
    ProductBound(r + 1, s + 1, r + 1, s + 1);
    SquareSucc(s);
    assert (s + 2) * (2 * s) == 2 * (s * s) + 4 * s;
    if s < 32768 && t >= s + 2 {
      MulMonotone(s + 2, t, 2 * s);
    }
    if s == 32768 && t >= 32769 {
      MulMonotone(32769, t, 2 * s);
    }
  }

  lemma StepIsNewton(s: int, x: I32)
    requires 0 < x < 0x4000_0000 && 1 <= s <= 32768
    ensures Newton(s, x, Step(s, x))
  {
    ProductBound(s, 32768, s, 32768);
    ProductSign(s, s);
    var t := Step(s, x);
    assert t == (s * s + x) / (2 * s);
    assert (t + 1) * (2 * s) == t * (2 * s) + 2 * s;
  }

  ghost function FloorSqrt(x: nat): (r: nat)
    ensures IsFloorSqrt(r, x)
  {
    if x == 0 then 0
    else
      var r := FloorSqrt(x - 1);
      if (r + 1) * (r + 1) <= x then r + 1 else r
  }

  lemma NearSmall(s: int, x: int)
    requires NearSqrt(s, x) && x <= 1_000_000
    ensures 0 <= s <= 1001
  {
    var r: nat :| IsFloorSqrt(r, x) && Settled(s, r);
    if r > 1000 {
      ProductBound(1001, r, 1001, r);
    }
  }

  // ---------- the renderer's counters ----------

  class CBaseVideoRenderer {
    var m_pClock: bool            // is there a clock?
    var m_cFramesDrawn: nat
    var m_iTotAcc: int
    var m_iSumSqAcc: int
    var m_iSumFrameTime: int
    var m_iSumSqFrameTime: int
    ghost var frames: seq<Frame>  // everything recorded since streaming started

    ghost function State(): Stats
      reads this
    {
      Stats(m_cFramesDrawn, m_iTotAcc, m_iSumSqAcc, m_iSumFrameTime, m_iSumSqFrameTime)
    }

    ghost predicate Valid()
      reads this
    {
      State() == After(frames) && |frames| < 0x7FFF_FFFF
    }

    constructor (clock: bool)
      ensures Valid() && frames == [] && m_pClock == clock
    {
      m_pClock := clock;
      m_cFramesDrawn, m_iTotAcc, m_iSumSqAcc, m_iSumFrameTime, m_iSumSqFrameTime := 0, 0, 0, 0, 0;
      frames := [];
    }

    method RecordFrameLateness(trLate: I32, trFrame: I32)
      requires Valid() && |frames| + 1 < 0x7FFF_FFFF
      modifies this
      ensures Valid() && m_pClock == old(m_pClock) && frames == old(frames) + [Frame(trLate, trFrame)]
      ensures State() == Record(old(State()), Frame(trLate, trFrame))
      ensures m_cFramesDrawn == old(m_cFramesDrawn) + 1
      ensures var x, xx := m_iTotAcc - old(m_iTotAcc), m_iSumSqAcc - old(m_iSumSqAcc);
              if old(m_cFramesDrawn) > 1 then IsLateness(x, trLate) && xx == x * x else x == xx == 0
      ensures var x, xx := m_iSumFrameTime - old(m_iSumFrameTime), m_iSumSqFrameTime - old(m_iSumSqFrameTime);
              if old(m_cFramesDrawn) > 2 then IsFrameTime(x, trFrame) && xx == x * x else x == xx == 0
    {
      MsAreMeasured(trLate, trFrame, m_cFramesDrawn);
      var tLate := TruncDiv(trLate, 10000);
      // more than a second counts as a second
      if tLate > 1000 || tLate < -1000 {
        if m_cFramesDrawn <= 1 {
          tLate := 0;
        } else if tLate > 0 {
          tLate := 1000;
        } else {
          tLate := -1000;
        }
      }
      if m_cFramesDrawn > 1 {
        m_iTotAcc := m_iTotAcc + tLate;
        m_iSumSqAcc := m_iSumSqAcc + tLate * tLate;
      }
      if m_cFramesDrawn > 2 {
        var tFrame := TruncDiv(trFrame, 10000);
        if tFrame > 1000 || tFrame < 0 {
          tFrame := 1000;
        }
        m_iSumSqFrameTime := m_iSumSqFrameTime + tFrame * tFrame;
        m_iSumFrameTime := m_iSumFrameTime + tFrame;
      }
      m_cFramesDrawn := m_cFramesDrawn + 1;
      frames := frames + [Frame(trLate, trFrame)];
      assert frames[..|frames| - 1] == old(frames);
    }

    /** The deviation of the sync offset, in ms: at most 1001 whatever was recorded. */
    method GetDevSyncOffset() returns (piDev: int)
      requires Valid()
      ensures !m_pClock || m_cFramesDrawn <= 2 ==> piDev == 0
      ensures m_pClock && m_cFramesDrawn > 2 ==> NearSqrt(piDev, Variance(m_cFramesDrawn - 1, m_iSumSqAcc, m_iTotAcc))
      ensures 0 <= piDev <= 1001
    {
      DeviationsInRange(frames);
      SumsObserved(frames);
      piDev := GetStdDev(m_cFramesDrawn - 1, m_iSumSqAcc, m_iTotAcc);
    }

    /** The deviation of the inter-frame time, in ms. */
    method GetJitter() returns (piJitter: int)
      requires Valid()
      ensures !m_pClock || m_cFramesDrawn <= 3 ==> piJitter == 0
      ensures m_pClock && m_cFramesDrawn > 3 ==>
              NearSqrt(piJitter, Variance(m_cFramesDrawn - 2, m_iSumSqFrameTime, m_iSumFrameTime))
      ensures 0 <= piJitter <= 1001
    {
      DeviationsInRange(frames);
      SumsObserved(frames);
      piJitter := GetStdDev(m_cFramesDrawn - 2, m_iSumSqFrameTime, m_iSumFrameTime);
    }

    method GetStdDev(nSamples: int, llSumSq: int, iTot: int) returns (piResult: int)
      requires -2 <= nSamples < 0x7FFF_FFFF
      requires nSamples > 1 ==> MIN64 <= iTot <= MAX64 && 0 <= Variance(nSamples, llSumSq, iTot) <= 1_000_000
      ensures !m_pClock || nSamples <= 1 ==> piResult == 0
      ensures m_pClock && nSamples > 1 ==> NearSqrt(piResult, Variance(nSamples, llSumSq, iTot))
      ensures 0 <= piResult <= 1001
    {
      if !m_pClock {
        return 0;
      }
      if nSamples <= 1 {
        piResult := 0;
      } else {
        var t := LlMulDiv(iTot, iTot, nSamples, 0);
        var x := TruncDiv(llSumSq - t, nSamples - 1);
        piResult := ISqrt(x);
        NearSmall(piResult, x);
      }
    }
  }
}
