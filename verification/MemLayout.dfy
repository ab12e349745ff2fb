/**
 The sizes CMemAllocator works with (amfilter.cpp 5050-5220): what SetProperties stores, what Alloc
 asks the system for, and how the block is cut into samples.  All of it is 32-bit arithmetic.
 */
module MemLayout {
  import opened Words
  import opened BitMath
  import opened HResults

  const MAXLONG: int := 0x7FFF_FFFF

  datatype Props = Props(cBuffers: I32, cbBuffer: I32, cbAlign: I32, cbPrefix: I32)

  // ---------- SetProperties ----------

  /** Is the alignment refused? `granularity` is that of the system's allocations. */
  function BadAlign(granularity: U32, cbAlign: I32): bool {
    cbAlign == 0 || And(granularity, ToU32(cbAlign - 1)) != 0
  }

  /** The buffer size that is stored: buffer and prefix together are rounded up, by a remainder in C. */
  function Rounded(cbBuffer: I32, cbPrefix: I32, cbAlign: I32): I32
    requires cbAlign != 0
  {
    var lSize := ToI32(cbBuffer + cbPrefix);
    RoundUp(lSize, TruncMod(lSize, cbAlign), cbAlign, cbPrefix)
  }

  function RoundUp(lSize: I32, lRemainder: int, cbAlign: I32, cbPrefix: I32): I32 {
    ToI32((if lRemainder != 0 then ToI32(ToI32(lSize - lRemainder) + cbAlign) else lSize) - cbPrefix)
  }

  // ---------- Alloc ----------

  /** The size of one slice of the block, or why there is none. */
  datatype Sizing = Slice(size: int) | Refused(hr: HRESULT)

  function SliceSize(p: Props): Sizing {
    if p.cBuffers <= 0 || p.cbBuffer <= 0 || p.cbAlign <= 0 then Refused(VFW_E_SIZENOTSET)
    else if p.cbBuffer < 0 || p.cbPrefix < 0 || p.cBuffers < 0 then Refused(E_OUTOFMEMORY)
    else
      var lAlignedSize := ToI32(p.cbBuffer + p.cbPrefix);
      if lAlignedSize < p.cbBuffer then Refused(E_OUTOFMEMORY)
      else Sized(p.cBuffers, lAlignedSize, TruncMod(lAlignedSize, p.cbAlign), p.cbAlign)
  }

  function Sized(cBuffers: I32, lAlignedSize: I32, lRemainder: int, cbAlign: I32): Sizing {
    var n := Raised(lAlignedSize, lRemainder, cbAlign);
    if n < lAlignedSize then Refused(E_OUTOFMEMORY)
    else if Total(cBuffers, n) > MAXLONG then Refused(E_OUTOFMEMORY)
    else Slice(n)
  }

  /** A 64-bit product of 32-bit numbers: exact. */
  function Total(cBuffers: int, size: int): int { cBuffers * size }

  lemma TotalAtLeast(c: nat, n: nat)
    requires c >= 1
    ensures Total(c, n) >= n
  {
    MulMonotone(1, c, n);
  }

  function Raised(a: I32, lRemainder: int, cbAlign: I32): I32 {
    if cbAlign > 1 && lRemainder != 0 then ToI32(ToI32(a + cbAlign) - lRemainder) else a
  }

  /** Raising wraps to a negative number, or is exact. */
  lemma SizedExact(cBuffers: I32, a: I32, r: int, cbAlign: I32, c: int)
    requires 0 < cBuffers && 0 <= a && 0 <= r < cbAlign && c == if r == 0 then a else a - r + cbAlign
    ensures Sized(cBuffers, a, r, cbAlign) == if Total(cBuffers, c) <= MAXLONG then Slice(c) else Refused(E_OUTOFMEMORY)
  {
    RaisedExact(a, r, cbAlign, c);
    TotalAtLeast(cBuffers, c);
  }

  lemma RaisedExact(a: I32, r: int, cbAlign: I32, c: int)
    requires 0 <= a && 0 <= r < cbAlign && c == if r == 0 then a else a - r + cbAlign
    ensures Raised(a, r, cbAlign) == if c <= MAXLONG then c else c - 0x1_0000_0000
    ensures c > MAXLONG ==> Raised(a, r, cbAlign) < a
  {
  }

  /** n rounded up to a multiple of a, exactly. */
  function CeilTo(n: nat, a: nat): (c: nat)
    requires a > 0
    ensures n <= c < n + a
  {
    var r := n % a;
    if r == 0 then n else n - r + a
  }

  /** It is the least such multiple. */
  lemma CeilIsLeast(n: nat, a: nat)
    requires a > 0
    ensures CeilTo(n, a) % a == 0 && forall k: nat {:trigger k * a} :: k * a >= n ==> k * a >= CeilTo(n, a)
  {
    var q, r := n / a, n % a;
    var m := if r == 0 then q else q + 1;
    assert CeilTo(n, a) == m * a by { assert (q + 1) * a == q * a + a; }
    DivUnique(m * a, a, m, 0);
    forall k: nat | k * a >= n
      ensures k * a >= m * a
    {
      MulStep(m - 1, a);
      if k <= m - 1 {
        MulMonotone(k, m - 1, a);
      } else {
        MulMonotone(m, k, a);
      }
    }
  }

  /** The same in unbounded arithmetic, without any check for overflow but the last. */
  function ExactSize(p: Props): Sizing {
    if p.cBuffers <= 0 || p.cbBuffer <= 0 || p.cbAlign <= 0 then Refused(VFW_E_SIZENOTSET)
    else if p.cbPrefix < 0 then Refused(E_OUTOFMEMORY)
    else
      var size := CeilTo(p.cbBuffer + p.cbPrefix, p.cbAlign);
      if Total(p.cBuffers, size) <= MAXLONG then Slice(size) else Refused(E_OUTOFMEMORY)
  }

  /** Alloc sees every overflow. */
  lemma SliceSizeExact(p: Props)
    ensures SliceSize(p) == ExactSize(p)
  {
    if p.cBuffers > 0 && p.cbBuffer > 0 && p.cbAlign > 0 && p.cbPrefix >= 0 {
      if p.cbBuffer + p.cbPrefix <= MAXLONG {
        SumInRange(p, p.cbBuffer + p.cbPrefix);
      } else {
        SumWraps(p, p.cbBuffer + p.cbPrefix);
      }
    }
  }

  lemma SumInRange(p: Props, sum: I32)
    requires p.cBuffers > 0 && p.cbBuffer > 0 && p.cbAlign > 0 && p.cbPrefix >= 0 && sum == p.cbBuffer + p.cbPrefix
    ensures SliceSize(p) == ExactSize(p)
  {
    var r := TruncMod(sum, p.cbAlign);
    assert ToI32(sum) == sum;
    hide Sized, ToI32, Raised, Total;
    SizedExact(p.cBuffers, sum, r, p.cbAlign, CeilTo(sum, p.cbAlign));
    assert SliceSize(p) == Sized(p.cBuffers, sum, r, p.cbAlign);
  }

  lemma SumWraps(p: Props, sum: int)
    requires p.cBuffers > 0 && p.cbBuffer > 0 && p.cbAlign > 0 && p.cbPrefix >= 0
             && sum == p.cbBuffer + p.cbPrefix > MAXLONG
    ensures SliceSize(p) == ExactSize(p) == Refused(E_OUTOFMEMORY)
  {
    TotalAtLeast(p.cBuffers, CeilTo(sum, p.cbAlign));
    assert ToI32(sum) < p.cbBuffer;
  }

  // ---------- SetProperties, then Alloc ----------

  /** What Alloc finds stored after SetProperties(request). */
  function Stored(request: Props): Props
    requires request.cbAlign != 0
  {
    request.(cbBuffer := Rounded(request.cbBuffer, request.cbPrefix, request.cbAlign))
  }

  /** Without wrap-around the size that is stored is the exact one, as far as a LONG can hold it. */
  lemma RoundedExact(cbBuffer: I32, cbPrefix: I32, cbAlign: I32, sum: I32)
    requires sum == cbBuffer + cbPrefix && sum >= 0 && cbAlign > 0
    ensures Rounded(cbBuffer, cbPrefix, cbAlign) == ToI32(CeilTo(sum, cbAlign) - cbPrefix)
  {
    ModAtMost(sum, cbAlign);
    assert ToI32(sum) == sum;
    hide RoundUp, ToI32;
    RoundingUp(sum, TruncMod(sum, cbAlign), cbAlign, cbPrefix);
  }

  lemma ModAtMost(n: nat, a: nat)
    requires a > 0
    ensures n % a <= n
  {
    MulMonotone(0, n / a, a);
    assert n == n / a * a + n % a;
  }

  lemma RoundingUp(sum: I32, r: int, cbAlign: I32, cbPrefix: I32)
    requires 0 <= sum && 0 <= r < cbAlign && r <= sum
    ensures RoundUp(sum, r, cbAlign, cbPrefix) == ToI32((if r == 0 then sum else sum - r + cbAlign) - cbPrefix)
  {
    assert ToI32(sum - r) == sum - r && ToI32(sum) == sum;
    hide ToI32;
    I32Twice(sum - r + cbAlign, 0 - cbPrefix);
  }

  /** With wrap-around (sum - 2^32 is what the code computes) rounding goes towards zero, and one alignment on. */
  lemma RoundingWrapped(s: I32, k: nat, r: nat, cbAlign: I32, cbPrefix: I32)
    requires s < 0 && 0 - s == k * cbAlign + r && r < cbAlign && cbPrefix >= 0
    ensures RoundUp(s, 0 - r, cbAlign, cbPrefix) == ToI32((if r == 0 then s else cbAlign - k * cbAlign) - cbPrefix)
  {
    var ka := k * cbAlign;
    assert ka >= 0;
    RoundingDown(s, ka, r, cbAlign, cbPrefix);
  }

  lemma RoundingDown(s: I32, ka: nat, r: nat, cbAlign: I32, cbPrefix: I32)
    requires s < 0 && 0 - s == ka + r && r < cbAlign
    ensures RoundUp(s, 0 - r, cbAlign, cbPrefix) == ToI32((if r == 0 then s else cbAlign - ka) - cbPrefix)
  {
    assert ToI32(s + r) == 0 - ka && ToI32(s) == s;
    hide ToI32;
    I32Twice(cbAlign - ka, 0 - cbPrefix);
  }

  ghost predicate ExactFits(request: Props)
    requires request.cbAlign > 0
  {
    && request.cBuffers > 0 && request.cbPrefix >= 0 && request.cbBuffer + request.cbPrefix >= 0
    && Total(request.cBuffers, CeilTo(request.cbBuffer + request.cbPrefix, request.cbAlign)) <= MAXLONG
  }

  lemma CeilOfCeil(n: nat, a: nat)
    requires a > 0
    ensures CeilTo(CeilTo(n, a), a) == CeilTo(n, a)
  {
    CeilIsLeast(n, a);
  }

  lemma StoredWithoutWrap(request: Props, sum: I32)
    requires request.cbBuffer > 0 && request.cbAlign > 0 && request.cbPrefix >= 0
             && sum == request.cbBuffer + request.cbPrefix
    ensures var size := CeilTo(sum, request.cbAlign) - request.cbPrefix;
            Rounded(request.cbBuffer, request.cbPrefix, request.cbAlign)
            == if size <= MAXLONG then size else size - 0x1_0000_0000
  {
    hide Rounded, CeilTo;
    RoundedExact(request.cbBuffer, request.cbPrefix, request.cbAlign, sum);
  }

  /** A request that does not wrap is served exactly when it fits, with buffers at least as big as asked and
      less than one alignment bigger. */
  lemma ServedWithoutWrap(request: Props, sum: I32)
    requires request.cbBuffer > 0 && request.cbAlign > 0 && request.cbPrefix >= 0
             && sum == request.cbBuffer + request.cbPrefix
    ensures var p := Stored(request);
            && (SliceSize(p).Slice? <==> ExactFits(request))
            && (SliceSize(p).Slice? ==> SliceSize(p).size == CeilTo(sum, request.cbAlign) == p.cbBuffer + p.cbPrefix)
  {
    hide Rounded, SliceSize, CeilTo;
    var p, c := Stored(request), CeilTo(sum, request.cbAlign);
    StoredWithoutWrap(request, sum);
    SliceSizeExact(p);
    CeilOfCeil(sum, request.cbAlign);
    if request.cBuffers > 0 {
      TotalAtLeast(request.cBuffers, c);
    }
  }

  /** A request that wraps is refused, unless its alignment is enormous. */
  lemma WrapIsRefused(request: Props)
    requires request.cbBuffer > 0 && 0 < request.cbAlign <= 0x4000_0001 && request.cbPrefix >= 0
    requires request.cbBuffer + request.cbPrefix > MAXLONG
    ensures SliceSize(Stored(request)).Refused?
  {
    hide Stored, SliceSize, ToI32, Rounded, CeilTo;
    var s := request.cbBuffer + request.cbPrefix - 0x1_0000_0000;
    assert -0x8000_0000 <= s < 0;
    var k, r := (0 - s) / request.cbAlign, (0 - s) % request.cbAlign;
    DivisionParts(0 - s, request.cbAlign);
    WrapRefusedAt(request, s, k, r);
  }

  lemma DivisionParts(n: nat, d: nat)
    requires d > 0
    ensures n == n / d * d + n % d && 0 <= n / d && 0 <= n % d < d
  {
  }

  lemma WrapRefusedAt(request: Props, s: I32, k: nat, r: nat)
    requires request.cbBuffer > 0 && 0 < request.cbAlign <= 0x4000_0001 && request.cbPrefix >= 0
    requires s == request.cbBuffer + request.cbPrefix - 0x1_0000_0000 && s < 0
    requires 0 - s == k * request.cbAlign + r && r == (0 - s) % request.cbAlign
    ensures SliceSize(Stored(request)).Refused?
  {
    var lSize := if r == 0 then s else request.cbAlign - k * request.cbAlign;
    StoredAfterWrap(request, s, k, r, lSize);
    SmallOrWraps(request, s, k, r, lSize);
    hide ToI32, Rounded, SliceSize, CeilTo;
    var p := Stored(request);
    SliceSizeExact(p);
    if p.cBuffers > 0 && p.cbBuffer > 0 {
      TotalAtLeast(p.cBuffers, CeilTo(p.cbBuffer + p.cbPrefix, p.cbAlign));
    }
  }

  lemma StoredAfterWrap(request: Props, s: I32, k: nat, r: nat, lSize: int)
    requires request.cbAlign > 0 && request.cbPrefix >= 0
    requires s == request.cbBuffer + request.cbPrefix - 0x1_0000_0000 && s < 0
    requires 0 - s == k * request.cbAlign + r && r == (0 - s) % request.cbAlign
    requires lSize == if r == 0 then s else request.cbAlign - k * request.cbAlign
    ensures Stored(request).cbBuffer == ToI32(lSize - request.cbPrefix)
  {
    hide ToI32, RoundUp, TruncMod;
    WrapsTo(request.cbBuffer + request.cbPrefix, s);
    RemainderBelowZero(s, request.cbAlign);
    RoundingWrapped(s, k, r, request.cbAlign, request.cbPrefix);
  }

  lemma WrapsTo(sum: int, s: I32)
    requires s == sum - 0x1_0000_0000
    ensures ToI32(sum) == s
  {
  }

  lemma RemainderBelowZero(s: int, d: int)
    requires s < 0 < d
    ensures TruncMod(s, d) == 0 - (0 - s) % d
  {
  }

  lemma SmallOrWraps(request: Props, s: I32, k: nat, r: nat, lSize: int)
    requires request.cbBuffer > 0 && 0 < request.cbAlign <= 0x4000_0001 && request.cbPrefix >= 0
    requires s == request.cbBuffer + request.cbPrefix - 0x1_0000_0000 && s < 0 && r < request.cbAlign
    requires 0 - s == k * request.cbAlign + r && lSize == if r == 0 then s else request.cbAlign - k * request.cbAlign
    ensures var size := ToI32(lSize - request.cbPrefix); size <= 0 || size + request.cbPrefix > MAXLONG
  {
    if k > 0 {
      MulMonotone(1, k, request.cbAlign);
    } else {
      assert k * request.cbAlign == 0;
    }
  }

  /** What the caller gets, for every request whose alignment is below the enormous. */
  lemma AskedAndGot(request: Props)
    requires request.cbBuffer > 0 && 0 < request.cbAlign <= 0x4000_0001
    ensures var p := Stored(request);
            && (SliceSize(p).Slice? <==> ExactFits(request))
            && (SliceSize(p).Slice? ==>
                  && SliceSize(p).size == CeilTo(request.cbBuffer + request.cbPrefix, request.cbAlign)
                      == p.cbBuffer + p.cbPrefix
                  && request.cbBuffer <= p.cbBuffer < request.cbBuffer + request.cbAlign)
  {
    if request.cbPrefix >= 0 {
      if request.cbBuffer + request.cbPrefix <= MAXLONG {
        ServedWithoutWrap(request, request.cbBuffer + request.cbPrefix);
      } else {
        WrapIsRefused(request);
        if request.cBuffers > 0 {
          TotalAtLeast(request.cBuffers, CeilTo(request.cbBuffer + request.cbPrefix, request.cbAlign));
        }
      }
    }
  }

  /** For a bigger alignment there is a request for a 2 GB buffer that Alloc grants with one byte. */
  lemma EnormousAlignmentWraps(cbAlign: I32)
    requires cbAlign > 0x4000_0001
    ensures var request := Props(1, MAXLONG, cbAlign, cbAlign - 1);
            Stored(request).cbBuffer == 1 && SliceSize(Stored(request)) == Slice(cbAlign) && !ExactFits(request)
  {
    var request := Props(1, MAXLONG, cbAlign, cbAlign - 1);
    var s: I32 := MAXLONG + cbAlign - 1 - 0x1_0000_0000;
    DivUnique(0 - s, cbAlign, 0, 0 - s);
    StoredAfterWrap(request, s, 0, 0 - s, cbAlign);
    assert Stored(request).cbBuffer == 1;
    hide Rounded, ToI32, SliceSize;
    SliceSizeExact(Stored(request));
    TotalAtLeast(1, CeilTo(MAXLONG + cbAlign - 1, cbAlign));
    DivUnique(cbAlign, cbAlign, 1, 0);
  }

  /** SetProperties takes the request, and whether Alloc then grants it is not whether it fits. */
  ghost predicate Misjudged(granularity: U32, request: Props)
    requires request.cbAlign > 0
  {
    !BadAlign(granularity, request.cbAlign) && (SliceSize(Stored(request)).Slice? != ExactFits(request))
  }

  /** Of the alignments SetProperties lets through, exactly those above 2^30 + 1 have a request that is misjudged. */
  lemma MisjudgedIff(granularity: U32, cbAlign: I32)
    requires cbAlign > 0
    ensures (exists request: Props ::
               request.cbBuffer > 0 && request.cbAlign == cbAlign && Misjudged(granularity, request))
            <==> !BadAlign(granularity, cbAlign) && cbAlign > 0x4000_0001
  {
    hide SliceSize, Rounded, BadAlign, ToI32, CeilTo;
    if cbAlign > 0x4000_0001 {
      EnormousAlignmentWraps(cbAlign);
      var request := Props(1, MAXLONG, cbAlign, cbAlign - 1);
      assert !BadAlign(granularity, cbAlign) ==> Misjudged(granularity, request);
    } else {
      forall request: Props | request.cbBuffer > 0 && request.cbAlign == cbAlign
        ensures !Misjudged(granularity, request)
      {
        AskedAndGot(request);
      }
    }
  }

  /** The check looks at one bit: an alignment is refused if it is 0, or if one less than it, as a DWORD, has the
      granularity's bit set. */
  lemma BadAlignIff(granularity: U32, cbAlign: I32)
    requires IsPow2(granularity) && granularity > 0
    ensures BadAlign(granularity, cbAlign) <==> cbAlign == 0 || ToU32(cbAlign - 1) / granularity % 2 == 1
  {
    hide And, IsPow2, ToU32;
    OneBit(ToU32(cbAlign - 1), granularity);
  }

  lemma OneBit(m: nat, g: nat)
    requires IsPow2(g)
    ensures g > 0 && (And(g, m) != 0 <==> m / g % 2 == 1)
  {
    var k := Log2(g);
    hide And, IsPow2;
    var q, r := Parts(m, 2 * g);
    if r < g {
      OneBitClear(k, m, q, r);
      HalfSteps(m, g, q, 0, r);
    } else {
      OneBitSet(k, m, q, r - g);
      HalfSteps(m, g, q, 1, r - g);
    }
  }

  lemma Parts(m: nat, d: nat) returns (q: nat, r: nat)
    requires d > 0
    ensures m == q * d + r && r < d
  {
    q, r := m / d, m % d;
  }

  lemma HalfSteps(m: nat, g: nat, q: nat, bit: nat, r: nat)
    requires r < g && bit < 2 && m == q * (2 * g) + bit * g + r
    ensures m / g % 2 == bit
  {
    assert (2 * q + bit) * g == q * (2 * g) + bit * g;
    DivUnique(m, g, 2 * q + bit, r);
  }

  /** So everything from 1 up to the granularity is let through, powers of two or not, and then nothing up to twice the
      granularity. */
  lemma SmallAlignments(granularity: U32, cbAlign: I32)
    requires IsPow2(granularity) && 0 < cbAlign <= 2 * granularity
    ensures BadAlign(granularity, cbAlign) <==> cbAlign > granularity
  {
    assert granularity >= 1;
    hide BadAlign, IsPow2;
    BadAlignIff(granularity, cbAlign);
    assert ToU32(cbAlign - 1) == cbAlign - 1;
    hide ToU32;
    if cbAlign <= granularity {
      HalfSteps(cbAlign - 1, granularity, 0, 0, cbAlign - 1);
    } else {
      HalfSteps(cbAlign - 1, granularity, 0, 1, cbAlign - 1 - granularity);
    }
  }

  /** There are such alignments: the usual 64K granularity lets 2^30 + 2 through. */
  lemma EnormousAlignmentIsLetThrough()
    ensures !BadAlign(0x1_0000, 0x4000_0002)
  {
    hide And;
    assert ToU32(0x4000_0001) == 0x4000_0001;
    Square(4, 16);
    Square(8, 256);
    assert Pow2(16) == 0x1_0000;
    OneBitClear(16, 0x4000_0001, 0x2000, 1);
  }

  // ---------- cutting the block ----------

  /** Where slice i starts, and where the sample's own data starts behind the prefix. */
  function SliceAt(base: int, size: int, i: nat): int { base + i * size }

  function DataAt(base: int, size: int, p: Props, i: nat): int { SliceAt(base, size, i) + p.cbPrefix }

  /** Prefix and data of the i-th sample. */
  ghost predicate InSample(x: int, base: int, size: int, p: Props, i: nat) {
    DataAt(base, size, p, i) - p.cbPrefix <= x < DataAt(base, size, p, i) + p.cbBuffer
  }

  /** The samples lie in the block and do not overlap. */
  lemma SamplesAreDisjoint(base: int, p: Props, x: int, i: nat, j: nat)
    requires SliceSize(p).Slice? && i < p.cBuffers && j < p.cBuffers
    requires InSample(x, base, SliceSize(p).size, p, i)
    ensures base <= x < base + Total(p.cBuffers, SliceSize(p).size) <= base + MAXLONG
    ensures InSample(x, base, SliceSize(p).size, p, j) ==> i == j
  {
    hide SliceSize, CeilTo;
    SliceSizeExact(p);
    var size := SliceSize(p).size;
    MulMonotone(0, i, size);
    MulMonotone(i + 1, p.cBuffers, size);
    MulStep(i, size);
    MulStep(j, size);
    if i < j {
      MulMonotone(i + 1, j, size);
    } else if j < i {
      MulMonotone(j + 1, i, size);
    }
  }

  ghost predicate Multiple(x: int, a: int)
    requires a > 0
  {
    x % a == 0
  }

  /** Every sample's prefix starts on a multiple of the alignment exactly when the block does. */
  lemma SamplesAlignedIff(base: nat, p: Props)
    requires SliceSize(p).Slice?
    ensures (forall i :: 0 <= i < p.cBuffers ==> Multiple(SliceAt(base, SliceSize(p).size, i), p.cbAlign))
            <==> Multiple(base, p.cbAlign)
  {
    hide SliceSize, CeilTo;
    SliceSizeExact(p);
    var size, sum := SliceSize(p).size, p.cbBuffer + p.cbPrefix;
    CeilIsLeast(sum, p.cbAlign);
    if Multiple(base, p.cbAlign) {
      forall i | 0 <= i < p.cBuffers
        ensures Multiple(SliceAt(base, size, i), p.cbAlign)
      {
        MultiplePlus(base, size, p.cbAlign, i);
      }
    } else {
      assert SliceAt(base, size, 0) == base;
    }
  }

  lemma MultiplePlus(base: nat, size: nat, a: nat, i: nat)
    requires a > 0 && Multiple(base, a) && Multiple(size, a)
    ensures Multiple(base + i * size, a)
  {
    var b, s := base / a, size / a;
    assert base == b * a && size == s * a;
    Spread(b, s, a, i);
    DivUnique(base + i * size, a, b + i * s, 0);
  }

  lemma Spread(b: nat, s: nat, a: nat, i: nat)
    ensures b * a + i * (s * a) == (b + i * s) * a
  {
  }

  /** SetProperties lets some alignments through that it only logs; the samples are aligned wherever the system
      puts the block exactly when the alignment is a power of two, which is what is logged. */
  lemma AlignedEverywhereIff(granularity: U32, cbAlign: I32)
    requires IsPow2(granularity) && cbAlign > 0 && !BadAlign(granularity, cbAlign)
    ensures (forall base: nat :: Multiple(base, granularity) ==> Multiple(base, cbAlign)) <==> IsPow2(cbAlign)
  {
    if IsPow2(cbAlign) {
      PowerDivides(granularity, cbAlign);
      hide IsPow2, BadAlign;
      forall base: nat | Multiple(base, granularity)
        ensures Multiple(base, cbAlign)
      {
        MultipleOfMultiple(base, granularity, cbAlign);
      }
    } else {
      DivUnique(granularity, granularity, 1, 0);
      assert Multiple(granularity, granularity);
      hide IsPow2, BadAlign;
      if Multiple(granularity, cbAlign) {
        DivisorOfPow2(granularity, cbAlign);
      }
    }
  }

  lemma PowerDivides(granularity: U32, cbAlign: I32)
    requires cbAlign > 0 && IsPow2(cbAlign) && !BadAlign(granularity, cbAlign)
    ensures Multiple(granularity, cbAlign)
  {
    hide And, IsPow2;
    assert ToU32(cbAlign - 1) == cbAlign - 1;
    hide ToU32;
    MaskTest(granularity, cbAlign);
  }

  lemma MultipleOfMultiple(base: nat, g: nat, a: nat)
    requires g > 0 && a > 0 && Multiple(base, g) && Multiple(g, a)
    ensures Multiple(base, a)
  {
    assert base == 0 + base / g * g;
    MultiplePlus(0, g, a, base / g);
  }

  /** An alignment of 3 passes the check, and the block of the usual 64K granularity does not honour it. */
  lemma ThreeIsLetThrough()
    ensures IsPow2(0x1_0000) && !BadAlign(0x1_0000, 3) && Multiple(0x1_0000, 0x1_0000) && !Multiple(0x1_0000, 3)
  {
    hide IsPow2, And;
    Granularity();
    assert ToU32(2) == 2;
    hide ToU32;
    TwoIsMaskedOut(0x8000);
  }

  lemma Granularity()
    ensures IsPow2(0x1_0000)
  {
    hide IsPow2;
    Square(4, 16);
    Square(8, 256);
    Pow2Is(16);
  }

  lemma TwoIsMaskedOut(x: nat)
    requires x % 2 == 0
    ensures And(2 * x, 2) == 0
  {
    AndEven(2 * x, 1);
    AndStep(x, 1);
  }
}
