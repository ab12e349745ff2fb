/** The checks on a bitmap header (checkbmi.h), which are to be safe from 32-bit overflow. */
module CheckBmi {
  import opened Words
  import opened BitMath

  const BI_RGB: U32 := 0
  const BI_BITFIELDS: U32 := 3
  const HEADER_SIZE: U32 := 40     // sizeof(BITMAPINFOHEADER)

  type U16 = x: int | 0 <= x < 0x1_0000

  datatype BitmapInfoHeader = BitmapInfoHeader(
    biSize: U32, biWidth: I32, biHeight: I32, biBitCount: U16, biCompression: U32, biSizeImage: U32, biClrUsed: U32)

  /** The product of two DWORDs, and whether dividing it again gives back a factor. */
  function MultiplyCheckOverflow(a: U32, b: U32): (bool, U32) {
    var ab := ToU32(a * b);
    (a == 0 || ab / a == b, ab)
  }

  /** The test is exact: it passes if and only if nothing was lost. */
  lemma MultiplyExactIff(a: U32, b: U32)
    ensures MultiplyCheckOverflow(a, b).0 <==> a * b < 0x1_0000_0000
    ensures MultiplyCheckOverflow(a, b).0 ==> MultiplyCheckOverflow(a, b).1 == a * b
  {
    var p := a * b;
    MulMonotone(0, b, a);
    if p < 0x1_0000_0000 {
      if a > 0 {
        DivUnique(p, a, b, 0);
      }
    } else if a > 0 {
      var r := p % 0x1_0000_0000;
      assert r < p;
      QuotientBelow(r, a, b);
    }
  }

  lemma QuotientBelow(r: nat, a: nat, b: nat)
    requires a > 0 && r < b * a
    ensures r / a != b
  {
    assert r == r / a * a + r % a;
  }

  /** `x & ~3` and `x & ~31` on DWORDs. */
  function RoundDown4(x: U32): U32 { And(x, 0xFFFF_FFFC) }
  function RoundDown32(x: U32): U32 { And(x, 0xFFFF_FFE0) }

  lemma RoundDownIs(x: U32)
    ensures RoundDown4(x) == x - x % 4 && RoundDown32(x) == x - x % 32
  {
    hide And;
    Pow2Values();
    assert Pow2(2) == 4 && Pow2(5) == 32;
    AndHighMask(x, 32, 2);
    AndHighMask(x, 32, 5);
  }

  /** The size of a DWORD of `abs(biHeight)`: 2^31 for the most negative height. */
  function Height(biHeight: I32): U32 { Abs(biHeight) }

  function ColoursUsed(h: BitmapInfoHeader): nat {
    if h.biClrUsed == 0 && 0 < h.biBitCount <= 8 then Pow2(h.biBitCount) else h.biClrUsed
  }

  /** The row and the image size computed for RGB. */
  function RowBytes(h: BitmapInfoHeader): U32 {
    BytesOfBits(ToU32(ToU32(h.biWidth) * h.biBitCount))
  }

  function BytesOfBits(dwBits: U32): U32 {
    RoundDown32(ToU32(dwBits + 31)) / 8
  }

  function TotalSize(h: BitmapInfoHeader): U32 {
    ToU32(Height(h.biHeight) * RowBytes(h))
  }

  predicate ValidateBitmapInfoHeader(h: BitmapInfoHeader, cbSize: U32) {
    && HEADER_SIZE <= cbSize && HEADER_SIZE <= h.biSize <= 4096
    && h.biWidth != 0 && h.biHeight != 0
    && h.biBitCount <= 200
    && MultiplyCheckOverflow(200, ToU32(h.biWidth)).0
    && ImageFits(RoundDown4(MultiplyCheckOverflow(200, ToU32(h.biWidth)).1 / 8 + 3), Height(h.biHeight))
    && h.biSizeImage <= 0x4000_0000
    && h.biClrUsed <= 256
    && h.biSize + ColoursUsed(h) * 4 + (if h.biCompression == BI_BITFIELDS then 12 else 0) <= cbSize
    && ((h.biCompression == BI_RGB || h.biCompression == BI_BITFIELDS) && h.biSizeImage != 0 ==>
        TotalSize(h) <= h.biSizeImage)
  }

  predicate ImageFits(widthInBytes: U32, height: U32) {
    MultiplyCheckOverflow(widthInBytes, height).0 && MultiplyCheckOverflow(widthInBytes, height).1 <= 0x4000_0000
  }

  // ---------- the same in exact arithmetic ----------

  /** A row of w pixels of n bits, padded to whole DWORDs. */
  function ExactRow(w: nat, n: nat): nat { Padded(w * n) }

  function Padded(bits: nat): nat { (bits + 31) / 32 * 4 }

  predicate ExactlyValid(h: BitmapInfoHeader, cbSize: U32) {
    && HEADER_SIZE <= cbSize && HEADER_SIZE <= h.biSize <= 4096
    && h.biWidth > 0 && h.biHeight != 0
    && h.biBitCount <= 200
    && h.biWidth * 200 < 0x1_0000_0000
    && Area(ExactRow(h.biWidth, 200), Abs(h.biHeight)) <= 0x4000_0000
    && h.biSizeImage <= 0x4000_0000
    && h.biClrUsed <= 256
    && h.biSize + ColoursUsed(h) * 4 + (if h.biCompression == BI_BITFIELDS then 12 else 0) <= cbSize
    && ((h.biCompression == BI_RGB || h.biCompression == BI_BITFIELDS) && h.biSizeImage != 0 ==>
          Area(ExactRow(h.biWidth, h.biBitCount), Abs(h.biHeight)) <= h.biSizeImage)
  }

  function Area(row: nat, height: nat): int { row * height }

  lemma ImageFitsExactIff(widthInBytes: U32, height: U32)
    ensures ImageFits(widthInBytes, height) <==> Area(widthInBytes, height) <= 0x4000_0000
  {
    hide MultiplyCheckOverflow;
    MultiplyExactIff(widthInBytes, height);
  }

  /** A negative width is a huge DWORD, and is caught by the first product. */
  lemma WidthChecked(biWidth: I32)
    requires biWidth != 0
    ensures MultiplyCheckOverflow(200, ToU32(biWidth)).0 <==> 0 < biWidth && biWidth * 200 < 0x1_0000_0000
    ensures MultiplyCheckOverflow(200, ToU32(biWidth)).0 ==>
            MultiplyCheckOverflow(200, ToU32(biWidth)).1 == biWidth * 200
  {
    assert ToU32(biWidth) == if biWidth < 0 then biWidth + 0x1_0000_0000 else biWidth;
    hide MultiplyCheckOverflow;
    MultiplyExactIff(200, ToU32(biWidth));
  }

  lemma WidestRow(w: nat)
    requires w * 200 < 0x1_0000_0000
    ensures RoundDown4(w * 200 / 8 + 3) == ExactRow(w, 200)
  {
    hide RoundDown4;
    RoundDownIs(w * 200 / 8 + 3);
    WholeDwords(w * 25);
  }

  lemma WholeDwords(x: nat)
    ensures x * 8 / 8 == x && x + 3 - (x + 3) % 4 == Padded(x * 8)
  {
    var q, r := (x + 3) / 4, (x + 3) % 4;
    assert x == 4 * q + r - 3;
    assert x * 8 + 31 == 32 * q + (8 * r + 7);
  }

  /** The row computed in 32 bits is exact, and no wider than the widest row that was checked. */
  lemma RowExact(h: BitmapInfoHeader)
    requires 0 < h.biWidth && h.biWidth * 200 < 0x1_0000_0000 && h.biBitCount <= 200
    ensures RowBytes(h) == ExactRow(h.biWidth, h.biBitCount) <= ExactRow(h.biWidth, 200)
  {
    var w: int, n: int := h.biWidth, h.biBitCount;
    SmallProduct(w, n);
    assert ToU32(w) == w;
    hide ToU32, BytesOfBits, Padded;
    BytesExact(w * n);
    RowsGrow(w * n, w * 200);
  }

  lemma SmallProduct(w: nat, n: nat)
    requires w * 200 < 0x1_0000_0000 && n <= 200
    ensures 0 <= w * n <= w * 200 && w * 200 + 31 < 0x1_0000_0000 && ToU32(w * n) == w * n
  {
    MulMonotone(n, 200, w);
    MulMonotone(0, n, w);
  }

  lemma BytesExact(bits: U32)
    requires bits + 31 < 0x1_0000_0000
    ensures BytesOfBits(bits) == Padded(bits)
  {
    assert ToU32(bits + 31) == bits + 31;
    hide ToU32, RoundDown32;
    RoundDownIs(bits + 31);
    RowOf(bits + 31);
  }

  lemma RowOf(x: nat)
    ensures (x - x % 32) / 8 == x / 32 * 4
  {
  }

  lemma RowsGrow(x: nat, y: nat)
    requires x <= y
    ensures Padded(x) <= Padded(y)
  {
  }

  lemma TotalExact(h: BitmapInfoHeader)
    requires 0 < h.biWidth && h.biWidth * 200 < 0x1_0000_0000 && h.biBitCount <= 200
    requires Area(ExactRow(h.biWidth, 200), Abs(h.biHeight)) <= 0x4000_0000
    ensures TotalSize(h) == Area(ExactRow(h.biWidth, h.biBitCount), Abs(h.biHeight)) <= 0x4000_0000
  {
    hide RowBytes, ExactRow;
    RowExact(h);
    TotalFits(Abs(h.biHeight), RowBytes(h), ExactRow(h.biWidth, 200));
  }

  lemma TotalFits(height: nat, row: nat, widest: nat)
    requires row <= widest && widest * height <= 0x4000_0000
    ensures ToU32(height * row) == row * height <= 0x4000_0000
  {
    MulMonotone(row, widest, height);
    MulMonotone(0, row, height);
  }

  /** Validation decides the exact conditions: no wrapped product lets a header through or keeps one out. */
  lemma ValidationExact(h: BitmapInfoHeader, cbSize: U32)
    ensures ValidateBitmapInfoHeader(h, cbSize) <==> ExactlyValid(h, cbSize)
  {
    if h.biWidth != 0 && h.biHeight != 0 && h.biBitCount <= 200 {
      WidthChecked(h.biWidth);
      hide MultiplyCheckOverflow, ToU32;
      if 0 < h.biWidth && h.biWidth * 200 < 0x1_0000_0000 {
        WidestRow(h.biWidth);
        hide RoundDown4, ExactRow;
        ImageFitsExactIff(ExactRow(h.biWidth, 200), Height(h.biHeight));
        hide ImageFits, TotalSize;
        if Area(ExactRow(h.biWidth, 200), Abs(h.biHeight)) <= 0x4000_0000 {
          TotalExact(h);
        }
        hide Area;
      }
    }
  }

  /** What users of an accepted header rely on: the padded row and the image size are exact and at most 1 GB, an RGB
      image with a size has room for it, and header, masks and colour table lie within cbSize. */
  lemma AcceptedIsSafe(h: BitmapInfoHeader, cbSize: U32)
    requires ValidateBitmapInfoHeader(h, cbSize)
    ensures h.biWidth > 0
    ensures RowBytes(h) == ExactRow(h.biWidth, h.biBitCount)
    ensures TotalSize(h) == Area(ExactRow(h.biWidth, h.biBitCount), Abs(h.biHeight)) <= 0x4000_0000
    ensures (h.biCompression == BI_RGB || h.biCompression == BI_BITFIELDS) && h.biSizeImage != 0 ==>
            TotalSize(h) <= h.biSizeImage
    ensures ColoursUsed(h) <= 256
    ensures h.biClrUsed == 0 && 0 < h.biBitCount <= 8 ==> h.biSize + 4 * Pow2(h.biBitCount) <= cbSize
    ensures h.biSize + 4 * h.biClrUsed + (if h.biCompression == BI_BITFIELDS then 12 else 0) <= cbSize
    ensures h.biSize + ColoursUsed(h) * 4 + (if h.biCompression == BI_BITFIELDS then 12 else 0) <= cbSize
  {
    ValidationExact(h, cbSize);
    hide ValidateBitmapInfoHeader;
    RowExact(h);
    TotalExact(h);
    hide RowBytes, TotalSize, ExactRow;
    Pow2Monotone(h.biBitCount, if h.biBitCount <= 8 then 8 else h.biBitCount);
    Square(4, 16);
  }
}
