/**
 WriteInt and ReadInt (pstream.cpp 121-190): integers in a stream of characters, twelve for each.
 */
module PStream {
  import opened Words
  import opened HResults

  // ---------- writing ----------

  function Digit(d: int): char
    requires 0 <= d < 10
  {
    "0123456789"[d]
  }

  /** The last k decimal digits of v. */
  function Digits(v: nat, k: nat): (s: string)
    ensures |s| == k
  {
    if k == 0 then "" else Digits(v / 10, k - 1) + [Digit(v % 10)]
  }

  /** "%011d ": zero-padded to eleven characters, the sign being one of them, and a space. */
  function Formatted(n: I32): (s: string)
    ensures |s| == 12
  {
    (if n < 0 then "-" + Digits(0 - n, 10) else Digits(n, 11)) + " "
  }

  // ---------- reading ----------

  /** What ReadInt leaves: its result code, the value it returns, and the position in the stream. */
  datatype Outcome = Outcome(hr: HRESULT, value: I32, pos: nat)

  predicate IsDigit(c: char) { '0' <= c <= '9' }

  predicate IsBlank(c: char) { c == ' ' || c == '\t' || c == '\r' || c == '\n' || c == '\0' }

  function DigitValue(c: char): (d: int)
    requires IsDigit(c)
    ensures 0 <= d < 10
  {
    c as int - '0' as int
  }

  /** The loop of ReadInt from here on; n is an unsigned int. */
  function Scan(data: string, pos: nat, n: U32, negative: bool): Outcome
    requires pos <= |data|
    decreases |data| - pos
  {
    if pos == |data| then Outcome(E_FAIL, 0, pos)
    else if IsDigit(data[pos]) then Scan(data, pos + 1, ToU32(10 * n + DigitValue(data[pos])), negative)
    else if IsBlank(data[pos]) then Outcome(S_OK, Signed(n, negative), pos + 1)
    else Outcome(VFW_E_INVALID_FILE_FORMAT, 0, pos + 1)
  }

  /** The signed result; -2^31, whose magnitude is no int, is treated apart. */
  function Signed(n: U32, negative: bool): I32 {
    if n == 0x8000_0000 && negative then ToI32(n) else if negative then 0 - ToI32(n) else ToI32(n)
  }

  function Read(data: string, pos: nat): Outcome
    requires pos <= |data|
  {
    if pos < |data| && data[pos] == '-' then Scan(data, pos + 1, 0, true) else Scan(data, pos, 0, false)
  }

  // ---------- streams that do not fail at their end ----------

  predicate LoneMinus(data: string, pos: nat) {
    pos + 1 == |data| && data[pos] == '-'
  }

  /** Where the digits begin. */
  function FirstDigit(data: string, pos: nat): nat {
    if pos < |data| && data[pos] == '-' then pos + 1 else pos
  }

  /** The character ReadInt looks at after k more reads; at the end a successful Read leaves the last one in place. */
  function InHand(data: string, pos: nat, k: nat): char
    requires pos < |data|
  {
    var i := FirstDigit(data, pos) + k;
    if i < |data| then data[i] else data[|data| - 1]
  }

  /** The loop of ReadInt comes to a character that ends it. */
  ghost predicate Returns(data: string, pos: nat)
    requires pos < |data|
  {
    exists k :: !IsDigit(InHand(data, pos, k))
  }

  ghost predicate Ends(data: string, pos: nat) {
    LoneMinus(data, pos) || exists i :: FirstDigit(data, pos) <= i < |data| && !IsDigit(data[i])
  }

  /** On a stream that answers S_FALSE at its end, ReadInt returns exactly if something but digits is to come;
      otherwise it takes the last digit again and again. */
  lemma ReturnsIff(data: string, pos: nat)
    requires pos < |data|
    ensures Returns(data, pos) <==> Ends(data, pos)
  {
    var start := FirstDigit(data, pos);
    if LoneMinus(data, pos) {
      assert !IsDigit(InHand(data, pos, 0));
    }
    if i :| start <= i < |data| && !IsDigit(data[i]) {
      assert InHand(data, pos, i - start) == data[i];
    }
  }

  lemma SevenIsReadForEver()
    ensures !Returns("7", 0)
  {
    ReturnsIff("7", 0);
  }

  /** What ReadInt answers; a minus that is the last character of such a stream is looked at again as a digit. */
  function Answer(data: string, pos: nat, fails: bool): Outcome
    requires pos <= |data|
  {
    if !fails && LoneMinus(data, pos) then Outcome(VFW_E_INVALID_FILE_FORMAT, 0, |data|) else Read(data, pos)
  }

  class IStream {
    const m_bFails: bool   // does Read fail at the end of the stream, or answer S_FALSE?
    var data: string
    var pos: nat

    ghost predicate Valid()
      reads this
    {
      pos <= |data|
    }

    constructor (fails: bool)
      ensures data == "" && pos == 0 && m_bFails == fails
    {
      m_bFails, data, pos := fails, "", 0;
    }

    method Write(s: string)
      modifies this`data
      ensures data == old(data) + s
    {
      data := data + s;
    }

    /** `held` is what the buffer of the caller holds before. */
    method ReadChar(held: char) returns (hr: HRESULT, wch: char)
      requires Valid()
      modifies this`pos
      ensures Valid()
      ensures old(pos) == |data| ==> hr == (if m_bFails then E_FAIL else S_FALSE) && wch == held && pos == old(pos)
      ensures old(pos) < |data| ==> hr == S_OK && wch == data[old(pos)] && pos == old(pos) + 1
    {
      if pos == |data| {
        return if m_bFails then E_FAIL else S_FALSE, held;
      }
      hr, wch := S_OK, data[pos];
      pos := pos + 1;
    }
  }

  method WriteInt(pIStream: IStream, n: I32)
    modifies pIStream`data
    ensures pIStream.data == old(pIStream.data) + Formatted(n)
  {
    pIStream.Write(Formatted(n));
  }

  method ReadInt(pIStream: IStream) returns (r: I32, hr: HRESULT)
    requires pIStream.Valid()
    requires pIStream.m_bFails || (pIStream.pos < |pIStream.data| && Ends(pIStream.data, pIStream.pos))
    modifies pIStream`pos
    ensures pIStream.Valid() && Outcome(hr, r, pIStream.pos)
            == Answer(pIStream.data, old(pIStream.pos), pIStream.m_bFails)
  {
    var negative := false;
    var n: U32 := 0;
    var wch := ' ';  // without a value in the source
    hr, wch := pIStream.ReadChar(wch);
    if hr.Failed() {
      return 0, hr;
    }
    if wch == '-' {
      negative := true;
      hr, wch := pIStream.ReadChar(wch);
      if hr.Failed() {
        return 0, hr;
      }
    }
    // the character in hand is the one before the position
    while true
      invariant 0 < pIStream.pos <= |pIStream.data| && wch == pIStream.data[pIStream.pos - 1]
      invariant if !pIStream.m_bFails && LoneMinus(pIStream.data, old(pIStream.pos))
                then wch == '-' && pIStream.pos == |pIStream.data|
                else Scan(pIStream.data, pIStream.pos - 1, n, negative) == Read(pIStream.data, old(pIStream.pos))
      invariant pIStream.m_bFails || LoneMinus(pIStream.data, old(pIStream.pos))
                || exists i :: pIStream.pos - 1 <= i < |pIStream.data| && !IsDigit(pIStream.data[i])
      decreases |pIStream.data| - pIStream.pos
    {
      if '0' <= wch <= '9' {
        n := ToU32(10 * n + (wch as int - '0' as int));
      } else if wch == ' ' || wch == '\t' || wch == '\r' || wch == '\n' || wch == '\0' {
        break;
      } else {
        return 0, VFW_E_INVALID_FILE_FORMAT;
      }
      hr, wch := pIStream.ReadChar(wch);
      if hr.Failed() {
        return 0, hr;
      }
    }
    if n == 0x8000_0000 && negative {
      // -2^31, whose magnitude is no int
      return ToI32(n), S_OK;
    } else {
      return if negative then 0 - ToI32(n) else ToI32(n), S_OK;
    }
  }

  // ---------- what is read ----------

  predicate AllDigits(s: string) {
    forall i :: 0 <= i < |s| ==> IsDigit(s[i])
  }

  /** The number that a string of digits continues, in decimal. */
  function Decimal(n: nat, s: string): nat
    requires AllDigits(s)
    decreases |s|
  {
    if s == "" then n else Decimal(10 * n + DigitValue(s[0]), s[1..])
  }

  /** Any number of digits and a blank: the value is the decimal one, modulo 2^32. */
  lemma {:induction false} ScanDigits(data: string, pos: nat, s: string, n: nat, negative: bool)
    requires AllDigits(s) && pos + |s| < |data| && data[pos..pos + |s|] == s && IsBlank(data[pos + |s|])
    ensures Scan(data, pos, ToU32(n), negative) == Outcome(S_OK, Signed(ToU32(Decimal(n, s)), negative), pos + |s| + 1)
    decreases |s|
  {
    if s != "" {
      assert data[pos] == s[0] && data[pos + 1..pos + |s|] == s[1..];
      DigitByDigit(n, DigitValue(s[0]));
      ScanDigits(data, pos + 1, s[1..], 10 * n + DigitValue(s[0]), negative);
    }
  }

  lemma DigitByDigit(n: nat, d: nat)
    ensures ToU32(10 * ToU32(n) + d) == ToU32(10 * n + d)
  {
    var q := n / 0x1_0000_0000;
    assert 10 * n + d == 10 * q * 0x1_0000_0000 + (10 * ToU32(n) + d);
    hide ToU32;
    Shift(10 * q, 10 * ToU32(n) + d);
  }

  lemma Shift(k: nat, x: nat)
    ensures ToU32(k * 0x1_0000_0000 + x) == ToU32(x)
  {
  }

  /** Both signs come out as the number modulo 2^32, read as an int. */
  lemma SignedIs(n: nat, negative: bool)
    ensures Signed(ToU32(n), negative) == ToI32(if negative then 0 - n else n)
  {
  }

  // ---------- the round trip ----------

  lemma {:induction false} DecimalNext(n: nat, s: string, c: char)
    requires AllDigits(s) && IsDigit(c)
    ensures AllDigits(s + [c]) && Decimal(n, s + [c]) == 10 * Decimal(n, s) + DigitValue(c)
    decreases |s|
  {
    if s == "" {
      assert (s + [c])[1..] == "";
    } else {
      DecimalNext(10 * n + DigitValue(s[0]), s[1..], c);
      assert (s + [c])[1..] == s[1..] + [c];
    }
  }

  function Pow10(k: nat): nat {
    if k == 0 then 1 else 10 * Pow10(k - 1)
  }

  /** Digits are the decimal expansion. */
  lemma {:induction false} DigitsDecimal(v: nat, k: nat)
    requires v < Pow10(k)
    ensures AllDigits(Digits(v, k)) && Decimal(0, Digits(v, k)) == v
  {
    if k > 0 {
      DigitsDecimal(v / 10, k - 1);
      DecimalNext(0, Digits(v / 10, k - 1), Digit(v % 10));
      assert DigitValue(Digit(v % 10)) == v % 10;
    }
  }

  lemma TenDigits()
    ensures Pow10(10) == 10_000_000_000 && Pow10(11) == 100_000_000_000
  {
    assert Pow10(5) == 100_000;
    assert Pow10(10) == 100_000 * Pow10(5);
  }

  /** What WriteInt puts at a position ReadInt reads back, and stops right behind it. */
  lemma ReadFormatted(data: string, pos: nat, n: I32)
    requires pos + 12 <= |data| && data[pos..pos + 12] == Formatted(n)
    ensures Read(data, pos) == Outcome(S_OK, n, pos + 12)
  {
    TenDigits();
    if n < 0 {
      ReadNegative(data, pos, 0 - n);
    } else {
      ReadPositive(data, pos, n);
    }
  }

  /** A part of a text that is found in the data. */
  lemma Part(data: string, pos: nat, text: string, lo: nat, hi: nat)
    requires pos + |text| <= |data| && data[pos..pos + |text|] == text && lo < hi <= |text|
    ensures data[pos + lo..pos + hi] == text[lo..hi] && data[pos + lo] == text[lo]
  {
    var part := data[pos + lo..pos + hi];
    assert forall i :: 0 <= i < |text| ==> text[i] == data[pos + i];
    forall i | 0 <= i < |part|
      ensures part[i] == text[lo..hi][i]
    {
      assert text[lo + i] == data[pos + (lo + i)];
    }
  }

  lemma ReadNegative(data: string, pos: nat, v: nat)
    requires 0 < v <= 0x8000_0000 && v < Pow10(10) && pos + 12 <= |data|
             && data[pos..pos + 12] == "-" + Digits(v, 10) + " "
    ensures Read(data, pos) == Outcome(S_OK, 0 - v, pos + 12)
  {
    var s := Digits(v, 10);
    var text := "-" + s + " ";
    DigitsDecimal(v, 10);
    hide Digits, Pow10, Decimal, Scan, Signed;
    Part(data, pos, text, 0, 1);
    Part(data, pos, text, 1, 11);
    Part(data, pos, text, 11, 12);
    assert text[0] == '-' && text[1..11] == s && text[11] == ' ';
    ReadDigits(data, pos + 1, s, v, true);
  }

  lemma ReadPositive(data: string, pos: nat, v: nat)
    requires v < 0x8000_0000 && v < Pow10(11) && pos + 12 <= |data| && data[pos..pos + 12] == Digits(v, 11) + " "
    ensures Read(data, pos) == Outcome(S_OK, v, pos + 12)
  {
    var s := Digits(v, 11);
    var text := s + " ";
    DigitsDecimal(v, 11);
    hide Digits, Pow10, Decimal, Scan, Signed;
    Part(data, pos, text, 0, 11);
    Part(data, pos, text, 11, 12);
    assert text[..11] == s && text[0] == s[0] && text[11] == ' ' && IsDigit(s[0]);
    ReadDigits(data, pos, s, v, false);
  }

  lemma ReadDigits(data: string, pos: nat, s: string, v: nat, negative: bool)
    requires AllDigits(s) && Decimal(0, s) == v && v <= (if negative then 0x8000_0000 else 0x7FFF_FFFF)
    requires pos + |s| < |data| && data[pos..pos + |s|] == s && data[pos + |s|] == ' '
    ensures Scan(data, pos, 0, negative) == Outcome(S_OK, if negative then 0 - v else v, pos + |s| + 1)
  {
    hide Scan, Signed, Decimal, ToU32, ToI32;
    InRange(v, negative);
    ScanDigits(data, pos, s, 0, negative);
    SignedIs(v, negative);
  }

  lemma InRange(v: nat, negative: bool)
    requires v <= if negative then 0x8000_0000 else 0x7FFF_FFFF
    ensures ToU32(0) == 0 && ToI32(if negative then 0 - v else v) == if negative then 0 - v else v
  {
  }

  function Stream(ns: seq<I32>): (s: string)
    ensures |s| == 12 * |ns|
  {
    if ns == [] then "" else Stream(ns[..|ns| - 1]) + Formatted(ns[|ns| - 1])
  }

  /** Every integer of a stream of integers, wherever it starts, whatever its sign. */
  lemma {:induction false} RoundTrip(ns: seq<I32>, more: string, i: nat)
    requires i < |ns|
    ensures Read(Stream(ns) + more, 12 * i) == Outcome(S_OK, ns[i], 12 * (i + 1))
    decreases |ns|
  {
    var front, last := ns[..|ns| - 1], ns[|ns| - 1];
    var data := Stream(ns) + more;
    if i < |ns| - 1 {
      RoundTrip(front, Formatted(last) + more, i);
      assert data == Stream(front) + (Formatted(last) + more);
    } else {
      assert data[12 * i..12 * i + 12] == Formatted(last);
      ReadFormatted(data, 12 * i, last);
    }
  }
}
