/** Decimal digits and UTF-16 text. */
module Text {
  // ---------------------------------------------------------------------
  // Decimal digits
  // ---------------------------------------------------------------------

  predicate IsDigit(c: char) {
    '0' <= c <= '9'
  }

  predicate AllDigits(s: string) {
    forall i | 0 <= i < |s| :: IsDigit(s[i])
  }

  function DigitValue(c: char): nat
    requires IsDigit(c)
  {
    c as int - '0' as int
  }

  function DigitChar(d: nat): (c: char)
    requires d < 10
    ensures IsDigit(c) && DigitValue(c) == d
  {
    ('0' as int + d) as char
  }

  function Pow10(n: nat): (p: nat)
    ensures p >= 1
  {
    if n == 0 then 1 else 10 * Pow10(n - 1)
  }

  /** The number a digit string denotes, read from the most significant digit. */
  function Number(s: string): nat
    requires AllDigits(s)
  {
    if s == [] then 0 else 10 * Number(s[..|s| - 1]) + DigitValue(s[|s| - 1])
  }

  /** The decimal text of a number, without leading zeros. */
  function Digits(n: nat): (s: string)
    ensures |s| >= 1 && AllDigits(s)
  {
    if n < 10 then [DigitChar(n)] else Digits(n / 10) + [DigitChar(n % 10)]
  }

  lemma {:induction false} NumberOfDigits(n: nat)
    ensures Number(Digits(n)) == n
  {
    if n >= 10 {
      NumberOfDigits(n / 10);
      assert Digits(n)[..|Digits(n)| - 1] == Digits(n / 10);
    }
  }

  lemma Distribute(n: nat, p: nat, m: nat, d: nat)
    ensures 10 * (n * p + m) + d == n * (10 * p) + (10 * m + d)
  {
  }

  lemma {:induction false} NumberOfConcat(s: string, t: string)
    requires AllDigits(s) && AllDigits(t)
    ensures AllDigits(s + t)
    ensures Number(s + t) == Number(s) * Pow10(|t|) + Number(t)
  {
    if t == [] {
      assert s + t == s;
    } else {
      var front, last := t[..|t| - 1], DigitValue(t[|t| - 1]);
      NumberOfConcat(s, front);
      assert (s + t)[..|s + t| - 1] == s + front;
      Distribute(Number(s), Pow10(|front|), Number(front), last);
    }
  }

  /** Number of digits a text starts with. */
  function DigitSpan(s: string): (n: nat)
    ensures n <= |s| && AllDigits(s[..n])
  {
    if s == "" || !IsDigit(s[0]) then 0 else 1 + DigitSpan(s[1..])
  }

  lemma {:induction false} SpanOfDigits(d: string, rest: string)
    requires AllDigits(d) && (rest == "" || !IsDigit(rest[0]))
    ensures DigitSpan(d + rest) == |d|
  {
    if d == "" {
      assert d + rest == rest;
    } else {
      SpanOfDigits(d[1..], rest);
      assert (d + rest)[1..] == d[1..] + rest;
    }
  }

  /** Text of `n` zeros. */
  function Zeros(n: nat): (s: string)
    ensures |s| == n && AllDigits(s)
  {
    seq(n, _ => '0')
  }

  lemma {:induction false} NumberOfZeros(n: nat)
    ensures Number(Zeros(n)) == 0
  {
    if n > 0 {
      NumberOfZeros(n - 1);
      assert Zeros(n)[..n - 1] == Zeros(n - 1);
    }
  }

  // ---------------------------------------------------------------------
  // UTF-16 (RFC 2781)
  // ---------------------------------------------------------------------

  type Unit = u: int | 0 <= u < 0x1_0000

  predicate IsHigh(u: Unit) {
    0xD800 <= u < 0xDC00
  }

  predicate IsLow(u: Unit) {
    0xDC00 <= u < 0xE000
  }

  const REPLACEMENT: char := '\U{FFFD}'

  function EncodeChar(c: char): (units: seq<Unit>)
    ensures |units| == if c as int < 0x1_0000 then 1 else 2
  {
    var code := c as int;
    if code < 0x1_0000 then [code]
    else [0xD800 + (code - 0x1_0000) / 0x400, 0xDC00 + (code - 0x1_0000) % 0x400]
  }

  function EncodeUtf16(s: string): seq<Unit> {
    if s == [] then [] else EncodeChar(s[0]) + EncodeUtf16(s[1..])
  }

  function Joined(high: int, low: int): char
    requires 0xD800 <= high < 0xDC00 && 0xDC00 <= low < 0xE000
  {
    (0x1_0000 + (high - 0xD800) * 0x400 + (low - 0xDC00)) as char
  }

  /** Decoding replaces each unpaired surrogate by U+FFFD. */
  function DecodeUtf16(units: seq<Unit>): string {
    if units == [] then []
    else if IsHigh(units[0]) && |units| > 1 && IsLow(units[1]) then
      [Joined(units[0], units[1])] + DecodeUtf16(units[2..])
    else if IsHigh(units[0]) || IsLow(units[0]) then
      [REPLACEMENT] + DecodeUtf16(units[1..])
    else
      [units[0] as char] + DecodeUtf16(units[1..])
  }

  /**
   A character up to U+FFFF is one unit, itself; one above is a pair of a high and a low surrogate that hold
   the upper and the lower ten bits of its code less 0x10000 (section 2.1 of RFC 2781).
   */
  lemma UnitsOfChar(c: char)
    ensures c as int < 0x1_0000 ==> EncodeChar(c) == [c as int]
    ensures c as int >= 0x1_0000 ==>
      var units := EncodeChar(c);
      && |units| == 2 && 0xD800 <= units[0] <= 0xDBFF && 0xDC00 <= units[1] <= 0xDFFF
      && c as int == 0x1_0000 + (units[0] as int - 0xD800) * 1024 + (units[1] as int - 0xDC00)
  {
  }

  /** A surrogate alone decodes to the replacement character. */
  lemma LoneSurrogate(u: Unit)
    requires 0xD800 <= u <= 0xDFFF
    ensures DecodeUtf16([u]) == "\U{FFFD}"
  {
    assert [u][1..] == [];
  }

  lemma {:induction false} DecodeEncoded(s: string)
    ensures DecodeUtf16(EncodeUtf16(s)) == s
  {
    if s != [] {
      var head, tail := EncodeChar(s[0]), EncodeUtf16(s[1..]);
      DecodeEncoded(s[1..]);
      assert (head + tail)[|head|..] == tail;
      assert s == [s[0]] + s[1..];
    }
  }

  /** Number of UTF-16 code units, counted without encoding: one per character, two above U+FFFF. */
  function Utf16Length(s: string): nat {
    if s == [] then 0 else (if s[0] as int < 0x1_0000 then 1 else 2) + Utf16Length(s[1..])
  }

  lemma {:induction false} EncodedLength(s: string)
    ensures |EncodeUtf16(s)| == Utf16Length(s)
  {
    if s != [] {
      EncodedLength(s[1..]);
    }
  }

  /** Every surrogate is half of a high-low pair. */
  predicate Paired(units: seq<Unit>) {
    if units == [] then true
    else if IsHigh(units[0]) then |units| > 1 && IsLow(units[1]) && Paired(units[2..])
    else !IsLow(units[0]) && Paired(units[1..])
  }

  /** Decoding loses nothing exactly on text without unpaired surrogates. */
  lemma {:induction false} EncodeDecoded(units: seq<Unit>)
    ensures EncodeUtf16(DecodeUtf16(units)) == units <==> Paired(units)
  {
    if units != [] {
      var text := DecodeUtf16(units);
      var code := EncodeUtf16(text);
      assert code == EncodeChar(text[0]) + EncodeUtf16(text[1..]);
      if IsHigh(units[0]) && |units| > 1 && IsLow(units[1]) {
        EncodeDecoded(units[2..]);
        assert text[1..] == DecodeUtf16(units[2..]);
        assert EncodeChar(text[0]) == units[..2];
        assert code[2..] == EncodeUtf16(text[1..]);
        assert units == units[..2] + units[2..];
      } else {
        EncodeDecoded(units[1..]);
        assert text[1..] == DecodeUtf16(units[1..]);
        assert code[0] == text[0] as int;
        assert code[1..] == EncodeUtf16(text[1..]);
        assert units == units[..1] + units[1..];
      }
    }
  }
}
