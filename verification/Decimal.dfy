/** The text of an Arrow decimal (src/bulk_arrow.rs). */
module Decimal {
  import opened Wrappers
  import opened Text

  const I128_MIN: int := -0x8000_0000_0000_0000_0000_0000_0000_0000
  const I128_MAX: int := 0x7FFF_FFFF_FFFF_FFFF_FFFF_FFFF_FFFF_FFFF

  function IntegerText(raw: int): string {
    if raw < 0 then "-" + Digits(-raw) else Digits(raw)
  }

  /** Reads digits with an optional fraction: all digits as one number, and the fraction's length. */
  function ReadUnsigned(s: string): Option<(nat, nat)> {
    var n := DigitSpan(s);
    if n == 0 then None
    else if n == |s| then Some((Number(s), 0))
    else if s[n] == '.' && n + 1 < |s| && AllDigits(s[n + 1..]) then
      assert AllDigits(s[..n] + s[n + 1..]);
      Some((Number(s[..n] + s[n + 1..]), |s| - n - 1))
    else None
  }

  function Signed(negative: bool, magnitude: int): int {
    if negative then -magnitude else magnitude
  }

  /** A decimal text denotes `coefficient * 10^-fraction`; it has at least one integer digit. */
  function Read(s: string): Option<(int, nat)> {
    var negative := s != "" && s[0] == '-';
    match ReadUnsigned(if negative then s[1..] else s)
    case None => None
    case Some((c, f)) => Some((Signed(negative, c), f))
  }

  lemma ReadWhole(s: string)
    requires s != "" && AllDigits(s)
    ensures ReadUnsigned(s) == Some((Number(s), 0))
  {
    assert s + "" == s;
    SpanOfDigits(s, "");
  }

  lemma ReadFraction(whole: string, fraction: string)
    requires whole != "" && fraction != "" && AllDigits(whole) && AllDigits(fraction)
    ensures AllDigits(whole + fraction)
    ensures ReadUnsigned(whole + "." + fraction) == Some((Number(whole + fraction), |fraction|))
  {
    var s := whole + "." + fraction;
    assert s == whole + ("." + fraction);
    SpanOfDigits(whole, "." + fraction);
    assert s[..|whole|] == whole && s[|whole| + 1..] == fraction;
  }

  lemma ReadSigned(raw: int, mag: string, fraction: nat)
    requires mag != "" && IsDigit(mag[0])
    requires ReadUnsigned(mag) == Some((if raw < 0 then -raw else raw, fraction))
    ensures Read(if raw < 0 then "-" + mag else mag) == Some((raw, fraction))
  {
    if raw < 0 {
      assert ("-" + mag)[1..] == mag;
    }
  }

  lemma LeadingZeros(n: nat, mag: string)
    requires AllDigits(mag)
    ensures AllDigits(Zeros(n) + mag) && Number("0" + (Zeros(n) + mag)) == Number(mag)
  {
    NumberOfZeros(n);
    NumberOfConcat(Zeros(n), mag);
    NumberOfConcat("0", Zeros(n) + mag);
    assert "0"[..0] == "";
    assert Number("0") == 0;
  }

  function PointAt(mag: string, scale: nat): string {
    if |mag| > scale then mag[..|mag| - scale] + "." + mag[|mag| - scale..]
    else "0." + (Zeros(scale - |mag|) + mag)
  }

  lemma PointAfterZeros(mag: string, scale: nat)
    requires mag != "" && AllDigits(mag) && scale >= |mag|
    ensures ReadUnsigned("0." + (Zeros(scale - |mag|) + mag)) == Some((Number(mag), scale))
  {
    hide *;
    var fraction := Zeros(scale - |mag|) + mag;
    LeadingZeros(scale - |mag|, mag);
    PointAfterZero(fraction);
  }

  lemma PointAfterZero(fraction: string)
    requires fraction != "" && AllDigits(fraction)
    ensures ReadUnsigned("0." + fraction) == Some((Number("0" + fraction), |fraction|))
  {
    ReadFraction("0", fraction);
    hide *;
    assert "0" + "." == "0.";
  }

  /** Placing the point leaves the number and makes `scale` of its digits a fraction. */
  lemma PointedText(mag: string, scale: nat)
    requires mag != "" && AllDigits(mag) && scale > 0
    ensures PointAt(mag, scale) != "" && IsDigit(PointAt(mag, scale)[0])
    ensures ReadUnsigned(PointAt(mag, scale)) == Some((Number(mag), scale))
  {
    hide ReadUnsigned;
    hide Number;
    hide Zeros;
    if |mag| > scale {
      var split := |mag| - scale;
      assert mag[..split] + mag[split..] == mag;
      ReadFraction(mag[..split], mag[split..]);
    } else {
      PointAfterZeros(mag, scale);
    }
  }

  /** An integer text followed by zeros denotes the integer times a power of ten. */
  lemma ScaledInteger(raw: int, n: nat)
    ensures Read(IntegerText(raw) + Zeros(n)) == Some((raw * Pow10(n), 0))
  {
    hide ReadUnsigned;
    hide Read;
    var m: nat := if raw < 0 then -raw else raw;
    var mag := Digits(m) + Zeros(n);
    NumberOfDigits(m);
    NumberOfZeros(n);
    NumberOfConcat(Digits(m), Zeros(n));
    ReadWhole(mag);
    SignOfProduct(raw, Pow10(n));
    ReadSigned(raw * Pow10(n), mag, 0);
    assert IntegerText(raw) + Zeros(n) == if raw < 0 then "-" + mag else mag;
  }

  lemma SignOfProduct(raw: int, p: nat)
    requires p >= 1
    ensures raw < 0 <==> raw * p < 0
    ensures raw < 0 ==> -(raw * p) == (-raw) * p
  {
  }

  /**
   The text denotes `raw * 10^-scale`. With a positive scale it has exactly `scale` fraction digits,
   so coefficient and scale can be read off it.
   */
  method FormatDecimal128(raw: int, scale: int) returns (s: string)
    requires I128_MIN <= raw <= I128_MAX && -128 <= scale <= 127
    ensures scale > 0 ==> Read(s) == Some((raw, scale as nat))
    ensures scale <= 0 ==> Read(s) == Some((raw * Pow10(-scale), 0))
  {
    hide ReadUnsigned;
    hide Read;
    if scale <= 0 {
      s := IntegerText(raw);
      for i := 0 to -scale
        invariant s == IntegerText(raw) + Zeros(i)
      {
        s := s + "0";
      }
      ScaledInteger(raw, -scale);
      return;
    }
    var mag := if raw < 0 then -raw else raw;
    s := PointAt(Digits(mag), scale);
    PointedText(Digits(mag), scale);
    NumberOfDigits(mag);
    ReadSigned(raw, s, scale);
    if raw < 0 {
      s := "-" + s;
    }
  }

  /**
   The text a `Decimal128` cell is parsed from: negative scales are refused, so of the two forms above
   only those for scale 0 and more reach the parser, and they carry coefficient and scale.
   */
  method Decimal128Text(raw: int, scale: int) returns (r: Result<string>)
    requires I128_MIN <= raw <= I128_MAX && -128 <= scale <= 127
    ensures r.Ok? <==> scale >= 0
    ensures r.Err? ==> r.error == Usage(Negative)
    ensures r.Ok? ==> Read(r.value) == Some((raw, scale as nat))
  {
    if scale < 0 {
      return Err(Usage(Negative));
    }
    hide Read;
    var text := FormatDecimal128(raw, scale);
    r := Ok(text);
  }
}
