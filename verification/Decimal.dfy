/** Decimal strings: how amounts, liquidation factors and prices travel between the programs. */
module Decimal {
  import opened Prelude

  const DIGITS: string := "0123456789"

  function Digit(d: nat): char
    requires d < 10
  {
    DIGITS[d]
  }

  predicate IsDigit(c: char) {
    '0' <= c <= '9'
  }

  predicate AllDigits(s: string) {
    forall i | 0 <= i < |s| :: IsDigit(s[i])
  }

  function DigitValue(c: char): (d: nat)
    requires IsDigit(c)
    ensures d < 10
  {
    c as int - '0' as int
  }

  function Pow10(n: nat): (p: nat)
    ensures p > 0
  {
    if n == 0 then 1 else 10 * Pow10(n - 1)
  }

  /** big.Int.String and viem's bigint printing on non-negative numbers. */
  function Print(n: nat): string {
    if n < 10 then [Digit(n)] else Print(n / 10) + [Digit(n % 10)]
  }

  function DigitsValue(s: string): nat
    requires AllDigits(s)
  {
    if s == [] then 0 else 10 * DigitsValue(s[..|s| - 1]) + DigitValue(s[|s| - 1])
  }

  /** big.Int.SetString(s, 10) and BigInt(s) on unsigned digit strings. */
  function Parse(s: string): Option<nat> {
    if s != [] && AllDigits(s) then Some(DigitsValue(s)) else None
  }

  /**
   strconv.ParseUint(s, 10, 64) with its error dropped: a syntax error leaves 0 and a range
   error leaves the largest uint64.
   */
  function ParseUint64(s: string): uint64 {
    match Parse(s)
    case None => 0
    case Some(v) => if v < POW64 then v else POW64 - 1
  }

  lemma DigitAppended(s: string, d: nat)
    requires AllDigits(s) && d < 10
    ensures AllDigits(s + [Digit(d)]) && DigitsValue(s + [Digit(d)]) == 10 * DigitsValue(s) + d
  {
    assert (s + [Digit(d)])[..|s|] == s;
    DigitRoundTrip(d);
  }

  lemma DigitRoundTrip(d: nat)
    requires d < 10
    ensures IsDigit(Digit(d)) && DigitValue(Digit(d)) == d
  {
  }

  lemma {:induction false} PrintedDigits(n: nat)
    ensures Print(n) != [] && AllDigits(Print(n)) && DigitsValue(Print(n)) == n
  {
    if n < 10 {
      DigitAppended([], n);
      assert [] + [Digit(n)] == Print(n);
    } else {
      PrintedDigits(n / 10);
      DigitAppended(Print(n / 10), n % 10);
    }
  }

  /** Printing then parsing is the identity at every magnitude. */
  lemma PrintParse(n: nat)
    ensures Parse(Print(n)) == Some(n)
  {
    PrintedDigits(n);
  }

  /** A 64-bit saturating parse of a printed number keeps its sign, however large it is. */
  lemma SaturatingParseKeepsPositivity(n: nat)
    ensures ParseUint64(Print(n)) > 0 <==> n > 0
  {
    PrintParse(n);
  }

  /** What the 64-bit parse makes of printed numbers and of texts that are none. */
  lemma SaturatingParse(n: nat, text: string)
    ensures ParseUint64(Print(n)) == if n <= 0xFFFF_FFFF_FFFF_FFFF then n else 0xFFFF_FFFF_FFFF_FFFF
    ensures text == "" || !AllDigits(text) ==> ParseUint64(text) == 0
  {
    PrintParse(n);
  }

  lemma {:induction false} PrintedLength(n: nat, d: nat)
    requires d > 0 && n < Pow10(d)
    ensures |Print(n)| <= d
  {
    if n >= 10 {
      assert d > 1;
      PrintedLength(n / 10, d - 1);
    }
  }

  // ---- formatPrice ----

  /** big.Int.Exp(10, decimals) without a modulus, which is 1 for a non-positive exponent. */
  function Scale(decimals: int): (p: nat)
    ensures p > 0
  {
    if decimals <= 0 then 1 else Pow10(decimals)
  }

  /** Quotient and remainder by the scale, as big.Int.QuoRem returns them on naturals. */
  function QuoRem(value: nat, d: nat): (qr: (nat, nat))
    requires d > 0
    ensures value == qr.0 * d + qr.1 && qr.1 < d
  {
    (value / d, value % d)
  }

  /** The text formatPrice is meant to produce: quotient, point, remainder padded to the scale. */
  function PriceText(value: nat, decimals: int): string {
    if decimals == 0 then Print(value)
    else
      var (whole, rest) := QuoRem(value, Scale(decimals));
      Print(whole) + "." + PadTo(Print(rest), decimals)
  }

  /** Zeros in front until the text has the wanted length; longer texts stay. */
  function PadTo(text: string, length: int): string {
    (if |text| < length then Repeat('0', length - |text|) else "") + text
  }

  lemma {:induction false} LeadingZeros(n: nat, s: string)
    requires AllDigits(s)
    ensures AllDigits(Repeat('0', n) + s) && DigitsValue(Repeat('0', n) + s) == DigitsValue(s)
  {
    if s != [] {
      LeadingZeros(n, s[..|s| - 1]);
      assert (Repeat('0', n) + s)[..n + |s| - 1] == Repeat('0', n) + s[..|s| - 1];
    } else if n > 0 {
      LeadingZeros(n - 1, s);
      assert (Repeat('0', n) + s)[..n - 1] == Repeat('0', n - 1) + s;
    }
  }

  /** The index of the first point, or the length if there is none. */
  function PointAt(s: string): (i: nat)
    ensures i <= |s|
  {
    if s == [] || s[0] == '.' then 0 else 1 + PointAt(s[1..])
  }

  /** A reader of printed prices that knows only that digits after the point count as the scale says. */
  function ReadPrice(s: string, decimals: int): Option<nat> {
    var i := PointAt(s);
    if i == |s| || decimals < 0 then Parse(s[..i]) else Parse(s[..i] + s[i + 1..])
  }

  lemma {:induction false} PointAfterDigits(a: string, b: string)
    requires AllDigits(a)
    ensures PointAt(a + "." + b) == |a| && PointAt(a) == |a|
  {
    if a != [] {
      assert (a + "." + b)[1..] == a[1..] + "." + b;
      PointAfterDigits(a[1..], b);
    }
  }

  /** The padded remainder has exactly `decimals` digits (one for a negative scale) and keeps its value. */
  lemma PriceFraction(rest: nat, decimals: int)
    requires decimals != 0 && rest < Scale(decimals)
    ensures var frac := PadTo(Print(rest), decimals);
      && |frac| == (if decimals > 0 then decimals else 1)
      && AllDigits(frac) && DigitsValue(frac) == rest
  {
    PrintedDigits(rest);
    if |Print(rest)| < decimals {
      LeadingZeros(decimals - |Print(rest)|, Print(rest));
    } else {
      assert PadTo(Print(rest), decimals) == Print(rest);
    }
    if decimals > 0 {
      PrintedLength(rest, decimals);
    }
  }

  lemma {:induction false} DigitsJoined(a: string, b: string)
    requires AllDigits(a) && AllDigits(b)
    ensures AllDigits(a + b) && DigitsValue(a + b) == DigitsValue(a) * Pow10(|b|) + DigitsValue(b)
    decreases |b|
  {
    if b == [] {
      assert a + b == a;
    } else {
      var init := b[..|b| - 1];
      DigitsJoined(a, init);
      assert (a + b)[..|a + b| - 1] == a + init && (a + b)[|a + b| - 1] == b[|b| - 1];
      ShiftDigit(DigitsValue(a), Pow10(|init|), DigitsValue(init), DigitValue(b[|b| - 1]));
    }
  }

  lemma ShiftDigit(a: nat, p: nat, b: nat, d: nat)
    ensures 10 * (a * p + b) + d == a * (10 * p) + (10 * b + d)
  {
  }

  /** Only zero is printed with a zero in front. */
  lemma {:induction false} NoLeadingZero(n: nat)
    ensures Print(0) == "0" && Print(n) != [] && (n > 0 ==> Print(n)[0] != '0')
  {
    if n >= 10 {
      NoLeadingZero(n / 10);
      assert Print(n)[0] == Print(n / 10)[0];
    }
  }

  /** The text without the character `decimals` places before its end. */
  function WithoutPoint(s: string, decimals: nat): string
    requires |s| > decimals
  {
    s[..|s| - decimals - 1] + s[|s| - decimals..]
  }

  /** The point stands `decimals` places before the end, and leaving it out leaves the raw value. */
  ghost predicate PointBefore(s: string, value: nat, decimals: nat) {
    && |s| >= decimals + 2 && s[|s| - decimals - 1] == '.'
    && AllDigits(WithoutPoint(s, decimals)) && DigitsValue(WithoutPoint(s, decimals)) == value
    && (s[0] == '0' ==> |s| == decimals + 2)
  }

  /** What a price text must be at each scale. */
  ghost predicate Prices(s: string, value: nat, decimals: int) {
    if decimals > 0 then PointBefore(s, value, decimals)
    else if decimals < 0 then s == Print(value) + ".0"
    else s == Print(value)
  }

  lemma JoinedAtPoint(a: string, b: string, value: nat)
    requires a != [] && AllDigits(a) && AllDigits(b) && value == DigitsValue(a) * Pow10(|b|) + DigitsValue(b)
    requires a[0] == '0' ==> |a| == 1
    ensures PointBefore(a + "." + b, value, |b|)
  {
    var s := a + "." + b;
    assert s[..|s| - |b| - 1] == a && s[|s| - |b|..] == b;
    DigitsJoined(a, b);
  }

  /** The printed text is as it must be, at every scale. */
  lemma PriceTextPrices(value: nat, decimals: int)
    ensures Prices(PriceText(value, decimals), value, decimals)
  {
    if decimals != 0 {
      var (whole, rest) := QuoRem(value, Scale(decimals));
      PriceFraction(rest, decimals);
      PrintedDigits(whole);
      NoLeadingZero(whole);
      if decimals > 0 {
        JoinedAtPoint(Print(whole), PadTo(Print(rest), decimals), value);
      } else {
        assert whole == value && rest == 0;
      }
    }
  }

  lemma SplitAtPoint(a: string, b: string)
    requires AllDigits(a)
    ensures var s := a + "." + b;
      PointAt(s) == |a| && s[..|a|] == a && s[|a| + 1..] == b
  {
    PointAfterDigits(a, b);
  }

  lemma ReadsSplit(a: string, b: string, decimals: int)
    requires AllDigits(a)
    ensures ReadPrice(a + "." + b, decimals) == Parse(if decimals < 0 then a else a + b)
  {
    SplitAtPoint(a, b);
  }

  /** A printed price determines the raw feed value exactly, for every value and scale. */
  lemma PriceReadsBack(value: nat, decimals: int)
    ensures ReadPrice(PriceText(value, decimals), decimals) == Some(value)
  {
    if decimals == 0 {
      PrintedDigits(value);
      PointAfterDigits(Print(value), "");
      assert Print(value)[..|Print(value)|] == Print(value);
    } else {
      var (whole, rest) := QuoRem(value, Scale(decimals));
      PriceFraction(rest, decimals);
      PrintedDigits(whole);
      ReadsSplit(Print(whole), PadTo(Print(rest), decimals), decimals);
      DigitsJoined(Print(whole), PadTo(Print(rest), decimals));
    }
  }

  /** The enclave's formatPrice, for every int8 scale. */
  method FormatPrice(value: nat, decimals: int8) returns (s: string)
    ensures s == PriceText(value, decimals)
  {
    if decimals == 0 {
      return Print(value);
    }
    var (q, r) := QuoRem(value, Scale(decimals));
    var frac := Print(r);
    while |frac| < decimals
      invariant PadTo(frac, decimals) == PadTo(Print(r), decimals)
      decreases decimals - |frac|
    {
      assert Repeat('0', decimals - |frac|) + frac == Repeat('0', decimals - |frac| - 1) + ("0" + frac);
      frac := "0" + frac;
    }
    s := Print(q) + "." + frac;
  }
}
