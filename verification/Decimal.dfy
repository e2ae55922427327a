/** Decimal text: Python's `str` of a non-negative integer, and the exact token
    amount printer `format_token_amount` of scenarios/scenario_support.py. */
module Decimal {

  function Pow10(n: nat): (p: nat)
    ensures p > 0
  {
    if n == 0 then 1 else 10 * Pow10(n - 1)
  }

  predicate IsDigit(c: char) {
    '0' <= c <= '9'
  }

  predicate AllDigits(s: string) {
    forall i :: 0 <= i < |s| ==> IsDigit(s[i])
  }

  function Digit(d: nat): char
    requires d < 10
  {
    '0' + d as char
  }

  function DigitValue(c: char): nat {
    if IsDigit(c) then c as nat - '0' as nat else 0
  }

  /** Python's `str`. */
  function Str(n: nat): string {
    if n < 10 then [Digit(n)] else Str(n / 10) + [Digit(n % 10)]
  }

  /** Reading digits back, most significant first. */
  function Value(s: string): nat {
    if s == [] then 0 else 10 * Value(s[..|s| - 1]) + DigitValue(s[|s| - 1])
  }

  function Zeros(n: nat): string {
    seq(n, _ => '0')
  }

  function RJust(s: string, width: nat): string {
    if |s| < width then Zeros(width - |s|) + s else s
  }

  function RStripZeros(s: string): string {
    if s != [] && s[|s| - 1] == '0' then RStripZeros(s[..|s| - 1]) else s
  }

  function Quotient(n: nat, d: nat): nat
    requires d > 0
  {
    n / d
  }

  function Remainder(n: nat, d: nat): nat
    requires d > 0
  {
    n % d
  }

  function FractionText(fraction: nat, decimals: nat): string {
    RStripZeros(RJust(Str(fraction), decimals))
  }

  function Render(whole: nat, fraction: nat, decimals: nat): string {
    if fraction == 0 then Str(whole) else Str(whole) + "." + FractionText(fraction, decimals)
  }

  function FormatTokenAmount(amount: nat, decimals: nat): string {
    var scale := Pow10(decimals);
    Render(Quotient(amount, scale), Remainder(amount, scale), decimals)
  }

  /** The amount a text denotes: the part after the point counts in units of the
      token's smallest digit. */
  function Decode(text: string, decimals: nat): nat {
    var dot := PointAt(text);
    if dot == |text| then Units(Value(text), decimals)
    else
      var fraction := text[dot + 1..];
      Units(Value(text[..dot]), decimals) +
      Units(Value(fraction), if |fraction| <= decimals then decimals - |fraction| else 0)
  }

  /** `value` with that many zeros appended. */
  function Units(value: nat, places: nat): nat {
    if places == 0 then value else 10 * Units(value, places - 1)
  }

  /** The first point, or the end of the text. */
  function PointAt(text: string): (i: nat)
    ensures i <= |text|
  {
    if text == [] || text[0] == '.' then 0 else 1 + PointAt(text[1..])
  }

  // ---- Digits ----

  lemma {:induction false} StrReadsBack(n: nat)
    ensures Value(Str(n)) == n && AllDigits(Str(n)) && Str(n) != []
  {
    if n >= 10 {
      StrReadsBack(n / 10);
      assert Str(n)[..|Str(n)| - 1] == Str(n / 10);
    }
  }

  lemma {:induction false} StrFits(n: nat, width: nat)
    requires n < Pow10(width) && width > 0
    ensures |Str(n)| <= width
  {
    if n >= 10 {
      StrFits(n / 10, width - 1);
    }
  }

  lemma {:induction false} ValueOfZerosThen(k: nat, s: string)
    ensures Value(Zeros(k) + s) == Value(s)
    decreases |s|, k
  {
    var t := Zeros(k) + s;
    if s != [] {
      assert t[..|t| - 1] == Zeros(k) + s[..|s| - 1];
      ValueOfZerosThen(k, s[..|s| - 1]);
    } else if k > 0 {
      assert t[..|t| - 1] == Zeros(k - 1) + [];
      ValueOfZerosThen(k - 1, []);
    } else {
      assert t == [];
    }
  }

  lemma {:induction false} StripScales(s: string)
    ensures var r := RStripZeros(s);
            && |r| <= |s| && r == s[..|r|]
            && Value(s) == Units(Value(r), |s| - |r|)
            && (r != [] ==> r[|r| - 1] != '0')
  {
    if s != [] && s[|s| - 1] == '0' {
      StripScales(s[..|s| - 1]);
      var r := RStripZeros(s);
    } else {
      assert s[..|s|] == s;
    }
  }

  lemma {:induction false} PointAfterDigits(whole: string, rest: string)
    requires AllDigits(whole) && (rest == [] || rest[0] == '.')
    ensures PointAt(whole + rest) == |whole|
    decreases |whole|
  {
    var text := whole + rest;
    if whole != [] {
      assert text[1..] == whole[1..] + rest;
      PointAfterDigits(whole[1..], rest);
    } else {
      assert text == rest;
    }
  }

  lemma PaddedFraction(fraction: nat, decimals: nat)
    requires 0 < fraction < Pow10(decimals) && decimals > 0
    ensures var padded := RJust(Str(fraction), decimals);
            |padded| == decimals && Value(padded) == fraction
  {
    var text := Str(fraction);
    StrReadsBack(fraction);
    StrFits(fraction, decimals);
    if |text| < decimals {
      ValueOfZerosThen(decimals - |text|, text);
    }
  }

  // ---- The printer ----

  lemma FractionIsExact(fraction: nat, decimals: nat)
    requires 0 < fraction < Pow10(decimals)
    ensures var text := FractionText(fraction, decimals);
            && 0 < |text| <= decimals && text[|text| - 1] != '0'
            && Units(Value(text), decimals - |text|) == fraction
  {
    var padded := RJust(Str(fraction), decimals);
    PaddedFraction(fraction, decimals);
    StripScales(padded);
    assert RStripZeros(padded) != [] by {
      UnitsOfZero(decimals);
      assert Value([]) == 0;
    }
  }

  lemma {:induction false} UnitsOfZero(places: nat)
    ensures Units(0, places) == 0
  {
    if places > 0 {
      UnitsOfZero(places - 1);
    }
  }

  lemma QuotientRemainder(n: nat, d: nat)
    requires d > 0
    ensures n == Quotient(n, d) * d + Remainder(n, d) && Remainder(n, d) < d
  {
  }

  lemma {:induction false} UnitsIsProduct(value: nat, places: nat)
    ensures Units(value, places) == value * Pow10(places)
  {
    if places > 0 {
      UnitsIsProduct(value, places - 1);
      assert value * (10 * Pow10(places - 1)) == 10 * (value * Pow10(places - 1));
    }
  }

  /** Where the point is in a rendered amount, and what is on either side of it. */
  lemma RenderedShape(whole: nat, fraction: nat, decimals: nat)
    ensures var text, dot := Render(whole, fraction, decimals), |Str(whole)|;
            && PointAt(text) == dot <= |text| && text[..dot] == Str(whole)
            && (fraction == 0 <==> dot == |text|)
            && (fraction != 0 ==> text[dot + 1..] == FractionText(fraction, decimals))
  {
    var text := Render(whole, fraction, decimals);
    var rest := if fraction == 0 then [] else "." + FractionText(fraction, decimals);
    StrReadsBack(whole);
    assert text == Str(whole) + rest;
    PointAfterDigits(Str(whole), rest);
  }

  lemma RenderedDecodes(whole: nat, fraction: nat, decimals: nat)
    requires fraction < Pow10(decimals)
    ensures Decode(Render(whole, fraction, decimals), decimals) == Units(whole, decimals) + fraction
  {
    var text := Render(whole, fraction, decimals);
    RenderedShape(whole, fraction, decimals);
    StrReadsBack(whole);
    if fraction == 0 {
      assert text == Str(whole);
    } else {
      FractionIsExact(fraction, decimals);
    }
  }

  /** The printed text denotes exactly the amount printed. */
  lemma PrintedAmountDecodes(amount: nat, decimals: nat)
    ensures Decode(FormatTokenAmount(amount, decimals), decimals) == amount
  {
    QuotientRemainder(amount, Pow10(decimals));
    UnitsIsProduct(Quotient(amount, Pow10(decimals)), decimals);
    RenderedDecodes(Quotient(amount, Pow10(decimals)), Remainder(amount, Pow10(decimals)), decimals);
  }

  /** So no two amounts print alike. */
  lemma PrintingIsInjective(x: nat, y: nat, decimals: nat)
    requires FormatTokenAmount(x, decimals) == FormatTokenAmount(y, decimals)
    ensures x == y
  {
    PrintedAmountDecodes(x, decimals);
    PrintedAmountDecodes(y, decimals);
  }

  lemma {:induction false} UnitsInjective(v: nat, w: nat, places: nat)
    requires Units(v, places) == Units(w, places)
    ensures v == w
  {
    if places > 0 {
      UnitsInjective(v, w, places - 1);
    }
  }

  lemma {:induction false} UnitsAdd(value: nat, p: nat, q: nat)
    ensures Units(Units(value, p), q) == Units(value, p + q)
  {
    if q > 0 {
      UnitsAdd(value, p, q - 1);
    }
  }

  /** A text that ends in another digit than zero is not some value times ten. */
  lemma NoTrailingZero(text: string, value: nat, places: nat)
    requires text != [] && IsDigit(text[|text| - 1]) && text[|text| - 1] != '0' && places > 0
    ensures Value(text) != Units(value, places)
  {
    assert Units(value, places) == 10 * Units(value, places - 1);
  }

  /** No text with fewer digits denotes the fraction. */
  lemma NoShorterFraction(fraction: nat, decimals: nat, u: string)
    requires 0 < fraction < Pow10(decimals)
    requires |u| <= decimals && Units(Value(u), decimals - |u|) == fraction
    ensures |FractionText(fraction, decimals)| <= |u|
  {
    var text := FractionText(fraction, decimals);
    FractionIsExact(fraction, decimals);
    if |u| < |text| {
      UnitsAdd(Value(u), |text| - |u|, decimals - |text|);
      UnitsInjective(Value(text), Units(Value(u), |text| - |u|), decimals - |text|);
      FractionIsDigits(fraction, decimals);
      NoTrailingZero(text, Value(u), |text| - |u|);
    }
  }

  lemma FractionIsDigits(fraction: nat, decimals: nat)
    ensures AllDigits(FractionText(fraction, decimals))
  {
    StrReadsBack(fraction);
    StripScales(RJust(Str(fraction), decimals));
  }

  /** A fraction is printed exactly when there is one; it then has between one
      digit and `decimals` digits, does not end in zero, and is the shortest that
      denotes the amount. */
  lemma FractionIsShortest(amount: nat, decimals: nat)
    ensures var text := FormatTokenAmount(amount, decimals);
            var dot := PointAt(text);
            && (dot < |text| <==> Remainder(amount, Pow10(decimals)) != 0)
            && (dot < |text| ==>
                  && 0 < |text| - dot - 1 <= decimals && text[|text| - 1] != '0'
                  && forall u: string ::
                       |u| <= decimals &&
                       Units(Value(text[..dot]), decimals) + Units(Value(u), decimals - |u|) == amount ==>
                       |text| - dot - 1 <= |u|)
  {
    var whole, fraction := Quotient(amount, Pow10(decimals)), Remainder(amount, Pow10(decimals));
    QuotientRemainder(amount, Pow10(decimals));
    RenderedShape(whole, fraction, decimals);
    if fraction != 0 {
      FractionIsExact(fraction, decimals);
      UnitsIsProduct(whole, decimals);
      StrReadsBack(whole);
      var text := FormatTokenAmount(amount, decimals);
      assert text[|text| - 1] == text[|Str(whole)| + 1..][|FractionText(fraction, decimals)| - 1];
      forall u: string | |u| <= decimals && Units(whole, decimals) + Units(Value(u), decimals - |u|) == amount
        ensures |FractionText(fraction, decimals)| <= |u|
      {
        NoShorterFraction(fraction, decimals, u);
      }
    }
  }
}
