/** The canonical decimal string and the material of a domain-separated hash. */
module Canonical {
  import opened Decimals

  const MAX_DECIMAL_DIGITS := 96
  const MIN_DECIMAL_EXPONENT := -96
  const MAX_DECIMAL_EXPONENT := 48
  const MAX_DECIMAL_ADJUSTED_EXPONENT := 48

  /** Every bounded decimal is a whole number of units of 10^-PLACES. */
  const PLACES: nat := 96

  /** A finite decimal: sign, coefficient and exponent. */
  datatype Decimal = Decimal(negative: bool, coefficient: nat, exponent: int)

  predicate Bounded(d: Decimal) {
    && NumDigits(d.coefficient) <= MAX_DECIMAL_DIGITS
    && MIN_DECIMAL_EXPONENT <= d.exponent <= MAX_DECIMAL_EXPONENT
    && (d.coefficient == 0
        || NumDigits(d.coefficient) - 1 + d.exponent <= MAX_DECIMAL_ADJUSTED_EXPONENT)
  }

  /** The exact number a bounded decimal denotes, in units of 10^-96. */
  function Value(d: Decimal): int
    requires d.exponent >= MIN_DECIMAL_EXPONENT
  {
    var magnitude := d.coefficient * Pow10(d.exponent + PLACES);
    if d.negative then -magnitude else magnitude
  }

  // ----- printing -----

  function DigitChar(d: nat): (c: char)
    requires d < 10
  {
    "0123456789"[d]
  }

  function Digits(n: nat): (s: string)
    ensures |s| == NumDigits(n)
  {
    if n < 10 then [DigitChar(n)] else Digits(n / 10) + [DigitChar(n % 10)]
  }

  function Zeros(n: nat): (s: string)
    ensures |s| == n
  {
    if n == 0 then "" else Zeros(n - 1) + "0"
  }

  function RStrip(s: string, c: char): string {
    if s != "" && s[|s| - 1] == c then RStrip(s[..|s| - 1], c) else s
  }

  /** Fixed-point rendering: the digits of the whole part and of the fraction. */
  function WholePart(coefficient: nat, exponent: int): string {
    var digits := Digits(coefficient);
    var dotplace := exponent + |digits|;
    if dotplace <= 0 then "0"
    else if dotplace > |digits| then digits + Zeros(exponent)
    else digits[..dotplace]
  }

  function FractionPart(coefficient: nat, exponent: int): string {
    var digits := Digits(coefficient);
    var dotplace := exponent + |digits|;
    if dotplace < 0 then Zeros(-dotplace) + digits
    else if dotplace > |digits| then ""
    else digits[dotplace..]
  }

  function FormatFixed(d: Decimal): string {
    var fraction := FractionPart(d.coefficient, d.exponent);
    (if d.negative then "-" else "")
    + WholePart(d.coefficient, d.exponent)
    + (if fraction == "" then "" else "." + fraction)
  }

  datatype Rendering = Text(text: string) | OutOfBounds

  function CanonicalDecimal(d: Decimal): Rendering {
    if !Bounded(d) then OutOfBounds
    else if d.coefficient == 0 then Text("0")
    else
      var rendered := FormatFixed(d);
      if '.' in rendered then Text(RStrip(RStrip(rendered, '0'), '.')) else Text(rendered)
  }

  // ----- reading a string back -----

  predicate IsDigit(c: char) {
    '0' <= c <= '9'
  }

  function ParseDigits(s: string): int {
    if s == "" then 0
    else 10 * ParseDigits(s[..|s| - 1]) + (s[|s| - 1] as int - '0' as int)
  }

  function SplitAt(s: string, c: char): (string, string) {
    if s == "" then ("", "")
    else if s[0] == c then ("", s[1..])
    else var rest := SplitAt(s[1..], c); ([s[0]] + rest.0, rest.1)
  }

  /** The number a plain decimal string denotes, in units of 10^-96; digits
      past the 96th decimal place do not occur in canonical strings. */
  function Parse(s: string): int {
    var negative := s != "" && s[0] == '-';
    var body := if negative then s[1..] else s;
    var (whole, fraction) := SplitAt(body, '.');
    var places := PLACES;
    var magnitude :=
      if |fraction| <= places then ParseDigits(whole + fraction) * Pow10(places - |fraction|) else 0;
    if negative then -magnitude else magnitude
  }

  // ----- digit strings -----

  predicate AllDigits(s: string) {
    forall i :: 0 <= i < |s| ==> IsDigit(s[i])
  }

  lemma {:induction false} DigitsAreDigits(n: nat)
    ensures AllDigits(Digits(n))
  {
    if n >= 10 {
      DigitsAreDigits(n / 10);
    }
  }

  lemma {:induction false} ZerosAreDigits(n: nat)
    ensures forall i :: 0 <= i < n ==> Zeros(n)[i] == '0'
  {
    if n > 0 {
      ZerosAreDigits(n - 1);
    }
  }

  lemma {:induction false} ParseOfDigits(n: nat)
    ensures ParseDigits(Digits(n)) == n
  {
    if n < 10 {
      assert Digits(n)[..0] == "";
    } else {
      ParseOfDigits(n / 10);
      assert Digits(n)[..|Digits(n)| - 1] == Digits(n / 10);
    }
  }

  lemma {:induction false} ParseZerosAfter(s: string, k: nat)
    ensures ParseDigits(s + Zeros(k)) == ParseDigits(s) * Pow10(k)
  {
    if k == 0 {
      assert s + Zeros(0) == s;
    } else {
      ParseZerosAfter(s, k - 1);
      var t := s + Zeros(k);
      assert t[..|t| - 1] == s + Zeros(k - 1);
      assert t[|t| - 1] == '0';
      TimesTen(ParseDigits(s), k);
    }
  }

  lemma {:induction false} ParseZerosBefore(k: nat, s: string)
    ensures ParseDigits(Zeros(k) + s) == ParseDigits(s)
  {
    if s == "" {
      ParseZerosAfter("", k);
      assert "" + Zeros(k) == Zeros(k) == Zeros(k) + s;
    } else {
      ParseZerosBefore(k, s[..|s| - 1]);
      var t := Zeros(k) + s;
      assert t[..|t| - 1] == Zeros(k) + s[..|s| - 1];
    }
  }

  lemma DigitsTimesTen(n: nat)
    requires n > 0
    ensures Digits(10 * n) == Digits(n) + "0"
  {
    assert (10 * n) / 10 == n && (10 * n) % 10 == 0;
  }

  lemma {:induction false} SplitAtFirst(a: string, c: char, b: string)
    requires c !in a
    ensures SplitAt(a, c) == (a, "")
    ensures SplitAt(a + [c] + b, c) == (a, b)
  {
    if a == "" {
      assert ([c] + b)[1..] == b;
      assert a + [c] + b == [c] + b;
    } else {
      SplitAtFirst(a[1..], c, b);
      assert (a + [c] + b)[1..] == a[1..] + [c] + b;
      assert [a[0]] + a[1..] == a;
    }
  }

  // ----- stripping -----

  lemma {:induction false} StripZeroTail(s: string)
    ensures var t := RStrip(s, '0');
      |t| <= |s| && s == t + Zeros(|s| - |t|)
  {
    if s != "" && s[|s| - 1] == '0' {
      StripZeroTail(s[..|s| - 1]);
      var t := RStrip(s, '0');
      assert s == s[..|s| - 1] + "0";
      assert s == t + Zeros(|s| - 1 - |t|) + "0" == t + Zeros(|s| - |t|);
    } else {
      assert s == s + Zeros(0);
    }
  }

  /** Stripping zeros and then a point removes exactly the fraction's trailing
      zeros, and the point when no fraction is left. */
  lemma {:induction false} StripFraction(whole: string, fraction: string)
    requires whole != "" && whole[|whole| - 1] != '.' && AllDigits(fraction)
    ensures RStrip(RStrip(whole + "." + fraction, '0'), '.')
         == whole + Tail(RStrip(fraction, '0'))
  {
    if fraction == "" {
      RStripLast(whole, ".", '0');
      RStripLast(whole, ".", '.');
      assert whole + "." + "" == whole + "." && whole + "" == whole;
    } else {
      var shorter, last := fraction[..|fraction| - 1], [fraction[|fraction| - 1]];
      assert fraction == shorter + last;
      assert whole + "." + fraction == (whole + "." + shorter) + last == whole + ("." + fraction);
      RStripLast(whole + "." + shorter, last, '0');
      RStripLast(whole + "." + shorter, last, '.');
      if last == "0" {
        StripFraction(whole, shorter);
      }
    }
  }

  lemma RStripLast(s: string, last: string, c: char)
    requires |last| == 1
    ensures RStrip(s + last, c) == if last[0] == c then RStrip(s, c) else s + last
  {
    assert (s + last)[..|s + last| - 1] == s;
  }

  function Tail(fraction: string): string {
    if fraction == "" then "" else "." + fraction
  }

  /** The canonical text of a nonzero bounded decimal, written in one piece. */
  function Body(coefficient: nat, exponent: int): string {
    WholePart(coefficient, exponent) + Tail(RStrip(FractionPart(coefficient, exponent), '0'))
  }

  lemma PartsAreDigits(c: nat, e: int)
    ensures WholePart(c, e) != "" && AllDigits(WholePart(c, e)) && AllDigits(FractionPart(c, e))
  {
    DigitsAreDigits(c);
    var places := e + |Digits(c)|;
    if e > 0 {
      ZerosAreDigits(e);
    }
    if places < 0 {
      ZerosAreDigits(-places);
    }
  }

  lemma CanonicalShape(d: Decimal)
    requires Bounded(d) && d.coefficient > 0
    ensures CanonicalDecimal(d)
         == Text((if d.negative then "-" else "") + Body(d.coefficient, d.exponent))
  {
    hide WholePart, FractionPart, RStrip, NumDigits, Digits, Zeros;
    var sign := if d.negative then "-" else "";
    var whole := WholePart(d.coefficient, d.exponent);
    var fraction := FractionPart(d.coefficient, d.exponent);
    PartsAreDigits(d.coefficient, d.exponent);
    if fraction == "" {
      assert RStrip(fraction, '0') == "" by {
        StripZeroTail(fraction);
      }
      assert sign + whole + "" == sign + whole == sign + (whole + "");
      assert '.' !in sign + whole;
    } else {
      var rendered := sign + whole + "." + fraction;
      assert FormatFixed(d) == rendered;
      assert rendered[|sign + whole|] == '.';
      StripFraction(sign + whole, fraction);
      assert (sign + whole) + Tail(RStrip(fraction, '0'))
          == sign + (whole + Tail(RStrip(fraction, '0')));
    }
  }

  /** One more digit in the fraction is one more trailing zero. */
  lemma FractionStep(c: nat, e: int)
    requires c > 0 && e <= 0
    ensures FractionPart(10 * c, e - 1) == FractionPart(c, e) + "0"
  {
    DigitsTimesTen(c);
    var digits := Digits(c);
    var p := e + |digits|;
    hide Digits;
    if p < 0 {
      assert Zeros(-p) + (digits + "0") == Zeros(-p) + digits + "0";
    } else {
      assert (digits + "0")[p..] == digits[p..] + "0";
    }
  }

  lemma WholeStep(c: nat, e: int)
    requires c > 0 && e > 0
    ensures Body(10 * c, e - 1) == Body(c, e)
  {
    DigitsTimesTen(c);
    var digits := Digits(c);
    hide Digits;
    if e >= 2 {
      ZerosCons(e - 1);
      assert digits + "0" + Zeros(e - 1) == digits + ("0" + Zeros(e - 1));
    } else {
      assert Zeros(1) == Zeros(0) + "0" == "0";
      var longer := digits + "0";
      assert longer[..|longer|] == longer && longer[|longer|..] == "";
    }
  }

  /** Writing the same number with one more coefficient digit changes nothing. */
  lemma BodyStep(c: nat, e: int)
    requires c > 0
    ensures Body(10 * c, e - 1) == Body(c, e)
  {
    if e > 0 {
      WholeStep(c, e);
    } else {
      DigitsTimesTen(c);
      FractionStep(c, e);
      var digits, fraction := Digits(c), FractionPart(c, e);
      hide Digits, FractionPart;
      assert (fraction + "0")[..|fraction|] == fraction;
      if e + |digits| > 0 {
        assert (digits + "0")[..e + |digits|] == digits[..e + |digits|];
      }
    }
  }

  lemma {:induction false} ZerosCons(n: nat)
    ensures Zeros(n + 1) == "0" + Zeros(n)
  {
    if n == 0 {
      assert Zeros(0) + "0" == "0" + Zeros(0);
    } else {
      ZerosCons(n - 1);
      assert "0" + Zeros(n - 1) + "0" == "0" + Zeros(n);
    }
  }

  lemma {:induction false} BodyScaled(c: nat, e: int, k: nat)
    requires c > 0
    ensures Body(c * Pow10(k), e - k) == Body(c, e)
  {
    hide Body;
    if k == 0 {
      assert c * Pow10(0) == c;
    } else {
      BodyScaled(c, e, k - 1);
      var m := c * Pow10(k - 1);
      PositiveProduct(c, Pow10(k - 1));
      BodyStep(m, e - (k - 1));
      TimesTen(c, k);
    }
  }

  lemma TimesTen(c: int, k: nat)
    requires k > 0
    ensures c * Pow10(k) == 10 * (c * Pow10(k - 1))
  {
  }

  lemma PositiveProduct(a: nat, b: nat)
    requires a > 0 && b > 0
    ensures a * b > 0
  {
  }

  /** The whole part followed by the fraction spells the coefficient. */
  lemma PartsSpell(c: nat, e: int)
    ensures ParseDigits(WholePart(c, e) + FractionPart(c, e)) == c * Pow10(if e > 0 then e else 0)
    ensures |FractionPart(c, e)| == if e > 0 then 0 else -e
  {
    hide Pow10, Zeros, ParseDigits, Digits;
    var digits := Digits(c);
    var p := e + |digits|;
    ParseOfDigits(c);
    var spelled := WholePart(c, e) + FractionPart(c, e);
    if p <= 0 {
      assert spelled == "0" + (Zeros(-p) + digits) by {
        ZerosSmall();
      }
      LeadingZero(Zeros(-p) + digits);
      ParseZerosBefore(-p, digits);
      PowZero(c);
    } else if p > |digits| {
      ParseZerosAfter(digits, e);
      assert spelled == digits + Zeros(e);
    } else {
      assert spelled == digits;
      PowZero(c);
    }
  }

  lemma ZerosSmall()
    ensures Zeros(0) == "" && Zeros(1) == "0"
  {
    assert Zeros(1) == Zeros(0) + "0" == "0";
  }

  lemma LeadingZero(s: string)
    ensures ParseDigits("0" + s) == ParseDigits(s)
  {
    ZerosSmall();
    ParseZerosBefore(1, s);
  }

  lemma PowZero(c: nat)
    ensures c * Pow10(0) == c
  {
  }

  lemma BodyValue(c: nat, e: int)
    requires MIN_DECIMAL_EXPONENT <= e
    ensures
      var fraction := RStrip(FractionPart(c, e), '0');
      && |fraction| <= PLACES
      && ParseDigits(WholePart(c, e) + fraction) * Pow10(PLACES - |fraction|) == c * Pow10(e + PLACES)
  {
    hide Pow10, ParseDigits, WholePart, FractionPart, RStrip;
    var whole, full := WholePart(c, e), FractionPart(c, e);
    var fraction := RStrip(full, '0');
    PartsSpell(c, e);
    StripZeroTail(full);
    var up: nat := if e > 0 then e else 0;
    var cut: nat := |full| - |fraction|;
    assert whole + full == (whole + fraction) + Zeros(cut);
    ParseZerosAfter(whole + fraction, cut);
    Rescale(ParseDigits(whole + fraction), cut, c, up, PLACES - |full|);
  }

  lemma Rescale(a: int, cut: nat, c: int, up: nat, rest: nat)
    requires a * Pow10(cut) == c * Pow10(up)
    ensures a * Pow10(cut + rest) == c * Pow10(up + rest)
  {
    Pow10Add(cut, rest);
    Pow10Add(up, rest);
    Regroup(a, Pow10(cut), Pow10(rest));
    Regroup(c, Pow10(up), Pow10(rest));
  }

  lemma Regroup(a: int, b: int, c: int)
    ensures (a * b) * c == a * (b * c)
  {
  }

  // ----- the main results -----

  /** Reading the canonical string back gives the exact value. */
  lemma RoundTrip(d: Decimal)
    requires Bounded(d)
    ensures CanonicalDecimal(d).Text? && Parse(CanonicalDecimal(d).text) == Value(d)
  {
    hide Pow10, ParseDigits, Parse, RStrip, FormatFixed, WholePart, FractionPart, Digits;
    if d.coefficient == 0 {
      ParseZero();
    } else {
      CanonicalShape(d);
      PartsAreDigits(d.coefficient, d.exponent);
      BodyValue(d.coefficient, d.exponent);
      ParseBody(d.negative, WholePart(d.coefficient, d.exponent),
                RStrip(FractionPart(d.coefficient, d.exponent), '0'));
    }
  }

  lemma ParseZero()
    ensures Parse("0") == 0
  {
    SplitAtFirst("0", '.', "");
    assert "0" + "" == "0" && "0"[..0] == "";
  }

  /** How a sign, a whole part and a stripped fraction are read back. */
  lemma ParseBody(negative: bool, whole: string, fraction: string)
    requires whole != "" && AllDigits(whole) && |fraction| <= PLACES
    ensures
      var text := (if negative then "-" else "") + (whole + Tail(fraction));
      var magnitude := ParseDigits(whole + fraction) * Pow10(PLACES - |fraction|);
      Parse(text) == if negative then -magnitude else magnitude
  {
    hide Pow10, ParseDigits, SplitAt;
    var body := whole + Tail(fraction);
    var text := (if negative then "-" else "") + body;
    SplitAtFirst(whole, '.', fraction);
    assert body == if fraction == "" then whole else whole + ['.'] + fraction;
    assert SplitAt(body, '.') == (whole, fraction);
    if negative {
      assert text[1..] == body;
    } else {
      assert text == body;
    }
  }

  /** Canonical strings are a normal form: two bounded decimals are numerically
      equal exactly when their canonical strings are equal. */
  lemma NormalForm(a: Decimal, b: Decimal)
    requires Bounded(a) && Bounded(b)
    ensures CanonicalDecimal(a) == CanonicalDecimal(b) <==> Value(a) == Value(b)
  {
    RoundTrip(a);
    RoundTrip(b);
    if Value(a) == Value(b) {
      if a.exponent <= b.exponent {
        EqualValuesEqualText(a, b);
      } else {
        EqualValuesEqualText(b, a);
      }
    }
  }

  lemma EqualValuesEqualText(a: Decimal, b: Decimal)
    requires Bounded(a) && Bounded(b)
    requires Value(a) == Value(b) && a.exponent <= b.exponent
    ensures CanonicalDecimal(a) == CanonicalDecimal(b)
  {
    hide Pow10, Body, FormatFixed, RStrip, NumDigits;
    var lo, hi := a.exponent + PLACES, b.exponent + PLACES;
    ProductSign(a.coefficient, Pow10(lo));
    ProductSign(b.coefficient, Pow10(hi));
    if a.coefficient > 0 && b.coefficient > 0 {
      var k: nat := hi - lo;
      assert a.coefficient * Pow10(lo) == b.coefficient * Pow10(hi);
      Pow10Add(k, lo);
      Regroup(b.coefficient, Pow10(k), Pow10(lo));
      CancelFactor(a.coefficient, b.coefficient * Pow10(k), Pow10(lo));
      BodyScaled(b.coefficient, b.exponent, k);
      CanonicalShape(a);
      CanonicalShape(b);
    }
  }

  lemma ProductSign(a: nat, p: nat)
    requires p > 0
    ensures a * p >= 0 && (a * p == 0 <==> a == 0)
  {
  }

  lemma CancelFactor(a: int, b: int, p: nat)
    requires p > 0 && a * p == b * p
    ensures a == b
  {
    assert (a - b) * p == 0;
    ProductZero(a - b, p);
  }

  lemma ProductZero(x: int, p: nat)
    requires p > 0 && x * p == 0
    ensures x == 0
  {
  }

  // ----- domain-separated hashing -----

  type Byte = b: int | 0 <= b < 256

  /** A hash domain is non-empty and holds no NUL. */
  predicate ValidDomain(domain: seq<Byte>) {
    domain != [] && 0 !in domain
  }

  /** The bytes fed to the digest: the domain, a NUL, the canonical encoding. */
  function DomainMaterial(domain: seq<Byte>, encoding: seq<Byte>): seq<Byte> {
    domain + [0] + encoding
  }

  /** No two (domain, encoding) pairs share their digest material. */
  lemma DomainMaterialInjective(d1: seq<Byte>, e1: seq<Byte>, d2: seq<Byte>, e2: seq<Byte>)
    requires ValidDomain(d1) && ValidDomain(d2)
    requires DomainMaterial(d1, e1) == DomainMaterial(d2, e2)
    ensures d1 == d2 && e1 == e2
  {
    var m := DomainMaterial(d1, e1);
    assert m[|d1|] == 0 && m[|d2|] == 0;
    assert forall i :: 0 <= i < |d1| ==> m[i] == d1[i] != 0;
    assert forall i :: 0 <= i < |d2| ==> m[i] == d2[i] != 0;
    assert d1 == m[..|d1|] == d2;
    assert e1 == m[|d1| + 1..] == e2;
  }
}
