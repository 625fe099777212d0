/** The price bound of a reduce-only close and its venue tick rounding.

    A positive decimal is `n` units of 10^-k.  Any finite decimal has this form
    for a large enough `k`, so the results below, stated for every k >= 6,
    speak about every price. */
module WirePrice {
  import opened Decimals

  datatype Side = Long | Short

  datatype PriceError =
    | InvalidRawBound
    | InvalidSzDecimals
    | NotPositive
    | OutOfDecimalBounds
    | TooManyDecimalPlaces
    | TooManySignificantDigits
    | WidenedLong
    | WidenedShort

  datatype PriceResult = Price(units: nat) | Rejected(error: PriceError)

  /** The largest exponent of a leading digit that a persisted decimal may have. */
  const MAX_DECIMAL_ADJUSTED_EXPONENT := 48

  const BASIS_POINTS := 10000

  function Max(a: int, b: int): int {
    if a >= b then a else b
  }

  /** The exponent of the leading digit of n * 10^-k. */
  function Adjusted(n: nat, k: nat): int
    requires n > 0
  {
    NumDigits(n) - 1 - k
  }

  /** The exponent of the rounding quantum: five significant digits, but never
      finer than the instrument's 6 - szDecimals decimal places. */
  function QuantumExponent(n: nat, k: nat, szDecimals: int): int
    requires n > 0
  {
    Max(-(6 - szDecimals), Adjusted(n, k) - 4)
  }

  /** The quantum, counted in units of 10^-k. */
  function Quantum(n: nat, k: nat, szDecimals: int): (q: nat)
    requires n > 0 && k >= 6 && 0 <= szDecimals <= 6
    ensures q > 0
  {
    Pow10(QuantumExponent(n, k, szDecimals) + k)
  }

  function Quantize(n: nat, q: nat, side: Side): nat
    requires q > 0
  {
    var down := (n / q) * q;
    if side.Long? && down != n then down + q else down
  }

  // ----- the venue encoder's own tick rule -----

  /** How many trailing decimal zeros the coefficient has. */
  function TrailingZeros(n: nat): nat
    requires n > 0
  {
    if n % 10 == 0 then 1 + TrailingZeros(n / 10) else 0
  }

  function FractionalPlaces(n: nat, k: nat): nat
    requires n > 0
  {
    Max(k - TrailingZeros(n), 0)
  }

  function SignificantDigits(n: nat): nat
    requires n > 0
  {
    Max(NumDigits(n) - TrailingZeros(n), 0)
  }

  function FormatPerpPrice(n: nat, k: nat, szDecimals: int): PriceResult {
    if n == 0 then Rejected(NotPositive)
    else if Adjusted(n, k) > MAX_DECIMAL_ADJUSTED_EXPONENT then Rejected(OutOfDecimalBounds)
    else if FractionalPlaces(n, k) == 0 then Price(n)
    else if FractionalPlaces(n, k) > 6 - szDecimals then Rejected(TooManyDecimalPlaces)
    else if SignificantDigits(n) > 5 then Rejected(TooManySignificantDigits)
    else Price(n)
  }

  function BoundedWirePrice(n: int, k: nat, side: Side, szDecimals: int): PriceResult
    requires k >= 6
  {
    if n <= 0 then Rejected(InvalidRawBound)
    else if !(0 <= szDecimals <= 6) then Rejected(InvalidSzDecimals)
    else
      var r := Quantize(n, Quantum(n, k, szDecimals), side);
      var encoded := FormatPerpPrice(r, k, szDecimals);
      if encoded.Rejected? then encoded
      else if side.Long? && r < n then Rejected(WidenedLong)
      else if side.Short? && r > n then Rejected(WidenedShort)
      else Price(r)
  }

  /** The raw close bound: best bid less the slippage for a long, best ask plus
      the slippage for a short.  The book price is `book` units of 10^-kb and
      the slippage `bps` units of 10^-kp basis points. */
  function RawCloseBound(book: int, kb: nat, bps: int, kp: nat, side: Side): int {
    var whole := BASIS_POINTS * Pow10(kp);
    if side.Long? then book * (whole - bps) else book * (whole + bps)
  }

  function CloseBound(book: int, kb: nat, bps: int, kp: nat, side: Side, szDecimals: int): PriceResult
    requires kb + kp >= 2
  {
    BoundedWirePrice(RawCloseBound(book, kb, bps, kp, side), kb + kp + 4, side, szDecimals)
  }

  // ----- rounding -----

  lemma QuantizeSpec(n: nat, q: nat, side: Side)
    requires q > 0
    ensures var r := Quantize(n, q, side);
      && Multiple(r, q)
      && (side.Long? ==> n <= r < n + q)
      && (side.Short? ==> n - q < r <= n)
  {
    var c := n / q;
    assert n == c * q + n % q;
    MultipleTimes(c, q);
    if side.Long? && c * q != n {
      assert (c + 1) * q == c * q + q;
      MultipleTimes(c + 1, q);
    }
  }

  lemma QuantizeFixed(n: nat, q: nat, side: Side)
    requires q > 0 && Multiple(n, q)
    ensures Quantize(n, q, side) == n
  {
    QuantizeSpec(n, q, side);
    MultiplesApart(n, Quantize(n, q, side), q);
  }

  /** The rounded price keeps the raw price's leading exponent, or is exactly
      the next power of ten (the carry), or is zero (a short below one tick). */
  lemma RoundedMagnitude(n: nat, k: nat, side: Side, szDecimals: int)
    requires n > 0 && k >= 6 && 0 <= szDecimals <= 6
    ensures
      var d := NumDigits(n);
      var r := Quantize(n, Quantum(n, k, szDecimals), side);
      var e := QuantumExponent(n, k, szDecimals) + k;
      && r <= Pow10(Max(d, e))
      && (d - 1 >= e ==> Pow10(d - 1) <= r)
      && (r > 0 ==> Pow10(e) <= r)
  {
    var d := NumDigits(n);
    var e: nat := QuantumExponent(n, k, szDecimals) + k;
    var q := Pow10(e);
    var r := Quantize(n, q, side);
    NumDigitsBounds(n);
    QuantizeSpec(n, q, side);
    var top: nat := Max(d, e);
    Pow10Multiple(e, top);
    Pow10Mono(e, top);
    Pow10Mono(d, top);
    if r > Pow10(top) {
      MultipleSteps(Pow10(top), r, q);
      assert false;
    }
    if d - 1 >= e && r < Pow10(d - 1) {
      Pow10Multiple(e, d - 1);
      MultipleSteps(r, Pow10(d - 1), q);
      assert false;
    }
    if 0 < r < q {
      MultipleTimes(0, q);
      MultipleSteps(0, r, q);
      assert false;
    }
  }

  /** Distinct multiples are at least one unit apart. */
  lemma MultipleSteps(m: int, n: int, d: int)
    requires d > 0 && Multiple(m, d) && Multiple(n, d) && m < n
    ensures m + d <= n
  {
    if n < m + d {
      MultiplesApart(m, n, d);
    }
  }

  lemma {:induction false} TrailingZerosOfMultiple(n: nat, e: nat)
    requires n > 0 && Multiple(n, Pow10(e))
    ensures TrailingZeros(n) >= e
  {
    if e > 0 {
      var c: int :| n == c * Pow10(e);
      assert n == (c * Pow10(e - 1)) * 10;
      assert n / 10 == c * Pow10(e - 1) && n % 10 == 0;
      MultipleTimes(c, Pow10(e - 1));
      TrailingZerosOfMultiple(n / 10, e - 1);
    }
  }

  lemma {:induction false} TrailingZerosOfPower(e: nat)
    ensures TrailingZeros(Pow10(e)) == e
  {
    if e > 0 {
      TrailingZerosOfPower(e - 1);
      var p := Pow10(e - 1);
      assert (10 * p) % 10 == 0 && (10 * p) / 10 == p;
    }
  }

  /** A rounded price satisfies the venue's tick rule: at most 6 - szDecimals
      decimal places and, the carry included, at most five significant digits. */
  lemma RoundedOnTick(n: nat, k: nat, side: Side, szDecimals: int)
    requires n > 0 && k >= 6 && 0 <= szDecimals <= 6
    requires Quantize(n, Quantum(n, k, szDecimals), side) > 0
    ensures var r := Quantize(n, Quantum(n, k, szDecimals), side);
      FractionalPlaces(r, k) <= 6 - szDecimals && SignificantDigits(r) <= 5
  {
    var d := NumDigits(n);
    var e: nat := QuantumExponent(n, k, szDecimals) + k;
    var r := Quantize(n, Pow10(e), side);
    QuantizeSpec(n, Pow10(e), side);
    RoundedMagnitude(n, k, side, szDecimals);
    TrailingZerosOfMultiple(r, e);
    var top: nat := Max(d, e);
    hide Quantize, Multiple, Pow10, NumDigits, TrailingZeros;
    if r == Pow10(top) {
      TrailingZerosOfPower(top);
      Pow10Strict(top, top + 1);
      NumDigitsUnique(r, top + 1);
    } else {
      NumDigitsBounds(r);
      Pow10Strict(NumDigits(r) - 1, top);
    }
  }

  /** The quantum of a rounded price divides it. */
  lemma RoundedIsOwnMultiple(n: nat, k: nat, side: Side, szDecimals: int)
    requires n > 0 && k >= 6 && 0 <= szDecimals <= 6
    requires Quantize(n, Quantum(n, k, szDecimals), side) > 0
    ensures var r := Quantize(n, Quantum(n, k, szDecimals), side);
      Multiple(r, Quantum(r, k, szDecimals))
  {
    hide Pow10, NumDigits, Quantize, Multiple;
    var d := NumDigits(n);
    var e: nat := QuantumExponent(n, k, szDecimals) + k;
    var r := Quantize(n, Pow10(e), side);
    QuantizeSpec(n, Pow10(e), side);
    RoundedMagnitude(n, k, side, szDecimals);
    NumDigitsBounds(r);
    var e': nat := QuantumExponent(r, k, szDecimals) + k;
    var top: nat := Max(d, e);
    if r == Pow10(top) {
      Pow10Strict(top, top + 1);
      NumDigitsUnique(r, top + 1);
      Pow10Multiple(e', top);
    } else {
      Pow10Strict(NumDigits(r) - 1, top);
      Pow10Multiple(e', e);
      MultipleTrans(r, Pow10(e), Pow10(e'));
    }
  }

  // ----- the main results -----

  /** The largest raw bound of a side that stays in the persisted decimal range: a
      long rounds up, so beyond five nines it carries out of the range. */
  predicate InRange(n: nat, k: nat, side: Side) {
    if side.Long? then n <= 99999 * Pow10(MAX_DECIMAL_ADJUSTED_EXPONENT - 4 + k)
    else n < Pow10(MAX_DECIMAL_ADJUSTED_EXPONENT + 1 + k)
  }

  lemma AdjustedBelow(n: nat, k: nat)
    requires n > 0
    ensures Adjusted(n, k) <= MAX_DECIMAL_ADJUSTED_EXPONENT <==> n < Pow10(MAX_DECIMAL_ADJUSTED_EXPONENT + 1 + k)
  {
    NumDigitsBounds(n);
    var top := MAX_DECIMAL_ADJUSTED_EXPONENT + 1 + k;
    if NumDigits(n) <= top {
      Pow10Mono(NumDigits(n), top);
    } else {
      Pow10Mono(top, NumDigits(n) - 1);
    }
  }

  lemma FiveDigits(e: nat)
    ensures Pow10(e + 5) == 100000 * Pow10(e)
  {
    assert Pow10(e + 5) == 10 * Pow10(e + 4) == 100 * Pow10(e + 3) == 1000 * Pow10(e + 2);
  }

  lemma RangeExactly(n: nat, k: nat, side: Side, szDecimals: int)
    requires n > 0 && k >= 6 && 0 <= szDecimals <= 6
    requires Quantize(n, Quantum(n, k, szDecimals), side) > 0
    ensures
      Adjusted(Quantize(n, Quantum(n, k, szDecimals), side), k) <= MAX_DECIMAL_ADJUSTED_EXPONENT <==> InRange(n, k, side)
  {
    var q := Quantum(n, k, szDecimals);
    var r := Quantize(n, q, side);
    AdjustedBelow(r, k);
    QuantizeSpec(n, q, side);
    FiveDigits(MAX_DECIMAL_ADJUSTED_EXPONENT - 4 + k);
    if n >= Pow10(MAX_DECIMAL_ADJUSTED_EXPONENT + 1 + k) {
      OutOfRange(n, k, side, szDecimals);
    } else if side.Long? && InRange(n, k, side) {
      LongStays(n, k, szDecimals);
    } else if side.Long? {
      LongCarries(n, k, szDecimals);
    }
  }

  lemma OutOfRange(n: nat, k: nat, side: Side, szDecimals: int)
    requires k >= 6 && 0 <= szDecimals <= 6 && n >= Pow10(MAX_DECIMAL_ADJUSTED_EXPONENT + 1 + k)
    ensures Quantize(n, Quantum(n, k, szDecimals), side) >= Pow10(MAX_DECIMAL_ADJUSTED_EXPONENT + 1 + k)
  {
    var top := MAX_DECIMAL_ADJUSTED_EXPONENT + 1 + k;
    NumDigitsBounds(n);
    Pow10Strict(top, NumDigits(n));
    Pow10Mono(top, NumDigits(n) - 1);
    RoundedMagnitude(n, k, side, szDecimals);
  }

  /** Up to five nines the bound of the range is itself a multiple of the quantum. */
  lemma LongStays(n: nat, k: nat, szDecimals: int)
    requires n > 0 && k >= 6 && 0 <= szDecimals <= 6 && InRange(n, k, Long)
    ensures Quantize(n, Quantum(n, k, szDecimals), Long) < Pow10(MAX_DECIMAL_ADJUSTED_EXPONENT + 1 + k)
  {
    var low := MAX_DECIMAL_ADJUSTED_EXPONENT - 4 + k;
    var q := Quantum(n, k, szDecimals);
    var r, bound := Quantize(n, q, Long), 99999 * Pow10(low);
    FiveDigits(low);
    AdjustedBelow(n, k);
    Pow10Multiple(QuantumExponent(n, k, szDecimals) + k, low);
    MultipleTimes(99999, Pow10(low));
    MultipleTrans(bound, Pow10(low), q);
    QuantizeSpec(n, q, Long);
    hide Quantize, Quantum;
    if r > bound {
      MultipleSteps(bound, r, q);
    }
  }

  /** Above five nines at the top of the range the quantum is the fifth digit, so
      the next multiple is the next power of ten. */
  lemma LongCarries(n: nat, k: nat, szDecimals: int)
    requires k >= 6 && 0 <= szDecimals <= 6
    requires 99999 * Pow10(MAX_DECIMAL_ADJUSTED_EXPONENT - 4 + k) < n < Pow10(MAX_DECIMAL_ADJUSTED_EXPONENT + 1 + k)
    ensures Quantize(n, Quantum(n, k, szDecimals), Long) >= Pow10(MAX_DECIMAL_ADJUSTED_EXPONENT + 1 + k)
  {
    var low := MAX_DECIMAL_ADJUSTED_EXPONENT - 4 + k;
    FiveDigits(low);
    assert Pow10(low + 4) == 10 * Pow10(low + 3) == 100 * Pow10(low + 2) == 1000 * Pow10(low + 1);
    NumDigitsUnique(n, low + 5);
    var q := Quantum(n, k, szDecimals);
    assert q == Pow10(low);
    QuantizeSpec(n, q, Long);
    MultipleTimes(99999, q);
    MultipleSteps(99999 * q, Quantize(n, q, Long), q);
  }

  /** A short bound reaches its quantum exactly when it reaches the finest tick. */
  lemma OneTickExactly(n: nat, k: nat, szDecimals: int)
    requires n > 0 && k >= 6 && 0 <= szDecimals <= 6
    ensures n >= Quantum(n, k, szDecimals) <==> n >= Pow10(k - 6 + szDecimals)
  {
    NumDigitsBounds(n);
    var e: nat := QuantumExponent(n, k, szDecimals) + k;
    Pow10Mono(k - 6 + szDecimals, e);
    if e == NumDigits(n) - 1 - 4 {
      Pow10Mono(e, NumDigits(n) - 1);
    }
  }

  /** Rounding is accepted exactly when the raw bound is positive, the instrument
      is valid, a short bound reaches the finest tick and the bound lies in the
      range of its side: the encoder's tick checks and the two anti-widening checks
      never reject a rounded price. */
  lemma AcceptedExactly(n: int, k: nat, side: Side, szDecimals: int)
    requires k >= 6
    ensures BoundedWirePrice(n, k, side, szDecimals).Price? <==>
      && n > 0
      && 0 <= szDecimals <= 6
      && (side.Short? ==> n >= Pow10(k - 6 + szDecimals))
      && InRange(n, k, side)
  {
    if n > 0 && 0 <= szDecimals <= 6 {
      var q := Quantum(n, k, szDecimals);
      var r := Quantize(n, q, side);
      QuantizeSpec(n, q, side);
      OneTickExactly(n, k, szDecimals);
      if r > 0 {
        RoundedOnTick(n, k, side, szDecimals);
        RangeExactly(n, k, side, szDecimals);
        MultipleTimes(0, q);
        MultipleSteps(0, r, q);
      } else if n >= q {
        MultipleTimes(0, q);
        MultipleTimes(1, q);
      }
    }
  }

  /** An accepted price is a whole number of quanta within one quantum of the
      raw bound on the book's side of it, satisfies the venue's tick rule, and
      is left alone by a second rounding. */
  lemma RoundsTowardTheBook(n: int, k: nat, side: Side, szDecimals: int)
    requires k >= 6
    requires BoundedWirePrice(n, k, side, szDecimals).Price?
    ensures n > 0 && 0 <= szDecimals <= 6
    ensures
      var r := BoundedWirePrice(n, k, side, szDecimals).units;
      var q := Quantum(n, k, szDecimals);
      && r > 0
      && Multiple(r, q)
      && (side.Long? ==> n <= r < n + q)
      && (side.Short? ==> n - q < r <= n)
      && FractionalPlaces(r, k) <= 6 - szDecimals
      && SignificantDigits(r) <= 5
      && BoundedWirePrice(r, k, side, szDecimals) == Price(r)
  {
    var q := Quantum(n, k, szDecimals);
    var r := Quantize(n, q, side);
    QuantizeSpec(n, q, side);
    RoundedOnTick(n, k, side, szDecimals);
    RoundedIsOwnMultiple(n, k, side, szDecimals);
    QuantizeFixed(r, Quantum(r, k, szDecimals), side);
  }

  /** Tick encoding never widens the slippage: in units of 10^-(kb + kp + 4),
      a long close is bounded below by bid * (1 - bps / 10000) and a short close
      above by ask * (1 + bps / 10000). */
  lemma SlippageNeverWidens(book: int, kb: nat, bps: int, kp: nat, side: Side, szDecimals: int)
    requires kb + kp >= 2
    requires CloseBound(book, kb, bps, kp, side, szDecimals).Price?
    ensures
      var r := CloseBound(book, kb, bps, kp, side, szDecimals).units;
      var whole := BASIS_POINTS * Pow10(kp);
      && (side.Long? ==> r >= book * whole - book * bps)
      && (side.Short? ==> r <= book * whole + book * bps)
  {
    Distribute(book, BASIS_POINTS * Pow10(kp), bps);
    RoundsTowardTheBook(RawCloseBound(book, kb, bps, kp, side), kb + kp + 4, side, szDecimals);
  }

  lemma Distribute(a: int, b: int, c: int)
    ensures a * (b - c) == a * b - a * c
    ensures a * (b + c) == a * b + a * c
  {
  }

  /** Below one tick a short bound cannot be encoded: it is rejected, never
      rounded up. */
  lemma ShortBelowOneTick()
    ensures BoundedWirePrice(5, 7, Short, 6) == Rejected(NotPositive)
    ensures BoundedWirePrice(5, 7, Long, 6) == Price(10000000)
  {
    assert Quantum(5, 7, 6) == 10000000 by {
      assert Pow10(7) == 10 * Pow10(6) == 100 * Pow10(5) == 1000 * Pow10(4);
      assert Pow10(4) == 10 * Pow10(3) == 100 * Pow10(2) == 1000 * Pow10(1);
    }
    QuantizeSpec(5, 10000000, Short);
    AcceptedExactly(5, 7, Long, 6);
  }
}
