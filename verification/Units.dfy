/** Decimal text and integer base units (sherwood_monitor/fund/units.py), with its 100-digit decimal context. */
module Units {
  import opened Text
  import opened Numerals

  // The context: 100 digits, and the default range of exponents.
  const PRECISION := 100
  const EMAX := 999999
  const ETINY := -1000098     // the least exponent a coefficient can have
  const ETOP := 999900        // the largest exponent a 100-digit coefficient can have
  const MAX_SHIFT := 2000198  // the largest shift `scaleb` takes

  function Pow10(n: nat): (r: nat)
    ensures r >= 1
  {
    if n == 0 then 1 else 10 * Pow10(n - 1)
  }

  function Zeros(n: nat): (s: string)
    ensures |s| == n && forall i :: 0 <= i < n ==> s[i] == '0'
  {
    seq(n, i => '0')
  }

  /** A decimal number: coefficient times 10^exponent. */
  datatype Decimal = Decimal(negative: bool, coefficient: nat, exponent: int)

  /** How many digits a coefficient has. */
  function DigitCount(n: nat): nat {
    |ShowNat(n)|
  }

  /** A coefficient without its last digits, rounded half to even. */
  function RoundAway(c: nat, drop: nat): nat
    requires drop > 0
  {
    var s := ShowNat(c);
    if drop > |s| then 0
    else
      var kept, tail := s[..|s| - drop], s[|s| - drop..];
      Value(kept) + (if AboveHalf(tail) || (IsHalf(tail) && IsOdd(kept)) then 1 else 0)
  }

  predicate AboveHalf(tail: string)
    requires tail != ""
  {
    tail[0] > '5' || (tail[0] == '5' && tail[1..] != Zeros(|tail| - 1))
  }

  predicate IsHalf(tail: string)
    requires tail != ""
  {
    tail[0] == '5' && tail[1..] == Zeros(|tail| - 1)
  }

  predicate IsOdd(kept: string) {
    kept != "" && DigitValue(kept[|kept| - 1]) % 2 == 1
  }

  function Max(a: int, b: int): int {
    if a >= b then a else b
  }

  /** A result fitted into the context: rounded to its precision, or to its least exponent; None is Overflow. */
  function Fix(x: Decimal): Option<Decimal> {
    var low := DigitCount(x.coefficient) + x.exponent - PRECISION;
    if x.coefficient == 0 then Some(x.(exponent := if x.exponent > EMAX then EMAX else Max(x.exponent, ETINY)))
    else if low > ETOP then None
    else if x.exponent >= Max(low, ETINY) then Some(x)
    else Refit(x.negative, RoundAway(x.coefficient, Max(low, ETINY) - x.exponent), Max(low, ETINY))
  }

  /** A carry into one digit more gives a digit up. */
  function Refit(negative: bool, c: nat, exponent: int): Option<Decimal> {
    if DigitCount(c) <= PRECISION then Some(Decimal(negative, c, exponent))
    else if exponent + 1 > ETOP then None
    else Some(Decimal(negative, c / 10, exponent + 1))
  }

  /** `value.scaleb(n)`; None is InvalidOperation or Overflow. */
  function ScaleB(x: Decimal, n: int): Option<Decimal> {
    if n < -MAX_SHIFT || n > MAX_SHIFT then None else Fix(x.(exponent := x.exponent + n))
  }

  /** `int(x)` when `x == x.to_integral_value()`, None otherwise. */
  function Integral(x: Decimal): Option<int> {
    if x.exponent >= 0 then Some(Signed(x.negative, x.coefficient * Pow10(x.exponent)))
    else if x.coefficient % Pow10(-x.exponent) != 0 then None
    else Some(Signed(x.negative, x.coefficient / Pow10(-x.exponent)))
  }

  function Signed(negative: bool, n: nat): int {
    var m: int := n;
    if negative then -m else m
  }

  function Abs(n: int): nat {
    if n < 0 then -n else n
  }

  // ----- parsing

  function Remove(s: string): string {
    if s == "" then "" else (if s[0] == ',' || s[0] == '_' then "" else [s[0]]) + Remove(s[1..])
  }

  function FirstDot(s: string): (n: nat)
    ensures n <= |s| && (n < |s| ==> s[n] == '.') && forall i :: 0 <= i < n ==> s[i] != '.'
  {
    if s == "" || s[0] == '.' then 0 else 1 + FirstDot(s[1..])
  }

  /** `^-?\d+(\.\d+)?$`: the sign, the digits before the point and those after it. */
  datatype Literal = Literal(negative: bool, whole: string, fraction: string)

  function Match(text: string): Option<Literal> {
    var negative := text != "" && text[0] == '-';
    MatchBody(negative, if negative then text[1..] else text)
  }

  function MatchBody(negative: bool, body: string): Option<Literal> {
    var n := FirstDot(body);
    var whole := body[..n];
    if whole == "" || !AllDigits(whole) then None
    else if n == |body| then Some(Literal(negative, whole, ""))
    else if n + 1 == |body| || !AllDigits(body[n + 1..]) then None
    else Some(Literal(negative, whole, body[n + 1..]))
  }

  function ValueOf(l: Literal): Decimal {
    Decimal(l.negative, Value(l.whole + l.fraction), -|l.fraction|)
  }

  /** Rejected is UnitsError; Raised is an exception of the decimal arithmetic. */
  datatype Parsed = Amount(value: int) | Rejected | Raised

  /** `to_base_units` on text. */
  function ToBaseUnits(amount: string, decimals: nat, allowNegative: bool): Parsed {
    var l := Match(Remove(Strip(amount)));
    if l.None? then Rejected else FromDecimal(ValueOf(l.value), decimals, allowNegative)
  }

  /** `to_base_units` on an integer. */
  function IntToBaseUnits(amount: int, decimals: nat, allowNegative: bool): Parsed {
    FromDecimal(Decimal(amount < 0, Abs(amount), 0), decimals, allowNegative)
  }

  predicate BadSign(x: Decimal, allowNegative: bool) {
    x.negative && x.coefficient > 0 && !allowNegative
  }

  /** `to_base_units` on a finite Decimal, and the rest of it on other amounts. */
  function FromDecimal(x: Decimal, decimals: nat, allowNegative: bool): Parsed {
    if BadSign(x, allowNegative) then Rejected
    else
      var scaled := ScaleB(x, decimals);
      if scaled.None? then Raised else AsAmount(Integral(scaled.value))
  }

  function AsAmount(v: Option<int>): Parsed {
    if v.Some? then Amount(v.value) else Rejected
  }

  // ----- printing

  function RStripChar(s: string, c: char): string {
    if s != "" && s[|s| - 1] == c then RStripChar(s[..|s| - 1], c) else s
  }

  /** `format(value, "f")` without the sign. */
  function Plain(x: Decimal): string {
    var s := ShowNat(x.coefficient);
    if x.exponent >= 0 then (if x.coefficient == 0 then "0" else s + Zeros(x.exponent))
    else
      var places: nat := -x.exponent;
      var padded := if |s| > places then s else Zeros(places + 1 - |s|) + s;
      padded[..|padded| - places] + "." + padded[|padded| - places..]
  }

  /** `format_units`; None is an exception of the decimal arithmetic. */
  function FormatUnits(units: int, decimals: nat): Option<string> {
    var x := ScaleB(Decimal(units < 0, Abs(units), 0), 0 - decimals);
    if x.None? then None else Some(FormatDecimal(x.value))
  }

  function FormatDecimal(x: Decimal): string {
    Trim((if x.negative then "-" else "") + Plain(x))
  }

  /** Trailing zeros go, and the point with them if nothing is left behind it. */
  function Trim(text: string): string {
    if '.' in text then RStripChar(RStripChar(text, '0'), '.') else text
  }

  // ----- digit strings

  lemma {:induction false} ValueAppend(a: string, b: string)
    ensures Value(a + b) == Value(a) * Pow10(|b|) + Value(b)
  {
    if b == "" {
      assert a + b == a;
    } else {
      var n := |b| - 1;
      ValueAppend(a, b[..n]);
      assert (a + b)[..|a + b| - 1] == a + b[..n];
      Carry(Value(a), Pow10(n));
    }
  }

  lemma Carry(v: nat, p: nat)
    ensures v * (10 * p) == 10 * (v * p)
  {}

  lemma {:induction false} ValueZeros(n: nat)
    ensures Value(Zeros(n)) == 0
  {
    if n > 0 {
      ValueZeros(n - 1);
      assert Zeros(n)[..n - 1] == Zeros(n - 1);
    }
  }

  lemma ValueTrailingZeros(a: string, n: nat)
    ensures Value(a + Zeros(n)) == Value(a) * Pow10(n)
  {
    ValueAppend(a, Zeros(n));
    ValueZeros(n);
  }

  lemma {:induction false} ValueBounded(a: string)
    ensures Value(a) < Pow10(|a|)
  {
    if a != "" {
      ValueBounded(a[..|a| - 1]);
    }
  }

  lemma {:induction false} ValueIsZero(a: string)
    requires AllDigits(a)
    ensures Value(a) == 0 <==> forall i :: 0 <= i < |a| ==> a[i] == '0'
  {
    if a != "" {
      ValueIsZero(a[..|a| - 1]);
      assert forall i :: 0 <= i < |a| - 1 ==> a[..|a| - 1][i] == a[i];
    }
  }

  // ----- parsing is exact

  /** The fraction cut or padded to the given number of places. */
  function ToPlaces(fraction: string, places: nat): string {
    if |fraction| >= places then fraction[..places] else fraction + Zeros(places - |fraction|)
  }

  lemma MultipleFarFromZero(k: int, p: nat)
    ensures k >= 1 ==> k * p >= p
    ensures k <= -1 ==> k * p + p <= 0
  {}

  lemma DivMod(q: nat, p: nat, r: nat)
    requires p > 0 && r < p
    ensures (q * p + r) / p == q && (q * p + r) % p == r
  {
    var d: int, m: int := (q * p + r) / p, (q * p + r) % p;
    assert (d - q) * p == r - m;
    MultipleFarFromZero(d - q, p);
  }

  lemma SplitsAt(keep: string, past: string)
    ensures Value(keep + past) / Pow10(|past|) == Value(keep) && Value(keep + past) % Pow10(|past|) == Value(past)
  {
    ValueAppend(keep, past);
    ValueBounded(past);
    DivMod(Value(keep), Pow10(|past|), Value(past));
  }

  /** With few enough places all of the number is kept. */
  lemma FewPlaces(l: Literal, decimals: nat)
    requires |l.fraction| <= decimals
    ensures Integral(Decimal(l.negative, Value(l.whole + l.fraction), decimals - |l.fraction|))
            == Some(Signed(l.negative, Value(l.whole + ToPlaces(l.fraction, decimals))))
  {
    var n := decimals - |l.fraction|;
    ValueTrailingZeros(l.whole + l.fraction, n);
    assert l.whole + l.fraction + Zeros(n) == l.whole + ToPlaces(l.fraction, decimals);
  }

  /** With too many, the number is integral exactly when those past the last are zeros. */
  lemma ManyPlaces(l: Literal, decimals: nat)
    requires |l.fraction| > decimals && AllDigits(l.fraction)
    ensures var r := Integral(Decimal(l.negative, Value(l.whole + l.fraction), decimals - |l.fraction|));
            && (r.None? <==> exists k :: decimals <= k < |l.fraction| && l.fraction[k] != '0')
            && (r.Some? ==> r.value == Signed(l.negative, Value(l.whole + ToPlaces(l.fraction, decimals))))
  {
    var keep, past := l.whole + l.fraction[..decimals], l.fraction[decimals..];
    assert l.whole + l.fraction == keep + past;
    SplitsAt(keep, past);
    ValueIsZero(past);
    assert forall k :: decimals <= k < |l.fraction| ==> l.fraction[k] == past[k - decimals];
    assert forall i :: 0 <= i < |past| ==> past[i] == l.fraction[decimals + i];
  }

  // ----- digits and powers

  lemma {:induction false} DigitsBound(c: nat)
    ensures c < Pow10(DigitCount(c)) && (c > 0 ==> Pow10(DigitCount(c) - 1) <= c) && DigitCount(c) >= 1
  {
    if c < 10 {
      assert Pow10(1) == 10 * Pow10(0) && Pow10(0) == 1;
    } else {
      DigitsBound(c / 10);
      assert DigitCount(c) == DigitCount(c / 10) + 1;
    }
  }

  lemma {:induction false} PowMonotone(a: nat, b: nat)
    requires a <= b
    ensures Pow10(a) <= Pow10(b) && (a < b ==> 10 * Pow10(a) <= Pow10(b))
  {
    if a < b {
      PowMonotone(a, b - 1);
    }
  }

  lemma {:induction false} PowSum(a: nat, b: nat)
    ensures Pow10(a + b) == Pow10(a) * Pow10(b)
  {
    if b > 0 {
      PowSum(a, b - 1);
      var p, q := Pow10(a), Pow10(b - 1);
      assert Pow10(a + b) == 10 * (p * q);
      assert p * (10 * q) == 10 * (p * q);
    }
  }

  lemma TopDigit(d: nat, p: nat, v: nat)
    requires d < 10 && v < p
    ensures 2 * (d * p + v) > 10 * p <==> d > 5 || (d == 5 && v > 0)
    ensures d == 0 && v == 0 <==> d * p + v == 0
  {
    if d >= 6 {
      assert d * p >= 6 * p;
    } else if d <= 4 {
      assert d * p <= 4 * p;
    }
  }

  lemma HalfIff(tail: string)
    requires tail != "" && AllDigits(tail)
    ensures AboveHalf(tail) <==> 2 * Value(tail) > Pow10(|tail|)
    ensures Value(tail) == 0 ==> !AboveHalf(tail) && !IsHalf(tail)
  {
    var rest := tail[1..];
    assert tail == [tail[0]] + rest;
    ValueAppend([tail[0]], rest);
    assert [tail[0]][..0] == "" && Value([tail[0]]) == DigitValue(tail[0]);
    ValueBounded(rest);
    ValueIsZero(rest);
    TopDigit(DigitValue(tail[0]), Pow10(|rest|), Value(rest));
    assert rest == Zeros(|rest|) <==> forall i :: 0 <= i < |rest| ==> rest[i] == '0';
  }

  /** The digits kept and those dropped. */
  lemma RoundParts(c: nat, drop: nat) returns (kept: string, tail: string)
    requires 0 < drop <= DigitCount(c)
    ensures |tail| == drop && AllDigits(tail) && (kept == "" <==> drop == DigitCount(c))
    ensures RoundAway(c, drop) == Value(kept) + (if AboveHalf(tail) || (IsHalf(tail) && IsOdd(kept)) then 1 else 0)
    ensures Value(kept) == c / Pow10(drop) && Value(tail) == c % Pow10(drop) && Value(kept) < Pow10(DigitCount(c) - drop)
  {
    kept, tail := RoundDigits(c, drop);
    SplitsAt(kept, tail);
    ValueBounded(kept);
  }

  lemma RoundDigits(c: nat, drop: nat) returns (kept: string, tail: string)
    requires 0 < drop <= DigitCount(c)
    ensures |tail| == drop && AllDigits(tail) && |kept| == DigitCount(c) - drop && Value(kept + tail) == c
    ensures RoundAway(c, drop) == Value(kept) + (if AboveHalf(tail) || (IsHalf(tail) && IsOdd(kept)) then 1 else 0)
  {
    var s := ShowNat(c);
    ShowNatReads(c);
    kept, tail := s[..|s| - drop], s[|s| - drop..];
    assert s == kept + tail;
  }

  lemma TimesMonotone(a: nat, b: nat, p: nat)
    requires a <= b
    ensures a * p <= b * p && p * a <= p * b
  {}

  lemma DivFacts(c: nat, p: nat)
    requires p > 0
    ensures c == (c / p) * p + c % p && 0 <= c % p < p && c / p >= 0
  {}

  lemma QuotientPositive(c: nat, p: nat)
    requires 0 < p <= c
    ensures c / p >= 1
  {
    DivFacts(c, p);
    MultipleFarFromZero(1 - c / p, p);
    assert (1 - c / p) * p == p - (c / p) * p;
  }

  lemma SmallQuotient(c: nat, p: nat)
    requires p > 0 && c < p
    ensures c / p == 0 && c % p == c
  {
    DivMod(0, p, c);
  }

  /** Rounding gives zero exactly up to one half, keeps what it can, and adds no digit beyond a carry. */
  lemma RoundFacts(c: nat, drop: nat)
    requires drop > 0
    ensures RoundAway(c, drop) == 0 <==> 2 * c <= Pow10(drop)
    ensures RoundAway(c, drop) <= c
    ensures drop > DigitCount(c) ==> RoundAway(c, drop) == 0
  {
    DigitsBound(c);
    var n := DigitCount(c);
    if drop > n {
      PowMonotone(n, drop);
      SmallQuotient(c, Pow10(drop));
    } else {
      var kept, tail := RoundParts(c, drop);
      HalfIff(tail);
      if drop == n {
        SmallQuotient(c, Pow10(drop));
      } else {
        RoundKeeps(c, drop);
      }
    }
  }

  lemma RoundKeeps(c: nat, drop: nat)
    requires 0 < drop < DigitCount(c)
    ensures c >= Pow10(drop) && c / Pow10(drop) >= 1 && c / Pow10(drop) + 1 <= c
  {
    DigitsBound(c);
    PowMonotone(drop, DigitCount(c) - 1);
    PowMonotone(0, drop);
    QuotientSmaller(c, Pow10(drop));
  }

  lemma QuotientSmaller(c: nat, p: nat)
    requires 10 <= p <= c
    ensures c / p >= 1 && c / p + 1 <= c
  {
    QuotientPositive(c, p);
    DivFacts(c, p);
    var q := c / p;
    TimesMonotone(10, p, q);
  }

  // ----- when parsing is exact

  /** What the documentation promises: the amount times 10^decimals, or an error if that is no integer. */
  function Exact(x: Decimal, decimals: nat, allowNegative: bool): Parsed {
    if x.negative && x.coefficient != 0 && !allowNegative then Rejected
    else AsAmount(Integral(x.(exponent := x.exponent + decimals)))
  }

  /** Too large for the context. */
  predicate Overflows(x: Decimal, decimals: nat) {
    decimals > MAX_SHIFT || (x.coefficient > 0 && DigitCount(x.coefficient) + x.exponent + decimals > EMAX + 1)
  }

  /** So small that the context makes a zero of it. */
  predicate Vanishes(x: Decimal, decimals: nat) {
    x.coefficient > 0 && x.exponent + decimals < ETINY && 2 * x.coefficient <= Pow10(ETINY - (x.exponent + decimals))
  }

  lemma TooSmallForIntegral(x: Decimal)
    requires x.exponent < 0 && 0 < x.coefficient < Pow10(-x.exponent)
    ensures Integral(x).None?
  {
    SmallQuotient(x.coefficient, Pow10(-x.exponent));
  }

  lemma ZeroIntegral(x: Decimal)
    requires x.coefficient == 0
    ensures Integral(x) == Some(0)
  {
    if x.exponent < 0 {
      SmallQuotient(0, Pow10(-x.exponent));
    }
  }

  lemma FixSmall(x: Decimal)
    requires 0 < x.coefficient && DigitCount(x.coefficient) <= PRECISION && x.exponent < ETINY
    ensures Fix(x) == Some(Decimal(x.negative, RoundAway(x.coefficient, ETINY - x.exponent), ETINY))
  {
    RoundFacts(x.coefficient, ETINY - x.exponent);
    DigitCountMonotone(RoundAway(x.coefficient, ETINY - x.exponent), x.coefficient);
  }

  lemma FixPlain(x: Decimal)
    requires 0 < x.coefficient && DigitCount(x.coefficient) <= PRECISION && x.exponent >= ETINY
    ensures Fix(x) == if DigitCount(x.coefficient) + x.exponent > EMAX + 1 then None else Some(x)
  {}

  lemma BelowOne(c: nat, e: int)
    requires DigitCount(c) <= PRECISION && e <= ETINY
    ensures c < Pow10(-e)
  {
    DigitsBound(c);
    PowMonotone(DigitCount(c), -e);
  }

  /** What becomes of a finite Decimal of at most 100 digits, whatever the number of decimals. */
  lemma ParseIs(x: Decimal, decimals: nat, allowNegative: bool)
    requires DigitCount(x.coefficient) <= PRECISION
    ensures FromDecimal(x, decimals, allowNegative) ==
            if BadSign(x, allowNegative) then Rejected
            else if Overflows(x, decimals) then Raised
            else if Vanishes(x, decimals) then Amount(0)
            else Exact(x, decimals, allowNegative)
  {
    var y := x.(exponent := x.exponent + decimals);
    if x.coefficient == 0 {
      ZeroIntegral(y);
      ZeroFix(y);
    } else if y.exponent >= ETINY {
      FixPlain(y);
    } else {
      SmallParse(y);
    }
  }

  lemma ZeroFix(y: Decimal)
    requires y.coefficient == 0
    ensures Fix(y).Some? && Integral(Fix(y).value) == Some(0)
  {
    ZeroIntegral(Fix(y).value);
  }

  lemma SmallParse(y: Decimal)
    requires 0 < y.coefficient && DigitCount(y.coefficient) <= PRECISION && y.exponent < ETINY
    ensures Fix(y).Some? && Integral(y).None?
    ensures Integral(Fix(y).value) == if 2 * y.coefficient <= Pow10(ETINY - y.exponent) then Some(0) else None
  {
    var r := RoundAway(y.coefficient, ETINY - y.exponent);
    FixSmall(y);
    RoundFacts(y.coefficient, ETINY - y.exponent);
    BelowOne(y.coefficient, y.exponent);
    TooSmallForIntegral(y);
    BelowOne(y.coefficient, ETINY);
    if r == 0 {
      ZeroIntegral(Fix(y).value);
    } else {
      TooSmallForIntegral(Fix(y).value);
    }
  }

  /** Parsing keeps its promise if and only if the scaled amount neither overflows the context nor vanishes in it (or its
      sign is refused anyway). */
  lemma ParseExactIff(x: Decimal, decimals: nat, allowNegative: bool)
    requires DigitCount(x.coefficient) <= PRECISION
    ensures FromDecimal(x, decimals, allowNegative) == Exact(x, decimals, allowNegative)
            <==> (x.negative && x.coefficient != 0 && !allowNegative) || (!Overflows(x, decimals) && !Vanishes(x, decimals))
  {
    ParseIs(x, decimals, allowNegative);
    if Vanishes(x, decimals) {
      SmallParse(x.(exponent := x.exponent + decimals));
    }
  }

  lemma OneDigit()
    ensures DigitCount(1) == 1
  {}

  /** One token with a million decimals raises. */
  lemma MillionDecimalsRaise()
    ensures IntToBaseUnits(1, 1000000, false) == Raised && Exact(Decimal(false, 1, 0), 1000000, false).Amount?
  {
    OneDigit();
    ParseIs(Decimal(false, 1, 0), 1000000, false);
  }

  /** The least positive number with two million places reads as 0, although it has a digit past the last place. */
  lemma TinyAmountVanishes()
    ensures FromDecimal(Decimal(false, 1, -2000000), 0, false) == Amount(0)
    ensures Exact(Decimal(false, 1, -2000000), 0, false) == Rejected
  {
    var x := Decimal(false, 1, -2000000);
    OneDigit();
    PowMonotone(1, ETINY - x.exponent);
    assert Pow10(1) == 10 * Pow10(0);
    ParseIs(x, 0, false);
    SmallParse(x);
  }

  lemma MatchedDigits(text: string)
    requires Match(text).Some?
    ensures AllDigits(Match(text).value.whole) && AllDigits(Match(text).value.fraction)
  {}

  /** The promise in terms of the digits: rejected exactly for a sign that is not allowed or a nonzero digit past the last
      place; otherwise the number written by the digits down to that place. */
  lemma ExactOfLiteral(l: Literal, decimals: nat, allowNegative: bool)
    requires AllDigits(l.fraction)
    ensures var r := Exact(ValueOf(l), decimals, allowNegative);
            && !r.Raised?
            && (r.Rejected? <==> BadSign(ValueOf(l), allowNegative)
                                 || exists k :: decimals <= k < |l.fraction| && l.fraction[k] != '0')
            && (r.Amount? ==> r.value == Signed(l.negative, Value(l.whole + ToPlaces(l.fraction, decimals))))
  {
    if |l.fraction| <= decimals {
      FewPlaces(l, decimals);
    } else {
      ManyPlaces(l, decimals);
    }
  }

  predicate AllZeros(s: string) {
    forall i :: 0 <= i < |s| ==> s[i] == '0'
  }

  lemma RemoveFirst(s: string)
    requires s != ""
    ensures Remove(s) == if s[0] in {',', '_'} then Remove(s[1..]) else [s[0]] + Remove(s[1..])
  {
    assert "" + Remove(s[1..]) == Remove(s[1..]);
  }

  /** Commas and underscores count for nothing, wherever they stand. */
  lemma {:induction false} SeparatorsIgnored(a: string, c: char, b: string)
    requires c in {',', '_'}
    ensures Remove(a + [c] + b) == Remove(a + b)
  {
    var with, without := a + [c] + b, a + b;
    if a == "" {
      assert with == [c] + b && without == b && with[1..] == b;
      RemoveFirst(with);
    } else {
      SeparatorsIgnored(a[1..], c, b);
      assert with[1..] == a[1..] + [c] + b && without[1..] == a[1..] + b;
      RemoveFirst(with);
      RemoveFirst(without);
    }
  }

  /** An integer of at most 100 digits that stays within the context gives its product with 10^decimals, unless it is negative
      where that is not allowed. */
  lemma IntExact(n: int, decimals: nat, allowNegative: bool)
    requires DigitCount(Abs(n)) <= PRECISION
    requires var x := Decimal(n < 0, Abs(n), 0); !Overflows(x, decimals) && !Vanishes(x, decimals)
    ensures IntToBaseUnits(n, decimals, allowNegative)
            == if n < 0 && !allowNegative then Rejected else Amount(n * Pow10(decimals))
  {
    var x := Decimal(n < 0, Abs(n), 0);
    ParseExactIff(x, decimals, allowNegative);
    SignedTimes(n, Pow10(decimals));
  }

  lemma SignedTimes(n: int, p: nat)
    ensures Signed(n < 0, Abs(n) * p) == n * p
  {
    if n < 0 {
      assert (-n) * p == -(n * p);
    }
  }

  /** A decimal text with at most 100 digits, not too large or small for the context, is rejected exactly when it is
      negative where that is not allowed, or has a nonzero digit past the last place; otherwise it gives the number written
      by its digits down to that place, that is, its value times 10^decimals. */
  lemma ParseExact(amount: string, decimals: nat, allowNegative: bool)
    requires var m := Match(Remove(Strip(amount)));
             && m.Some? && DigitCount(ValueOf(m.value).coefficient) <= PRECISION
             && !Overflows(ValueOf(m.value), decimals) && !Vanishes(ValueOf(m.value), decimals)
    ensures var l := Match(Remove(Strip(amount))).value;
            var r := ToBaseUnits(amount, decimals, allowNegative);
            && !r.Raised?
            && (r.Rejected? <==> (l.negative && !allowNegative && !AllZeros(l.whole + l.fraction))
                                 || exists k :: decimals <= k < |l.fraction| && l.fraction[k] != '0')
            && (r.Amount? ==> r.value == Signed(l.negative, Value(l.whole + ToPlaces(l.fraction, decimals))))
  {
    var l := Match(Remove(Strip(amount))).value;
    MatchedDigits(Remove(Strip(amount)));
    ValueIsZero(l.whole + l.fraction);
    ParseExactIff(ValueOf(l), decimals, allowNegative);
    ExactOfLiteral(l, decimals, allowNegative);
  }

  // ----- the round trip

  lemma {:induction false} RemoveNone(s: string)
    requires forall i :: 0 <= i < |s| ==> s[i] != ',' && s[i] != '_'
    ensures Remove(s) == s
  {
    if s != "" {
      RemoveNone(s[1..]);
    }
  }

  lemma {:induction false} RStripZeros(s: string) returns (n: nat)
    ensures s == RStripChar(s, '0') + Zeros(n)
    ensures RStripChar(s, '0') != "" ==> RStripChar(s, '0')[|RStripChar(s, '0')| - 1] != '0'
  {
    if s != "" && s[|s| - 1] == '0' {
      var m := RStripZeros(s[..|s| - 1]);
      n := m + 1;
      assert s == s[..|s| - 1] + "0";
      assert Zeros(m) + "0" == Zeros(n);
    } else {
      n := 0;
    }
  }

  lemma {:induction false} RStripPast(head: string, s: string, c: char)
    requires head != "" && head[|head| - 1] != c
    ensures RStripChar(head + s, c) == head + RStripChar(s, c)
  {
    if s == "" {
      assert head + s == head;
    } else {
      assert (head + s)[..|head + s| - 1] == head + s[..|s| - 1];
      if s[|s| - 1] == c {
        RStripPast(head, s[..|s| - 1], c);
      }
    }
  }

  lemma {:induction false} FirstDotAt(whole: string, rest: string)
    requires AllDigits(whole)
    ensures FirstDot(whole + rest) == |whole| + FirstDot(rest)
  {
    if whole == "" {
      assert whole + rest == rest;
    } else {
      FirstDotAt(whole[1..], rest);
      assert (whole + rest)[1..] == whole[1..] + rest && (whole + rest)[0] == whole[0];
    }
  }

  predicate WellFormed(l: Literal) {
    l.whole != "" && AllDigits(l.whole) && AllDigits(l.fraction)
  }

  function Tail(l: Literal): string {
    if l.fraction == "" then "" else "." + l.fraction
  }

  /** The text of a literal. */
  function Written(l: Literal): string {
    (if l.negative then "-" else "") + (l.whole + Tail(l))
  }

  lemma WrittenIsClean(l: Literal)
    requires WellFormed(l)
    ensures Remove(Strip(Written(l))) == Written(l)
  {
    var text, body := Written(l), l.whole + Tail(l);
    assert forall i :: 0 <= i < |body| ==> IsDigit(body[i]) || body[i] == '.';
    assert text[|text| - 1] == body[|body| - 1];
    assert text[0] == '-' || text[0] == body[0];
    StripTrimmed(text);
    RemoveNone(text);
  }

  lemma BodySplits(l: Literal)
    requires WellFormed(l)
    ensures var body := l.whole + Tail(l);
            FirstDot(body) == |l.whole| && body[..|l.whole|] == l.whole
            && (l.fraction != "" ==> body[|l.whole| + 1..] == l.fraction)
  {
    FirstDotAt(l.whole, Tail(l));
    if l.fraction != "" {
      assert Tail(l)[0] == '.';
      assert (l.whole + Tail(l))[|l.whole| + 1..] == l.fraction;
    }
  }

  lemma BodyMatches(l: Literal)
    requires WellFormed(l)
    ensures MatchBody(l.negative, l.whole + Tail(l)) == Some(l)
  {
    BodySplits(l);
  }

  /** Reading a written literal gives it back. */
  lemma MatchWritten(l: Literal)
    requires WellFormed(l)
    ensures Match(Remove(Strip(Written(l)))) == Some(l)
  {
    WrittenIsClean(l);
    BodyMatches(l);
    var text, body := Written(l), l.whole + Tail(l);
    if l.negative {
      assert text[1..] == body;
    } else {
      assert text == body && body[0] == l.whole[0];
    }
  }

  /** The digits of a coefficient, with zeros in front so that at least one stands before the point. */
  function Padded(c: nat, places: nat): string {
    var s := ShowNat(c);
    if |s| > places then s else Zeros(places + 1 - |s|) + s
  }

  lemma ZerosRead(n: nat, s: string)
    requires AllDigits(s)
    ensures AllDigits(Zeros(n) + s) && Value(Zeros(n) + s) == Value(s)
  {
    ValueAppend(Zeros(n), s);
    ValueZeros(n);
  }

  lemma PaddedReads(c: nat, places: nat)
    ensures |Padded(c, places)| > places && AllDigits(Padded(c, places)) && Value(Padded(c, places)) == c
  {
    ShowNatReads(c);
    if |ShowNat(c)| <= places {
      ZerosRead(places + 1 - |ShowNat(c)|, ShowNat(c));
    }
  }

  /** Where the point goes. */
  lemma PlainSplits(x: Decimal) returns (whole: string, places: string)
    requires x.exponent < 0
    ensures Plain(x) == whole + "." + places && |places| == -x.exponent
    ensures whole != "" && AllDigits(whole) && AllDigits(places) && Value(whole + places) == x.coefficient
  {
    var n := -x.exponent;
    var p := Padded(x.coefficient, n);
    PaddedReads(x.coefficient, n);
    whole, places := p[..|p| - n], p[|p| - n..];
    assert whole + places == p;
  }

  lemma TrimZeros(front: string, places: string)
    ensures RStripChar(front + "." + places, '0') == front + "." + RStripChar(places, '0')
  {
    RStripPast(front + ".", places, '0');
  }

  lemma TrimPoint(front: string, fraction: string)
    requires front != "" && front[|front| - 1] != '.' && AllDigits(fraction)
    ensures RStripChar(front + "." + fraction, '.') == if fraction == "" then front else front + "." + fraction
  {
    if fraction == "" {
      assert front + "." + fraction == front + ".";
      RStripPast(front, ".", '.');
      assert "."[..0] == "";
      assert front + "" == front;
    } else {
      var t := front + "." + fraction;
      assert t[|t| - 1] == fraction[|fraction| - 1];
    }
  }

  /** The literal for "whole.places" with the trailing zeros of the places dropped. */
  function Trimmed0(negative: bool, whole: string, places: string): Literal {
    Literal(negative, whole, RStripChar(places, '0'))
  }

  lemma TrimFacts(places: string)
    requires AllDigits(places)
    ensures AllDigits(RStripChar(places, '0')) && |RStripChar(places, '0')| <= |places|
    ensures places == RStripChar(places, '0') + Zeros(|places| - |RStripChar(places, '0')|)
  {
    var n := RStripZeros(places);
    var fraction := RStripChar(places, '0');
    assert forall i :: 0 <= i < |fraction| ==> fraction[i] == places[i];
  }

  lemma TrimFront(front: string, places: string)
    requires front != "" && front[|front| - 1] != '.' && AllDigits(places)
    ensures var fraction := RStripChar(places, '0');
            Trim(front + "." + places) == if fraction == "" then front else front + "." + fraction
  {
    assert (front + "." + places)[|front|] == '.';
    TrimZeros(front, places);
    TrimFacts(places);
    TrimPoint(front, RStripChar(places, '0'));
  }

  lemma Regroup(sign: string, whole: string, tail: string)
    ensures sign + (whole + tail) == (sign + whole) + tail
    ensures sign + (whole + "." + tail) == (sign + whole) + "." + tail
    ensures sign + (whole + ("." + tail)) == (sign + whole) + "." + tail
    ensures sign + (whole + "") == sign + whole
  {}

  lemma TrimIsWritten(negative: bool, whole: string, places: string)
    requires whole != "" && AllDigits(whole) && AllDigits(places)
    ensures Trim((if negative then "-" else "") + (whole + "." + places)) == Written(Trimmed0(negative, whole, places))
  {
    var sign := if negative then "-" else "";
    Regroup(sign, whole, places);
    Regroup(sign, whole, RStripChar(places, '0'));
    assert (sign + whole)[|sign + whole| - 1] == whole[|whole| - 1];
    TrimFront(sign + whole, places);
  }

  lemma FormatWhole(x: Decimal) returns (l: Literal)
    requires x.exponent == 0
    ensures FormatDecimal(x) == Written(l)
    ensures WellFormed(l) && l.fraction == "" && l.negative == x.negative && Value(l.whole) == x.coefficient
  {
    var s := ShowNat(x.coefficient);
    ShowNatReads(x.coefficient);
    l := Literal(x.negative, s, "");
    assert s + Zeros(0) == s;
    assert s + "" == s;
    assert '.' !in (if x.negative then "-" else "") + s;
  }

  lemma FormatSplit(x: Decimal, whole: string, places: string)
    requires Plain(x) == whole + "." + places
    requires whole != "" && AllDigits(whole) && AllDigits(places)
    ensures FormatDecimal(x) == Written(Trimmed0(x.negative, whole, places))
  {
    TrimIsWritten(x.negative, whole, places);
  }

  /** What is printed is a literal whose digits, with the dropped zeros put back, are the number's. */
  lemma FormatIsWritten(x: Decimal, n: nat) returns (l: Literal)
    requires x.exponent + n == 0
    ensures FormatDecimal(x) == Written(l)
    ensures WellFormed(l) && |l.fraction| <= n && l.negative == x.negative
    ensures Value(l.whole + l.fraction) * Pow10(n - |l.fraction|) == x.coefficient
  {
    if x.exponent == 0 {
      l := FormatWhole(x);
      assert l.whole + l.fraction == l.whole;
    } else {
      var whole, places := PlainSplits(x);
      FormatSplit(x, whole, places);
      TrimFacts(places);
      l := Trimmed0(x.negative, whole, places);
      var z: nat := |places| - |l.fraction|;
      assert whole + places == l.whole + l.fraction + Zeros(z);
      ValueTrailingZeros(l.whole + l.fraction, z);
    }
  }

  lemma {:induction false} DigitCountMonotone(a: nat, b: nat)
    requires a <= b
    ensures DigitCount(a) <= DigitCount(b)
  {
    if a >= 10 {
      DigitCountMonotone(a / 10, b / 10);
    }
  }

  /** A product of at most n digits leaves room for its factors. */
  lemma DigitsOfProduct(c: nat, e: nat, n: nat)
    requires c > 0 && c * Pow10(e) < Pow10(n)
    ensures DigitCount(c) + e <= n
  {
    DigitsBound(c);
    var k: nat := DigitCount(c) - 1;
    PowSum(k, e);
    TimesMonotone(Pow10(k), c, Pow10(e));
    PowBelow(k + e, n);
  }

  lemma PowBelow(a: nat, n: nat)
    requires Pow10(a) < Pow10(n)
    ensures a < n
  {
    if a >= n {
      PowMonotone(n, a);
    }
  }

  /** c times 10^n, digit by digit. */
  function Shifted(c: nat, n: nat): nat {
    if n == 0 then c else 10 * Shifted(c, n - 1)
  }

  lemma {:induction false} ShiftedIs(c: nat, n: nat)
    ensures Shifted(c, n) == c * Pow10(n)
  {
    if n > 0 {
      ShiftedIs(c, n - 1);
      var p := Pow10(n - 1);
      assert c * (10 * p) == 10 * (c * p);
    }
  }

  lemma {:induction false} ShiftedSum(c: nat, a: nat, b: nat)
    ensures Shifted(Shifted(c, a), b) == Shifted(c, a + b)
  {
    if b > 0 {
      ShiftedSum(c, a, b - 1);
    }
  }

  lemma {:induction false} ShiftedGrows(c: nat, n: nat)
    ensures c <= Shifted(c, n)
  {
    if n > 0 {
      ShiftedGrows(c, n - 1);
    }
  }

  lemma ShiftedDigits(c: nat, e: nat, n: nat)
    requires c > 0 && Shifted(c, e) < Pow10(n)
    ensures DigitCount(c) + e <= n
  {
    ShiftedIs(c, e);
    DigitsOfProduct(c, e, n);
  }

  lemma IntegralShifted(x: Decimal)
    requires x.exponent >= 0
    ensures Integral(x) == Some(Signed(x.negative, Shifted(x.coefficient, x.exponent)))
  {
    ShiftedIs(x.coefficient, x.exponent);
  }

  /** Reading a literal whose scaled value is an integer of moderate size gives that integer. */
  lemma WrittenReads(l: Literal, decimals: nat, n: nat, allowNegative: bool)
    requires WellFormed(l) && |l.fraction| <= decimals <= MAX_SHIFT && n <= EMAX
    requires Shifted(Value(l.whole + l.fraction), decimals - |l.fraction|) < Pow10(n)
    requires DigitCount(Value(l.whole + l.fraction)) <= PRECISION && (l.negative ==> allowNegative)
    ensures FromDecimal(ValueOf(l), decimals, allowNegative)
            == Amount(Signed(l.negative, Shifted(Value(l.whole + l.fraction), decimals - |l.fraction|)))
  {
    var c := Value(l.whole + l.fraction);
    if c > 0 {
      ShiftedDigits(c, decimals - |l.fraction|, n);
    }
    ParseIs(ValueOf(l), decimals, allowNegative);
    IntegralShifted(ValueOf(l).(exponent := decimals - |l.fraction|));
  }

  lemma WrittenParses(text: string, l: Literal, decimals: nat, allowNegative: bool)
    requires text == Written(l) && WellFormed(l)
    ensures ToBaseUnits(text, decimals, allowNegative) == FromDecimal(ValueOf(l), decimals, allowNegative)
  {
    MatchWritten(l);
  }

  /** Printing and reading back. */
  function Reread(units: int, decimals: nat, allowNegative: bool): Parsed {
    var text := FormatUnits(units, decimals);
    if text.None? then Raised else ToBaseUnits(text.value, decimals, allowNegative)
  }

  /** The coefficient that is printed, and its exponent. */
  lemma ScaledDown(units: int, decimals: nat) returns (y: Decimal)
    requires DigitCount(Abs(units)) <= PRECISION && decimals <= MAX_SHIFT
    ensures ScaleB(Decimal(units < 0, Abs(units), 0), 0 - decimals) == Some(y) && y.negative == (units < 0)
    ensures y.exponent == Max(0 - decimals, ETINY)
    ensures decimals <= -ETINY ==> y.coefficient == Abs(units)
    ensures decimals > -ETINY && units != 0 ==> y.coefficient == RoundAway(Abs(units), decimals + ETINY)
    ensures units == 0 ==> y.coefficient == 0
  {
    var x := Decimal(units < 0, Abs(units), 0 - decimals);
    if units != 0 {
      if decimals > -ETINY {
        FixSmall(x);
      } else {
        FixPlain(x);
      }
    }
    y := Fix(x).value;
  }

  /** The literal that is printed stands for coefficient times 10^exponent. */
  lemma PrintedLiteral(y: Decimal, places: nat, decimals: nat) returns (l: Literal)
    requires y.exponent + places == 0 && places <= decimals
    ensures FormatDecimal(y) == Written(l) && WellFormed(l) && l.negative == y.negative && |l.fraction| <= decimals
    ensures Value(l.whole + l.fraction) <= y.coefficient
    ensures Shifted(Value(l.whole + l.fraction), decimals - |l.fraction|) == Shifted(y.coefficient, decimals - places)
  {
    l := FormatShifted(y, places);
    LiteralThrough(l, places, decimals, y.coefficient);
  }

  lemma LiteralThrough(l: Literal, places: nat, decimals: nat, whole: nat)
    requires |l.fraction| <= places <= decimals && Shifted(Value(l.whole + l.fraction), places - |l.fraction|) == whole
    ensures Shifted(Value(l.whole + l.fraction), decimals - |l.fraction|) == Shifted(whole, decimals - places)
    ensures Value(l.whole + l.fraction) <= whole
  {
    ShiftedThrough(Value(l.whole + l.fraction), places - |l.fraction|, decimals - places, decimals - |l.fraction|, whole);
  }

  lemma ShiftedThrough(c: nat, a: nat, b: nat, sum: nat, whole: nat)
    requires Shifted(c, a) == whole && a + b == sum
    ensures Shifted(c, sum) == Shifted(whole, b) && c <= whole
  {
    ShiftedSum(c, a, b);
    ShiftedGrows(c, a);
  }

  lemma FormatShifted(x: Decimal, n: nat) returns (l: Literal)
    requires x.exponent + n == 0
    ensures FormatDecimal(x) == Written(l) && WellFormed(l) && |l.fraction| <= n && l.negative == x.negative
    ensures Shifted(Value(l.whole + l.fraction), n - |l.fraction|) == x.coefficient
  {
    l := FormatIsWritten(x, n);
    ShiftedIs(Value(l.whole + l.fraction), n - |l.fraction|);
  }

  lemma TextReads(y: Decimal, places: nat, decimals: nat, n: nat, allowNegative: bool)
    requires y.exponent + places == 0 && places <= decimals <= MAX_SHIFT
    requires (y.negative ==> allowNegative) && DigitCount(y.coefficient) <= PRECISION
    requires Shifted(y.coefficient, decimals - places) < Pow10(n) && n <= EMAX
    ensures ToBaseUnits(FormatDecimal(y), decimals, allowNegative) == Amount(Signed(y.negative, Shifted(y.coefficient, decimals - places)))
  {
    var l := PrintedLiteral(y, places, decimals);
    DigitCountMonotone(Value(l.whole + l.fraction), y.coefficient);
    WrittenReads(l, decimals, n, allowNegative);
    WrittenParses(FormatDecimal(y), l, decimals, allowNegative);
  }

  lemma UnitsBound(units: int)
    requires DigitCount(Abs(units)) <= PRECISION
    ensures Abs(units) < Pow10(PRECISION)
  {
    DigitsBound(Abs(units));
    PowMonotone(DigitCount(Abs(units)), PRECISION);
  }

  /** With decimals down to the least exponent nothing is lost. */
  lemma RereadKeeps(units: int, decimals: nat, allowNegative: bool)
    requires DigitCount(Abs(units)) <= PRECISION && decimals <= -ETINY && (units < 0 ==> allowNegative)
    ensures Reread(units, decimals, allowNegative) == Amount(units)
  {
    var y := ScaledDown(units, decimals);
    UnitsBound(units);
    TextReads(y, decimals, decimals, PRECISION, allowNegative);
  }

  lemma RoundedBound(c: nat, drop: nat, n: nat)
    requires drop > 0 && DigitCount(c) <= n
    ensures Shifted(RoundAway(c, drop), drop) < Pow10(2 * n + 1)
  {
    var r := RoundAway(c, drop);
    RoundFacts(c, drop);
    if drop <= DigitCount(c) {
      DigitsBound(c);
      ShiftedBound(r, DigitCount(c), drop);
      PowMonotone(DigitCount(c) + drop, 2 * n + 1);
    } else {
      ShiftedZero(drop);
    }
  }

  lemma {:induction false} ShiftedZero(n: nat)
    ensures Shifted(0, n) == 0
  {
    if n > 0 {
      ShiftedZero(n - 1);
    }
  }

  lemma {:induction false} ShiftedBound(r: nat, a: nat, b: nat)
    requires r < Pow10(a)
    ensures Shifted(r, b) < Pow10(a + b)
  {
    if b > 0 {
      ShiftedBound(r, a, b - 1);
    }
  }

  /** Past that, what comes back is the rounded number. */
  lemma RereadRounds(units: int, decimals: nat, drop: nat, allowNegative: bool)
    requires DigitCount(Abs(units)) <= PRECISION && -ETINY < decimals <= MAX_SHIFT && (units < 0 ==> allowNegative)
    requires drop == decimals + ETINY
    ensures Reread(units, decimals, allowNegative) == Amount(Signed(units < 0, Shifted(RoundAway(Abs(units), drop), drop)))
  {
    var y := ScaledDown(units, decimals);
    RoundFacts(Abs(units), drop);
    RoundedBound(Abs(units), drop, PRECISION);
    DigitCountMonotone(RoundAway(Abs(units), drop), Abs(units));
    assert y.coefficient == RoundAway(Abs(units), drop);
    TextReads(y, -ETINY, decimals, 2 * PRECISION + 1, allowNegative);
  }

  /** The last n digits are zeros. */
  predicate EndsInZeros(c: nat, n: nat) {
    n == 0 || (c % 10 == 0 && EndsInZeros(c / 10, n - 1))
  }

  lemma {:induction false} ZerosOff(c: nat, n: nat) returns (q: nat)
    requires EndsInZeros(c, n)
    ensures c == Shifted(q, n)
  {
    if n == 0 {
      q := c;
    } else {
      q := ZerosOff(c / 10, n - 1);
    }
  }

  lemma {:induction false} ShiftedEnds(q: nat, n: nat)
    ensures EndsInZeros(Shifted(q, n), n)
  {
    if n > 0 {
      ShiftedEnds(q, n - 1);
      OneMoreZero(Shifted(q, n - 1), n);
    }
  }

  lemma TenTimes(x: nat)
    ensures 10 * x % 10 == 0 && 10 * x / 10 == x
  {}

  lemma OneMoreZero(x: nat, n: nat)
    requires n > 0 && EndsInZeros(x, n - 1)
    ensures EndsInZeros(10 * x, n)
  {
    TenTimes(x);
  }

  lemma RoundingKeeps(q: nat, drop: nat)
    requires drop > 0
    ensures RoundAway(Shifted(q, drop), drop) == q
  {
    var c := Shifted(q, drop);
    DigitsBound(c);
    ShiftedIs(q, drop);
    if drop > DigitCount(c) {
      FewerThan(q, drop, c);
    } else {
      var kept, tail := RoundParts(c, drop);
      DivMod(q, Pow10(drop), 0);
      HalfIff(tail);
    }
  }

  lemma FewerThan(q: nat, drop: nat, c: nat)
    requires c == Shifted(q, drop) && c < Pow10(DigitCount(c)) && drop > DigitCount(c)
    ensures q == 0
  {
    if q > 0 {
      PowMonotone(DigitCount(c), drop);
      ShiftedDigits(q, drop, DigitCount(c));
    }
  }

  /** Rounding loses nothing exactly when it drops zeros. */
  lemma RoundedSameIff(c: nat, drop: nat)
    requires drop > 0
    ensures Shifted(RoundAway(c, drop), drop) == c <==> EndsInZeros(c, drop)
  {
    ShiftedEnds(RoundAway(c, drop), drop);
    if EndsInZeros(c, drop) {
      var q := ZerosOff(c, drop);
      RoundingKeeps(q, drop);
    }
  }

  lemma RereadRaises(units: int, decimals: nat, allowNegative: bool)
    requires decimals > MAX_SHIFT
    ensures Reread(units, decimals, allowNegative) == Raised
  {}

  lemma RoundedRereadIff(units: int, decimals: nat, drop: nat, allowNegative: bool)
    requires DigitCount(Abs(units)) <= PRECISION && -ETINY < decimals <= MAX_SHIFT && (units < 0 ==> allowNegative)
    requires drop == decimals + ETINY
    ensures Reread(units, decimals, allowNegative) == Amount(units) <==> EndsInZeros(Abs(units), drop)
  {
    RereadRounds(units, decimals, drop, allowNegative);
    RoundedSameIff(Abs(units), drop);
  }

  /** Printing an integer of at most 100 digits and reading it back gives the integer if and only if there are at most
      1,000,098 decimals, or the number ends in a zero for each one more (and there are at most 2,000,198). */
  lemma FormatRoundTripsIff(units: int, decimals: nat, allowNegative: bool)
    requires DigitCount(Abs(units)) <= PRECISION && (units < 0 ==> allowNegative)
    ensures Reread(units, decimals, allowNegative) == Amount(units)
            <==> decimals <= -ETINY || (decimals <= MAX_SHIFT && EndsInZeros(Abs(units), decimals + ETINY))
  {
    if decimals <= -ETINY {
      RereadKeeps(units, decimals, allowNegative);
    } else if decimals <= MAX_SHIFT {
      RoundedRereadIff(units, decimals, decimals + ETINY, allowNegative);
    } else {
      RereadRaises(units, decimals, allowNegative);
    }
  }

  /** So every number of decimals that a token can have is safe. */
  lemma FormatRoundTrips(units: int, decimals: nat, allowNegative: bool)
    requires DigitCount(Abs(units)) <= PRECISION && (units < 0 ==> allowNegative) && decimals <= -ETINY
    ensures Reread(units, decimals, allowNegative) == Amount(units)
  {
    FormatRoundTripsIff(units, decimals, allowNegative);
  }

  /** One unit with more decimals than that comes back as 0. */
  lemma OneUnitLost(decimals: nat)
    requires -ETINY < decimals <= MAX_SHIFT
    ensures Reread(1, decimals, false) == Amount(0)
  {
    OneDigit();
    OneRoundsAway(decimals + ETINY);
    RereadRounds(1, decimals, decimals + ETINY, false);
  }

  lemma OneRoundsAway(drop: nat)
    requires drop > 0
    ensures Shifted(RoundAway(1, drop), drop) == 0
  {
    RoundFacts(1, drop);
    PowMonotone(1, drop);
    assert Pow10(1) == 10 * Pow10(0);
    ShiftedZero(drop);
  }
}
