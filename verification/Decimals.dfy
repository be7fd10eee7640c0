/**
 Python `decimal.Decimal` values and the default context's arithmetic: every `+` and every
 unary `-` is computed exactly and then rounded, half to even, to 28 significant digits.
 */
module Decimals {
  import opened Numerals

  const PRECISION: nat := 28

  /** The number `coef * 10^exp`. */
  datatype Decimal = Decimal(coef: int, exp: int)

  /** `x * 10^e`, one decimal place at a time. */
  function Shift(x: real, e: int): real
    decreases if e < 0 then -e else e
  {
    if e == 0 then x
    else if e > 0 then 10.0 * Shift(x, e - 1)
    else Shift(x, e + 1) / 10.0
  }

  /** The number a `Decimal` stands for; Python's `==` on decimals compares these. */
  function Value(d: Decimal): real {
    Shift(d.coef as real, d.exp)
  }

  predicate SameAmount(a: Decimal, b: Decimal) {
    Value(a) == Value(b)
  }

  function Abs(n: int): nat {
    if n < 0 then -n else n
  }

  /** The coefficient and the number of dropped digits when `n` is cut to 28 digits, half to even. */
  function RoundMagnitude(n: nat): (int, nat)
  {
    if Digits(n) <= PRECISION then
      (n, 0)
    else
      Cut(n, Digits(n) - PRECISION)
  }

  /** `n` with its last `k` digits rounded away. */
  function Cut(n: nat, k: nat): (int, nat) {
    var rounded := HalfEven(n / Pow10(k), n % Pow10(k), Pow10(k));
    if rounded == Pow10(PRECISION) then (Pow10(PRECISION - 1), k + 1) else (rounded, k)
  }

  function HalfEven(q: int, r: int, unit: int): int {
    if 2 * r > unit || (2 * r == unit && q % 2 == 1) then q + 1 else q
  }

  function Round(d: Decimal): Decimal {
    var (q, k) := RoundMagnitude(Abs(d.coef));
    Decimal(if d.coef < 0 then -q else q, d.exp + k)
  }

  /** The sum before rounding, written with the smaller of the two exponents. */
  function ExactSum(a: Decimal, b: Decimal): Decimal {
    var e := if a.exp <= b.exp then a.exp else b.exp;
    Decimal(a.coef * Pow10(a.exp - e) + b.coef * Pow10(b.exp - e), e)
  }

  function Add(a: Decimal, b: Decimal): Decimal {
    Round(ExactSum(a, b))
  }

  function Negate(a: Decimal): Decimal {
    Round(Decimal(-a.coef, a.exp))
  }

  predicate Fits(d: Decimal) {
    Abs(d.coef) < Pow10(PRECISION)
  }

  /** Some 28-digit decimal stands for exactly `v`. */
  ghost predicate Representable(v: real) {
    exists d: Decimal :: Fits(d) && Value(d) == v
  }

  // ---- shifting ---------------------------------------------------------------------------

  lemma {:induction false} ShiftAdds(x: real, y: real, e: int)
    ensures Shift(x + y, e) == Shift(x, e) + Shift(y, e)
    decreases Abs(e)
  {
    if e > 0 {
      ShiftAdds(x, y, e - 1);
    } else if e < 0 {
      ShiftAdds(x, y, e + 1);
    }
  }

  lemma {:induction false} ShiftMonotone(x: real, y: real, e: int)
    ensures Shift(x, e) < Shift(y, e) <==> x < y
    decreases Abs(e)
  {
    if e > 0 {
      ShiftMonotone(x, y, e - 1);
    } else if e < 0 {
      ShiftMonotone(x, y, e + 1);
    }
  }

  lemma {:induction false} ShiftInside(x: real, e: int)
    ensures Shift(10.0 * x, e) == 10.0 * Shift(x, e)
    decreases Abs(e)
  {
    if e > 0 {
      ShiftInside(x, e - 1);
    } else if e < 0 {
      ShiftInside(x, e + 1);
    }
  }

  lemma {:induction false} ShiftBack(x: real, e: nat)
    ensures Shift(x, 0 - e) * Pow10(e) as real == x
    ensures Shift(x, e) == x * Pow10(e) as real
  {
    if e > 0 {
      ShiftBack(x, e - 1);
      var low, p := Shift(x, 1 - e), Pow10(e - 1) as real;
      assert Pow10(e) as real == 10.0 * p && Shift(x, 0 - e) == low / 10.0;
      assert low / 10.0 * (10.0 * p) == low * p;
      assert 10.0 * (x * p) == x * (10.0 * p);
    }
  }

  /** A decimal is its coefficient times, or over, a power of ten. */
  lemma ValueIs(c: int, e: nat)
    ensures Value(Decimal(c, e)) == c as real * Pow10(e) as real
    ensures Value(Decimal(c, 0 - e)) * Pow10(e) as real == c as real
  {
    ShiftBack(c as real, e);
  }

  lemma ShiftNegates(x: real, e: int)
    ensures Shift(-x, e) == -Shift(x, e)
  {
    ShiftAdds(x, -x, e);
    ShiftAdds(0.0, 0.0, e);
  }

  /** Padding a coefficient with zeros does not change the number. */
  lemma {:induction false} Rescale(c: int, e: int, k: nat)
    ensures Value(Decimal(c * Pow10(k), e)) == Value(Decimal(c, e + k))
    decreases k
  {
    if k > 0 {
      Rescale(10 * c, e, k - 1);
      assert (10 * c) * Pow10(k - 1) == c * Pow10(k);
      assert (10 * c) as real == 10.0 * (c as real);
      ShiftInside(c as real, e + k - 1);
    }
  }

  lemma ValueInjective(a: int, b: int, e: int)
    requires Value(Decimal(a, e)) == Value(Decimal(b, e))
    ensures a == b
  {
    ShiftMonotone(a as real, b as real, e);
    ShiftMonotone(b as real, a as real, e);
  }

  lemma ValueSign(d: Decimal)
    ensures Value(d) > 0.0 <==> d.coef > 0
  {
    ShiftAdds(0.0, 0.0, d.exp);
    ShiftMonotone(0.0, d.coef as real, d.exp);
  }

  lemma ExactSumIsExact(a: Decimal, b: Decimal)
    ensures Value(ExactSum(a, b)) == Value(a) + Value(b)
  {
    var e := if a.exp <= b.exp then a.exp else b.exp;
    Rescale(a.coef, e, a.exp - e);
    Rescale(b.coef, e, b.exp - e);
    ValueAdds(a.coef * Pow10(a.exp - e), b.coef * Pow10(b.exp - e), e);
  }

  lemma ValueAdds(x: int, y: int, e: int)
    ensures Value(Decimal(x + y, e)) == Value(Decimal(x, e)) + Value(Decimal(y, e))
  {
    ShiftAdds(x as real, y as real, e);
  }

  lemma ValueNegates(c: int, e: int)
    ensures Value(Decimal(-c, e)) == -Value(Decimal(c, e))
  {
    ShiftNegates(c as real, e);
    assert (-c) as real == -(c as real);
  }

  // ---- integer steps ----------------------------------------------------------------------

  lemma MulMonotone(a: nat, b: nat, d: nat)
    requires a <= b
    ensures a * d <= b * d
  {
  }

  lemma DivUnique(n: nat, d: nat, q: nat, r: nat)
    requires n == q * d + r && r < d
    ensures n / d == q && n % d == r
  {
    var x, y := n / d, n % d;
    assert (x + 1) * d == x * d + d;
    assert (q + 1) * d == q * d + d;
    if x < q {
      MulMonotone(x + 1, q, d);
    } else if x > q {
      MulMonotone(q + 1, x, d);
    }
  }

  lemma DivBounds(n: nat, d: nat, lo: nat, hi: nat)
    requires d > 0 && lo * d <= n < hi * d
    ensures lo <= n / d < hi
  {
    var q := n / d;
    assert n == q * d + n % d;
    assert (q + 1) * d == q * d + d;
    if q < lo {
      MulMonotone(q + 1, lo, d);
    }
    if q >= hi {
      MulMonotone(hi, q, d);
    }
  }

  lemma AbsMul(a: int, p: nat)
    ensures Abs(a * p) == Abs(a) * p
  {
  }

  lemma MulLess(a: nat, b: nat, x: nat, y: nat)
    requires a < b && 0 < x <= y
    ensures a * x < b * y
  {
  }

  // ---- rounding ---------------------------------------------------------------------------

  lemma RoundedQuotient(n: nat)
    requires Digits(n) > PRECISION
    ensures Pow10(PRECISION - 1) <= n / Pow10(Digits(n) - PRECISION) < Pow10(PRECISION)
  {
    assert n > 0;
    hide Digits;
    var k := Digits(n) - PRECISION;
    DigitsBound(n);
    Pow10Sum(PRECISION, k);
    Pow10Sum(PRECISION - 1, k);
    DivBounds(n, Pow10(k), Pow10(PRECISION - 1), Pow10(PRECISION));
  }

  /** `c` units are within half a unit of `n`, and a tie goes to an even `c`. */
  predicate Nearest(n: int, c: int, unit: int) {
    && 2 * Abs(c * unit - n) <= unit
    && (2 * Abs(c * unit - n) == unit ==> c % 2 == 0)
  }

  lemma HalfEvenIsNearest(n: nat, q: nat, r: nat, unit: nat)
    requires n == q * unit + r && r < unit
    ensures Nearest(n, HalfEven(q, r, unit), unit)
  {
  }

  /** Rounding up may carry into a 29th digit, which is dropped again without loss. */
  lemma Carried(n: nat, c: int, unit: nat, p: nat)
    requires Nearest(n, c, unit) && c == 10 * p && unit > 0
    requires exists h: nat :: p == 10 * h
    ensures Nearest(n, p, 10 * unit)
  {
  }

  /** The result has at most 28 digits and is the nearest such multiple of its unit, ties to even. */
  lemma RoundMagnitudeIsNearestEven(n: nat)
    ensures var (c, j) := RoundMagnitude(n);
            && 0 <= c < Pow10(PRECISION)
            && Nearest(n, c, Pow10(j))
            && (j > 0 ==> Pow10(PRECISION - 1) <= c)
  {
    hide Digits, Cut, Nearest;
    DigitsBound(n);
    if Digits(n) <= PRECISION {
      Pow10Monotone(Digits(n), PRECISION);
      assert Pow10(0) == 1;
      ItselfNearest(n);
    } else {
      RoundedQuotient(n);
      CutIsNearest(n, Digits(n) - PRECISION);
    }
  }

  lemma ItselfNearest(n: nat)
    ensures Nearest(n, n, 1)
  {
  }

  lemma CutIsNearest(n: nat, k: nat)
    requires Pow10(PRECISION - 1) <= n / Pow10(k) < Pow10(PRECISION)
    ensures var (c, j) := Cut(n, k);
            Pow10(PRECISION - 1) <= c < Pow10(PRECISION) && Nearest(n, c, Pow10(j))
  {
    var unit, p := Pow10(k), Pow10(PRECISION - 1);
    assert p == 10 * Pow10(PRECISION - 2) && Pow10(PRECISION - 2) > 0 && Pow10(PRECISION) == 10 * p && Pow10(k + 1) == 10 * unit && unit > 0;
    hide Pow10, Nearest, HalfEven;
    QuotientRemainder(n, unit);
    RoundedUnits(n, n / unit, n % unit, unit, p, Pow10(PRECISION - 2));
  }

  lemma RoundedUnits(n: nat, q: nat, r: nat, unit: nat, p: nat, h: nat)
    requires n == q * unit + r && r < unit && p == 10 * h && h > 0 && p <= q < 10 * p
    ensures var c := HalfEven(q, r, unit);
            p <= c <= 10 * p && Nearest(n, c, unit) && (c == 10 * p ==> Nearest(n, p, 10 * unit))
  {
    HalfEvenIsNearest(n, q, r, unit);
    if HalfEven(q, r, unit) == 10 * p {
      Carried(n, 10 * p, unit, p);
    }
  }

  lemma QuotientRemainder(n: nat, d: nat)
    requires d > 0
    ensures n == (n / d) * d + n % d && 0 <= n % d < d && n / d >= 0
  {
  }

  lemma MulAssociates(a: int, b: int, c: int)
    ensures (a * b) * c == a * (b * c)
  {
  }

  /**
   What the context does to a decimal: the result has at most 28 digits, all 28 of them when
   something was dropped, and no such decimal of its unit is closer; a tie goes to the even one.
   */
  lemma RoundIsNearestEven(d: Decimal) returns (unit: nat)
    ensures var r := Round(d);
            && r.exp >= d.exp && unit == Pow10(r.exp - d.exp)
            && Abs(r.coef) < Pow10(28) && (r.exp > d.exp ==> Abs(r.coef) >= Pow10(27))
            && 2 * Abs(r.coef * unit - d.coef) <= unit
            && (2 * Abs(r.coef * unit - d.coef) == unit ==> r.coef % 2 == 0)
  {
    var n := Abs(d.coef);
    var (q, k) := RoundMagnitude(n);
    unit := Pow10(k);
    RoundMagnitudeIsNearestEven(n);
    hide RoundMagnitude, Pow10;
    MirrorNearest(n, q, unit);
  }

  lemma MirrorNearest(n: nat, q: int, unit: nat)
    requires Nearest(n, q, unit)
    ensures Nearest(0 - n, 0 - q, unit)
  {
    assert (0 - q) * unit - (0 - n) == 0 - (q * unit - n);
  }

  /** A sum, or a unary minus, is the exact result rounded once. */
  lemma RoundedOnce(a: Decimal, b: Decimal)
    ensures exists exact: Decimal :: Value(exact) == Value(a) + Value(b) && Add(a, b) == Round(exact)
    ensures exists exact: Decimal :: Value(exact) == -Value(a) && Negate(a) == Round(exact)
  {
    ExactSumIsExact(a, b);
    ValueNegates(a.coef, a.exp);
    assert Add(a, b) == Round(ExactSum(a, b)) && Negate(a) == Round(Decimal(-a.coef, a.exp));
  }

  lemma RoundFits(d: Decimal)
    ensures Fits(Round(d))
  {
    RoundMagnitudeIsNearestEven(Abs(d.coef));
  }

  /** A multiple of the rounding unit loses nothing. */
  lemma RoundMagnitudeOfMultiple(n: nat, q: nat)
    requires Digits(n) > PRECISION && n == q * Pow10(Digits(n) - PRECISION)
    ensures RoundMagnitude(n) == (q, Digits(n) - PRECISION)
  {
    RoundedQuotient(n);
    DivUnique(n, Pow10(Digits(n) - PRECISION), q, 0);
  }

  /** Rounding leaves a number alone exactly when 28 digits are enough to write it. */
  lemma RoundExactIff(d: Decimal)
    ensures Value(Round(d)) == Value(d) <==> Representable(Value(d))
  {
    RoundFits(d);
    if Representable(Value(d)) {
      var w: Decimal :| Fits(w) && Value(w) == Value(d);
      RoundKeeps(d, w);
    }
  }

  lemma RoundKeeps(d: Decimal, w: Decimal)
    requires Fits(w) && Value(w) == Value(d)
    ensures Value(Round(d)) == Value(d)
  {
    var n := Abs(d.coef);
    if Digits(n) > PRECISION {
      var k := Digits(n) - PRECISION;
      CoarserThanUnit(d, w, k);
      var j := w.exp - d.exp;
      Rescale(w.coef, d.exp, j);
      ValueInjective(d.coef, w.coef * Pow10(j), d.exp);
      var c := w.coef * Pow10(j - k);
      Pow10Sum(j - k, k);
      MulAssociates(w.coef, Pow10(j - k), Pow10(k));
      AbsMul(c, Pow10(k));
      RoundMagnitudeOfMultiple(n, Abs(c));
      assert Round(d) == Decimal(c, d.exp + k) by { SignOfProduct(c, Pow10(k)); }
      Rescale(c, d.exp, k);
    }
  }

  lemma SignOfProduct(c: int, p: nat)
    requires p > 0
    ensures c * p < 0 <==> c < 0
  {
  }

  /** A number with more than 28 digits lies on no 28-digit grid finer than its rounding unit. */
  lemma CoarserThanUnit(d: Decimal, w: Decimal, k: nat)
    requires Fits(w) && Value(w) == Value(d)
    requires k > 0 && Digits(Abs(d.coef)) == PRECISION + k
    ensures w.exp >= d.exp + k
  {
    DigitsBound(Abs(d.coef));
    assert Abs(d.coef) > 0;
    hide Digits, Value;
    if w.exp <= d.exp {
      FinerGrid(d, w);
      Pow10Monotone(PRECISION, PRECISION + k - 1);
    } else if w.exp < d.exp + k {
      var j := w.exp - d.exp;
      CoarserGrid(d, w, j);
      Pow10Monotone(j, k - 1);
      Pow10Sum(PRECISION, k - 1);
      MulLess(Abs(w.coef), Pow10(PRECISION), Pow10(j), Pow10(k - 1));
    }
  }

  lemma FinerGrid(d: Decimal, w: Decimal)
    requires Value(w) == Value(d) && w.exp <= d.exp
    ensures Abs(w.coef) >= Abs(d.coef)
  {
    var j := d.exp - w.exp;
    Rescale(d.coef, w.exp, j);
    ValueInjective(w.coef, d.coef * Pow10(j), w.exp);
    AbsMul(d.coef, Pow10(j));
    MulMonotone(1, Pow10(j), Abs(d.coef));
  }

  lemma CoarserGrid(d: Decimal, w: Decimal, j: nat)
    requires Value(w) == Value(d) && w.exp == d.exp + j
    ensures Abs(d.coef) == Abs(w.coef) * Pow10(j)
  {
    Rescale(w.coef, d.exp, j);
    ValueInjective(d.coef, w.coef * Pow10(j), d.exp);
    AbsMul(w.coef, Pow10(j));
  }

  /** A rounded sum is the true sum exactly when the true sum needs at most 28 digits. */
  lemma AddExactIff(a: Decimal, b: Decimal)
    ensures Value(Add(a, b)) == Value(a) + Value(b) <==> Representable(Value(a) + Value(b))
  {
    ExactSumIsExact(a, b);
    RoundExactIff(ExactSum(a, b));
  }

  lemma NegateExactIff(a: Decimal)
    ensures Value(Negate(a)) == -Value(a) <==> Representable(Value(a))
  {
    ValueNegates(a.coef, a.exp);
    RoundExactIff(Decimal(-a.coef, a.exp));
    RepresentableNegation(Value(a));
    RepresentableNegation(-Value(a));
  }

  lemma RepresentableNegation(v: real)
    ensures Representable(v) ==> Representable(-v)
  {
    if Representable(v) {
      var w: Decimal :| Fits(w) && Value(w) == v;
      ValueNegates(w.coef, w.exp);
      assert Fits(Decimal(-w.coef, w.exp));
    }
  }

  // ---- amounts on a fixed grid ------------------------------------------------------------

  /** `v` is a whole number of units of `10^-s`. */
  ghost predicate MultipleOf(v: real, s: int) {
    exists d: Decimal :: d.exp == -s && Value(d) == v
  }

  lemma MultipleSum(u: real, v: real, s: int)
    requires MultipleOf(u, s) && MultipleOf(v, s)
    ensures MultipleOf(u + v, s) && MultipleOf(u - v, s)
  {
    var a: Decimal :| a.exp == -s && Value(a) == u;
    var b: Decimal :| b.exp == -s && Value(b) == v;
    var m, n := a.coef, b.coef;
    ValueAdds(m, n, -s);
    ValueAdds(m, -n, -s);
    ValueNegates(n, -s);
    assert u + v == Value(Decimal(m + n, -s));
    assert u - v == Value(Decimal(m + -n, -s));
  }

  /** Whole units of `10^-s` below `10^(28-s)` in size need at most 28 digits. */
  lemma MultipleRepresentable(v: real, s: int)
    requires MultipleOf(v, s)
    requires -Shift(1.0, PRECISION - s) < v < Shift(1.0, PRECISION - s)
    ensures Representable(v)
  {
    var d: Decimal :| d.exp == -s && Value(d) == v;
    var m := d.coef;
    Rescale(1, -s, PRECISION);
    var top: int := Pow10(PRECISION);
    ValueNegates(top, -s);
    var bottom: int := -top;
    ShiftMonotone(m as real, top as real, -s);
    ShiftMonotone(bottom as real, m as real, -s);
    assert Fits(Decimal(m, -s));
  }
}
