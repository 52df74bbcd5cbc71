/**
 Regime detection: the efficiency ratio and the least-squares slope of a series of closes, and
 the classification they drive. Reals stand for the floats; non-finite inputs do not occur.
 */
module Regime {
  import opened GridLevels
  import opened Numbers
  import opened Options

  // ----- sums

  /** The sum of i * s[i]. */
  function IndexSum(s: seq<real>): real {
    if s == [] then 0.0 else IndexSum(s[..|s|-1]) + Times((|s| - 1) as real, s[|s|-1])
  }

  /** The sum of i, and of i squared, for i below n. */
  function X1(n: nat): real {
    if n == 0 then 0.0 else X1(n - 1) + (n - 1) as real
  }

  function X2(n: nat): real {
    if n == 0 then 0.0 else X2(n - 1) + Times((n - 1) as real, (n - 1) as real)
  }

  function Numerator(s: seq<real>): real {
    Times(|s| as real, IndexSum(s)) - Times(X1(|s|), Sum(s))
  }

  function Denominator(n: nat): real {
    Times(n as real, X2(n)) - Times(X1(n), X1(n))
  }

  lemma {:induction false} ClosedSums(n: nat)
    ensures var x := n as real;
      2.0 * X1(n) == Times(x, x - 1.0) && 6.0 * X2(n) == x * (x - 1.0) * (2.0 * x - 1.0)
  {
    if n > 0 {
      ClosedSums(n - 1);
      var y := (n - 1) as real;
      assert n as real == y + 1.0;
      assert 6.0 * X2(n) == y * (y - 1.0) * (2.0 * y - 1.0) + 6.0 * (y * y);
    }
  }

  lemma DenominatorPolynomial(x: real, a: real, b: real)
    requires 2.0 * a == Times(x, x - 1.0) && 6.0 * b == x * (x - 1.0) * (2.0 * x - 1.0)
    ensures 12.0 * (Times(x, b) - Times(a, a)) == Times(x * x, x * x - 1.0)
  {
    assert 12.0 * (x * b) == 2.0 * x * (6.0 * b);
    assert 12.0 * (a * a) == 3.0 * ((2.0 * a) * (2.0 * a));
    var q := x * (x - 1.0);
    assert 2.0 * x * (q * (2.0 * x - 1.0)) - 3.0 * (q * q) == x * x * (x * x - 1.0);
  }

  lemma SignOf(x: real, d: real)
    requires x == 0.0 || x == 1.0 || x >= 2.0
    requires 12.0 * d == Times(x * x, x * x - 1.0)
    ensures d > 0.0 <==> x >= 2.0
    ensures d == 0.0 <==> x < 2.0
  {
    if x >= 2.0 {
      assert x * x >= 2.0 * x >= 4.0;
      Positive(x * x, x * x - 1.0);
    }
  }

  /** The denominator is n^2 (n^2 - 1) / 12, so it is zero exactly below two points. */
  lemma DenominatorClosed(n: nat)
    ensures 12.0 * Denominator(n) == Times((n as real) * (n as real), (n as real) * (n as real) - 1.0)
    ensures Denominator(n) > 0.0 <==> n >= 2
    ensures Denominator(n) == 0.0 <==> n < 2
  {
    ClosedSums(n);
    DenominatorPolynomial(n as real, X1(n), X2(n));
    SignOf(n as real, Denominator(n));
  }

  // ----- the slope is the least-squares slope

  function Slope(s: seq<real>): real
    requires Denominator(|s|) != 0.0
  {
    Over(Numerator(s), Denominator(|s|))
  }

  function Square(x: real): (r: real)
    ensures r >= 0.0
  {
    Times(x, x)
  }

  lemma SquareZero(x: real)
    ensures Square(x) == 0.0 <==> x == 0.0
  {
    if x > 0.0 {
      Positive(x, x);
    } else if x < 0.0 {
      Positive(-x, -x);
      assert Times(-x, -x) == Times(x, x);
    } else {
      assert Times(0.0, 0.0) == 0.0;
    }
  }

  lemma Positive(a: real, b: real)
    requires a > 0.0 && b > 0.0
    ensures Times(a, b) > 0.0
  {
  }

  /** The residual of the line a + b*i at a point, and the value of the line u + v*i. */
  function Error(y: real, i: nat, a: real, b: real): real {
    y - a - Times(b, i as real)
  }

  function Line(i: nat, u: real, v: real): real {
    u + Times(v, i as real)
  }

  /** The residual sum of squares of the line a + b*i. */
  function Residual(s: seq<real>, a: real, b: real): real {
    if s == [] then 0.0
    else Residual(s[..|s|-1], a, b) + Square(Error(s[|s|-1], |s| - 1, a, b))
  }

  function Cross(s: seq<real>, a: real, b: real, u: real, v: real): real {
    if s == [] then 0.0
    else Cross(s[..|s|-1], a, b, u, v) + Times(Error(s[|s|-1], |s| - 1, a, b), Line(|s| - 1, u, v))
  }

  /** The squared size of the line u + v*i over n points. */
  function Energy(n: nat, u: real, v: real): (r: real)
    ensures r >= 0.0
  {
    if n == 0 then 0.0 else Energy(n - 1, u, v) + Square(Line(n - 1, u, v))
  }

  lemma ErrorMoves(y: real, i: nat, a: real, b: real, u: real, v: real)
    ensures Error(y, i, a + u, b + v) == Error(y, i, a, b) - Line(i, u, v)
  {
    var x := i as real;
    assert (b + v) * x == b * x + v * x;
  }

  lemma SquareOfDifference(e: real, d: real)
    ensures Square(e - d) == Square(e) - 2.0 * Times(e, d) + Square(d)
  {
  }

  lemma {:induction false} ResidualMoves(s: seq<real>, a: real, b: real, u: real, v: real)
    ensures Residual(s, a + u, b + v) == Residual(s, a, b) - 2.0 * Cross(s, a, b, u, v) + Energy(|s|, u, v)
  {
    if s != [] {
      var i, y := |s| - 1, s[|s|-1];
      ResidualMoves(s[..i], a, b, u, v);
      ErrorMoves(y, i, a, b, u, v);
      SquareOfDifference(Error(y, i, a, b), Line(i, u, v));
    }
  }

  /** What the two normal equations leave over for the line a + b*i. */
  function Gap0(n: nat, s0: real, a: real, b: real): real {
    s0 - Times(a, n as real) - Times(b, X1(n))
  }

  function Gap1(n: nat, s1: real, a: real, b: real): real {
    s1 - Times(a, X1(n)) - Times(b, X2(n))
  }

  lemma Scale(x: real, a: real, b: real, c: real)
    ensures Times(x, a - b - c) == Times(x, a) - Times(x, b) - Times(x, c)
  {
  }

  lemma GapSteps(n: nat, s0: real, s1: real, y: real, a: real, b: real)
    ensures Gap0(n + 1, s0 + y, a, b) == Gap0(n, s0, a, b) + Error(y, n, a, b)
    ensures Gap1(n + 1, s1 + Times(n as real, y), a, b) == Gap1(n, s1, a, b) + Times(n as real, Error(y, n, a, b))
  {
    var i := n as real;
    assert Times(a, (n + 1) as real) == Times(a, i) + a;
    assert Times(b, X1(n + 1)) == Times(b, X1(n)) + Times(b, i);
    assert Times(a, X1(n + 1)) == Times(a, X1(n)) + Times(i, a);
    assert Times(b, X2(n + 1)) == Times(b, X2(n)) + Times(i, Times(b, i));
    Scale(i, y, a, Times(b, i));
  }

  lemma Distribute(u: real, v: real, i: real, g0: real, g1: real, e: real)
    ensures Times(u, g0 + e) + Times(v, g1 + Times(i, e)) == Times(u, g0) + Times(v, g1) + Times(e, u + Times(v, i))
  {
  }

  lemma {:induction false} CrossIsLinear(s: seq<real>, a: real, b: real, u: real, v: real)
    ensures Cross(s, a, b, u, v) == Times(u, Gap0(|s|, Sum(s), a, b)) + Times(v, Gap1(|s|, IndexSum(s), a, b))
  {
    if s != [] {
      var n, y := |s| - 1, s[|s|-1];
      var t := s[..n];
      CrossIsLinear(t, a, b, u, v);
      GapSteps(n, Sum(t), IndexSum(t), y, a, b);
      Distribute(u, v, n as real, Gap0(n, Sum(t), a, b), Gap1(n, IndexSum(t), a, b), Error(y, n, a, b));
    } else {
      assert X1(0) == 0.0 && X2(0) == 0.0;
    }
  }

  function Intercept(s: seq<real>): real
    requires |s| >= 2 && Denominator(|s|) != 0.0
  {
    Over(Sum(s) - Times(Slope(s), X1(|s|)), |s| as real)
  }

  /** Two equations in two unknowns, solved by the slope and the intercept. */
  lemma Solve(n: real, s0: real, s1: real, x1: real, x2: real, a: real, b: real)
    requires n != 0.0
    requires Times(a, n) == s0 - Times(b, x1)
    requires Times(b, Times(n, x2) - Times(x1, x1)) == Times(n, s1) - Times(x1, s0)
    ensures s1 - Times(a, x1) - Times(b, x2) == 0.0
  {
    var r := s1 - a * x1 - b * x2;
    assert n * r == n * s1 - (a * n) * x1 - b * (n * x2);
    assert (a * n) * x1 == s0 * x1 - b * (x1 * x1) by {
      assert (s0 - b * x1) * x1 == s0 * x1 - b * (x1 * x1);
    }
    assert b * (n * x2 - x1 * x1) == b * (n * x2) - b * (x1 * x1);
    assert n * r == 0.0;
  }

  lemma SolveBoth(n: real, s0: real, s1: real, x1: real, x2: real, d: real, num: real)
    requires n != 0.0 && d != 0.0
    requires d == Times(n, x2) - Times(x1, x1) && num == Times(n, s1) - Times(x1, s0)
    ensures var b := Over(num, d);
      var a := Over(s0 - Times(b, x1), n);
      s0 - Times(a, n) - Times(b, x1) == 0.0 && s1 - Times(a, x1) - Times(b, x2) == 0.0
  {
    var b := Over(num, d);
    var a := Over(s0 - Times(b, x1), n);
    Quotient(s0 - Times(b, x1), n);
    Quotient(num, d);
    Solve(n, s0, s1, x1, x2, a, b);
  }

  lemma NormalEquations(s: seq<real>)
    requires |s| >= 2 && Denominator(|s|) != 0.0
    ensures Gap0(|s|, Sum(s), Intercept(s), Slope(s)) == 0.0
    ensures Gap1(|s|, IndexSum(s), Intercept(s), Slope(s)) == 0.0
  {
    SolveBoth(|s| as real, Sum(s), IndexSum(s), X1(|s|), X2(|s|), Denominator(|s|), Numerator(s));
  }

  lemma {:induction false} EnergyZero(n: nat, u: real, v: real)
    requires n >= 2 && Energy(n, u, v) == 0.0
    ensures u == 0.0 && v == 0.0
  {
    if n > 2 {
      EnergyZero(n - 1, u, v);
    } else {
      assert Energy(2, u, v) == Energy(1, u, v) + Square(Line(1, u, v));
      assert Energy(1, u, v) == Square(Line(0, u, v));
      SquareZero(Line(0, u, v));
      SquareZero(Line(1, u, v));
    }
  }

  /** No other line has a residual sum as small: the slope is the unique least-squares slope. */
  lemma LeastSquares(s: seq<real>, a: real, b: real)
    requires |s| >= 2 && Denominator(|s|) != 0.0
    ensures Residual(s, Intercept(s), Slope(s)) <= Residual(s, a, b)
    ensures Residual(s, Intercept(s), Slope(s)) == Residual(s, a, b) ==> a == Intercept(s) && b == Slope(s)
  {
    var a0, b0 := Intercept(s), Slope(s);
    var u, v := a - a0, b - b0;
    ResidualMoves(s, a0, b0, u, v);
    CrossIsLinear(s, a0, b0, u, v);
    NormalEquations(s);
    assert Times(u, 0.0) == 0.0 && Times(v, 0.0) == 0.0;
    assert a0 + u == a && b0 + v == b;
    if Energy(|s|, u, v) == 0.0 {
      EnergyZero(|s|, u, v);
    }
  }

  /** linregSlope: null below two points; the zero-denominator exit is never taken. */
  method LinregSlope(values: seq<real>) returns (r: Option<real>)
    ensures Denominator(|values|) != 0.0 <==> |values| >= 2
    ensures r == if |values| < 2 then None else Some(Slope(values))
  {
    DenominatorClosed(|values|);
    var n := |values|;
    if n < 2 {
      return None;
    }
    var sx, sy, sxx, sxy := 0.0, 0.0, 0.0, 0.0;
    for i := 0 to n
      invariant sx == X1(i) && sxx == X2(i)
      invariant sy == Sum(values[..i]) && sxy == IndexSum(values[..i])
    {
      var x, y := i as real, values[i];
      assert values[..i+1][..i] == values[..i];
      sx, sy, sxx, sxy := sx + x, sy + y, sxx + Times(x, x), sxy + Times(x, y);
    }
    assert values[..n] == values;
    var denom := Times(n as real, sxx) - Times(sx, sx);
    if denom == 0.0 {
      return None;
    }
    r := Some(Over(Times(n as real, sxy) - Times(sx, sy), denom));
  }

  // ----- the reversed series

  function Reverse(s: seq<real>): (r: seq<real>)
    ensures |r| == |s|
    ensures forall k | 0 <= k < |s| :: r[k] == s[|s| - 1 - k]
  {
    if s == [] then [] else [s[|s|-1]] + Reverse(s[..|s|-1])
  }

  lemma {:induction false} Prepend(x: real, s: seq<real>)
    ensures Sum([x] + s) == x + Sum(s)
    ensures IndexSum([x] + s) == IndexSum(s) + Sum(s)
  {
    if s == [] {
      assert [x] + s == [x] && [x][..0] == [];
      assert Times(0.0, x) == 0.0;
    } else {
      var n, y := |s| - 1, s[|s|-1];
      Prepend(x, s[..n]);
      assert ([x] + s)[..|s|] == [x] + s[..n];
      assert Times(|s| as real, y) == Times(n as real, y) + y;
    }
  }

  lemma {:induction false} ReverseSums(s: seq<real>)
    ensures Sum(Reverse(s)) == Sum(s)
    ensures s != [] ==> IndexSum(Reverse(s)) == Times((|s| - 1) as real, Sum(s)) - IndexSum(s)
  {
    if s != [] {
      var n, y := |s| - 1, s[|s|-1];
      var t := s[..n];
      ReverseSums(t);
      Prepend(y, Reverse(t));
      if n > 0 {
        var m := (n - 1) as real;
        assert Times(n as real, Sum(t) + y) == Times(m, Sum(t)) + Sum(t) + Times(n as real, y);
      } else {
        assert Times(0.0, Sum(s)) == 0.0 && Times(0.0, y) == 0.0;
      }
    }
  }

  lemma NumeratorFlips(n: real, x1: real, s0: real, s1: real)
    requires 2.0 * x1 == Times(n, n - 1.0)
    ensures Times(n, Times(n - 1.0, s0) - s1) - Times(x1, s0) == -(Times(n, s1) - Times(x1, s0))
  {
    assert n * ((n - 1.0) * s0) == 2.0 * x1 * s0;
  }

  lemma OverNegates(p: real, q: real)
    requires q != 0.0
    ensures Over(-p, q) == -Over(p, q)
  {
  }

  lemma NumeratorReverses(s: seq<real>)
    requires s != []
    ensures Numerator(Reverse(s)) == -Numerator(s)
  {
    ClosedSums(|s|);
    ReverseSums(s);
    assert (|s| - 1) as real == |s| as real - 1.0;
    NumeratorFlips(|s| as real, X1(|s|), Sum(s), IndexSum(s));
  }

  /** Reversing the series negates the slope. */
  lemma SlopeReverses(s: seq<real>)
    requires |s| >= 2 && Denominator(|s|) != 0.0
    ensures Slope(Reverse(s)) == -Slope(s)
  {
    NumeratorReverses(s);
    OverNegates(Numerator(s), Denominator(|s|));
  }

  // ----- the efficiency ratio

  /** The length of the path through the closes. */
  function Path(s: seq<real>): (r: real)
    ensures r >= 0.0
  {
    if |s| < 2 then 0.0 else Path(s[..|s|-1]) + Abs(s[|s|-1] - s[|s|-2])
  }

  function Ratio(s: seq<real>): real
    requires |s| >= 2
  {
    RatioOf(Abs(s[|s|-1] - s[0]), Path(s))
  }

  lemma {:induction false} NetWithinPath(s: seq<real>)
    requires |s| >= 1
    ensures Abs(s[|s|-1] - s[0]) <= Path(s)
  {
    if |s| >= 2 {
      NetWithinPath(s[..|s|-1]);
    }
  }

  lemma {:induction false} PathPrepend(x: real, s: seq<real>)
    requires s != []
    ensures Path([x] + s) == Path(s) + Abs(s[0] - x)
  {
    if |s| >= 2 {
      PathPrepend(x, s[..|s|-1]);
      assert ([x] + s)[..|s|] == [x] + s[..|s|-1];
    } else {
      assert ([x] + s)[..1] == [x];
    }
  }

  lemma {:induction false} PathReverses(s: seq<real>)
    ensures Path(Reverse(s)) == Path(s)
  {
    if |s| >= 2 {
      var t := s[..|s|-1];
      PathReverses(t);
      PathPrepend(s[|s|-1], Reverse(t));
    }
  }

  lemma Fraction(p: real, q: real)
    requires 0.0 <= p <= q && q > 0.0
    ensures 0.0 <= Over(p, q) <= 1.0
    ensures Over(p, q) == 1.0 <==> p == q
  {
    Quotient(p, q);
  }

  ghost predicate Rising(s: seq<real>) {
    forall k | 0 <= k < |s| - 1 :: s[k] <= s[k+1]
  }

  ghost predicate Falling(s: seq<real>) {
    forall k | 0 <= k < |s| - 1 :: s[k] >= s[k+1]
  }

  /** The path is as short as the net move only when it never turns back. */
  lemma {:induction false} StraightPath(s: seq<real>)
    requires |s| >= 2
    ensures Path(s) == s[|s|-1] - s[0] <==> Rising(s)
    ensures Path(s) == s[0] - s[|s|-1] <==> Falling(s)
  {
    var n := |s| - 1;
    var t := s[..n];
    NetWithinPath(t);
    if n >= 2 {
      StraightPath(t);
      assert Rising(s) <==> Rising(t) && s[n-1] <= s[n-1+1] by {
        assert Rising(s) ==> s[n-1] <= s[n-1+1];
      }
      assert Falling(s) <==> Falling(t) && s[n-1] >= s[n-1+1] by {
        assert Falling(s) ==> s[n-1] >= s[n-1+1];
      }
    } else {
      assert Rising(s) <==> s[0] <= s[0+1];
      assert Falling(s) <==> s[0] >= s[0+1];
    }
  }

  function RatioOf(net: real, path: real): real {
    if path == 0.0 then 0.0 else Over(net, path)
  }

  lemma RatioRange(net: real, path: real)
    requires 0.0 <= net <= path
    ensures 0.0 <= RatioOf(net, path) <= 1.0
    ensures RatioOf(net, path) == 1.0 <==> net == path && path > 0.0
  {
    if path > 0.0 {
      Fraction(net, path);
    }
  }

  lemma RatioReverses(s: seq<real>)
    requires |s| >= 2
    ensures Ratio(Reverse(s)) == Ratio(s)
  {
    PathReverses(s);
    SameRatio(Reverse(s), s);
  }

  lemma SameRatio(r: seq<real>, s: seq<real>)
    requires |r| == |s| >= 2 && Path(r) == Path(s)
    requires r[0] == s[|s|-1] && r[|s|-1] == s[0]
    ensures Ratio(r) == Ratio(s)
  {
  }

  /** The ratio lies in [0, 1], does not change when the series is reversed, and is 1 exactly for
      a series that moves and moves one way only. */
  lemma RatioMeaning(s: seq<real>)
    requires |s| >= 2
    ensures 0.0 <= Ratio(s) <= 1.0
    ensures Ratio(Reverse(s)) == Ratio(s)
    ensures Ratio(s) == 1.0 <==> s[0] != s[|s|-1] && (Rising(s) || Falling(s))
  {
    RatioReverses(s);
    NetWithinPath(s);
    StraightPath(s);
    RatioRange(Abs(s[|s|-1] - s[0]), Path(s));
  }

  /** efficiencyRatio: null below two points. */
  method EfficiencyRatio(closes: seq<real>) returns (r: Option<real>)
    ensures r == if |closes| < 2 then None else Some(Ratio(closes))
  {
    if |closes| < 2 {
      return None;
    }
    var pathSum := 0.0;
    for i := 1 to |closes|
      invariant pathSum == Path(closes[..i])
    {
      assert closes[..i+1][..i] == closes[..i];
      pathSum := pathSum + Abs(closes[i] - closes[i-1]);
    }
    assert closes[..|closes|] == closes;
    if pathSum == 0.0 {
      return Some(0.0);
    }
    r := Some(Over(Abs(closes[|closes|-1] - closes[0]), pathSum));
  }

  // ----- the classification

  datatype State = TrendUp | TrendDown | Range

  datatype Classification = Classification(state: State, efficiencyRatio: real, trendPct: real, window: nat)

  /** The fitted line's move over the window, in percent of the mean close. */
  function TrendPct(s: seq<real>): real
    requires |s| >= 2 && Denominator(|s|) != 0.0
  {
    TrendOf(Slope(s), Sum(s), |s|)
  }

  function TrendOf(slope: real, total: real, n: nat): real
    requires n > 0
  {
    Percent(slope, (n - 1) as real, Over(total, n as real))
  }

  function Percent(slope: real, width: real, mean: real): real {
    if mean != 0.0 then Over(Times(slope, width), mean) * 100.0 else 0.0
  }

  lemma PercentNegates(slope: real, width: real, mean: real)
    ensures Percent(-slope, width, mean) == -Percent(slope, width, mean)
  {
    assert Times(-slope, width) == -Times(slope, width);
    if mean != 0.0 {
      OverNegates(Times(slope, width), mean);
    }
  }

  predicate Trending(ratio: real, trendPct: real, erTrend: real, slopeMinPct: real) {
    ratio >= erTrend && Abs(trendPct) >= slopeMinPct
  }

  function StateOf(ratio: real, trendPct: real, erTrend: real, slopeMinPct: real): State {
    if Trending(ratio, trendPct, erTrend, slopeMinPct) then (if trendPct > 0.0 then TrendUp else TrendDown) else Range
  }

  /** classifyRegime. */
  method ClassifyRegime(closes: seq<real>, erTrend: real, slopeMinPct: real) returns (r: Option<Classification>)
    ensures r.None? <==> |closes| < 2
    ensures Denominator(|closes|) != 0.0 <==> |closes| >= 2
    ensures |closes| >= 2 ==>
      var er, pct := Ratio(closes), TrendPct(closes);
      r.value == Classification(StateOf(er, pct, erTrend, slopeMinPct), er, pct, |closes|)
  {
    var er := EfficiencyRatio(closes);
    var slope := LinregSlope(closes);
    if er.None? || slope.None? {
      return None;
    }
    var total := 0.0;
    for i := 0 to |closes|
      invariant total == Sum(closes[..i])
    {
      assert closes[..i+1][..i] == closes[..i];
      total := total + closes[i];
    }
    assert closes[..|closes|] == closes;
    var mean := Over(total, |closes| as real);
    var trendPct := Percent(slope.value, (|closes| - 1) as real, mean);
    var state := Range;
    if er.value >= erTrend && Abs(trendPct) >= slopeMinPct {
      state := if trendPct > 0.0 then TrendUp else TrendDown;
    }
    r := Some(Classification(state, er.value, trendPct, |closes|));
  }

  function Mirrored(s: State): State {
    match s
    case TrendUp => TrendDown
    case TrendDown => TrendUp
    case Range => Range
  }

  lemma TrendOfNegates(slope: real, total: real, n: nat)
    requires n > 0
    ensures TrendOf(-slope, total, n) == -TrendOf(slope, total, n)
  {
    PercentNegates(slope, (n - 1) as real, Over(total, n as real));
  }

  lemma TrendReverses(s: seq<real>)
    requires |s| >= 2 && Denominator(|s|) != 0.0
    ensures TrendPct(Reverse(s)) == -TrendPct(s)
  {
    SlopeReverses(s);
    ReverseSums(s);
    TrendOfNegates(Slope(s), Sum(s), |s|);
  }

  lemma MirroredState(ratio: real, trend: real, erTrend: real, slopeMinPct: real)
    ensures StateOf(ratio, -trend, erTrend, slopeMinPct) == Mirrored(StateOf(ratio, trend, erTrend, slopeMinPct))
      <==> !(ratio >= erTrend && trend == 0.0 && slopeMinPct <= 0.0)
  {
  }

  /** Running the series backwards swaps trend_up with trend_down and keeps range, except for a
      flat trend that a non-positive slope threshold still calls directional. */
  lemma ReversedRegime(s: seq<real>, erTrend: real, slopeMinPct: real)
    requires |s| >= 2 && Denominator(|s|) != 0.0
    ensures StateOf(Ratio(Reverse(s)), TrendPct(Reverse(s)), erTrend, slopeMinPct)
         == Mirrored(StateOf(Ratio(s), TrendPct(s), erTrend, slopeMinPct))
      <==> !(Ratio(s) >= erTrend && TrendPct(s) == 0.0 && slopeMinPct <= 0.0)
  {
    RatioReverses(s);
    TrendReverses(s);
    MirroredState(Ratio(s), TrendPct(s), erTrend, slopeMinPct);
  }

  datatype Verdict = Recommend | Caution | NoGo

  /** gridVerdict: a trend against the grid stops it, a trend with it cautions. */
  function GridVerdict(state: State, direction: Direction): Verdict {
    if state == Range then Recommend
    else
      var against := if direction == Long then TrendDown else TrendUp;
      if state == against then NoGo else Caution
  }

  /** With the default threshold, a long grid in a market is gated exactly as a short grid in
      the same market run backwards. */
  lemma GateIsSymmetric(s: seq<real>, erTrend: real, slopeMinPct: real)
    requires |s| >= 2 && Denominator(|s|) != 0.0 && slopeMinPct > 0.0
    ensures GridVerdict(StateOf(Ratio(s), TrendPct(s), erTrend, slopeMinPct), Long)
         == GridVerdict(StateOf(Ratio(Reverse(s)), TrendPct(Reverse(s)), erTrend, slopeMinPct), Short)
  {
    ReversedRegime(s, erTrend, slopeMinPct);
  }
}
