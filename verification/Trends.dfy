/**
 Which way the classification points: what a rising and a falling market, and a market on a
 straight line, are called.
 */
module Trends {
  import opened GridLevels
  import opened Numbers
  import opened Regime

  // ----- a rising series has a positive slope

  /** Each point's drop below y, weighted by its distance from index m. */
  function Drops(s: seq<real>, y: real, m: nat): real {
    if s == [] then 0.0
    else Drops(s[..|s|-1], y, m) + Times((m as real) - (|s| - 1) as real, y - s[|s|-1])
  }

  lemma {:induction false} DropsExpand(s: seq<real>, y: real, m: nat)
    ensures Drops(s, y, m)
         == Times(Times(m as real, |s| as real), y) - Times(m as real, Sum(s)) - Times(X1(|s|), y) + IndexSum(s)
  {
    if s != [] {
      var k := |s| - 1;
      DropsExpand(s[..k], y, m);
      OneDrop(m as real, k as real, X1(k), Sum(s[..k]), s[k], y);
      assert |s| as real == k as real + 1.0;
    } else {
      assert Times(m as real, 0.0) == 0.0 && Times(0.0, y) == 0.0;
    }
  }

  lemma OneDrop(m: real, k: real, x1: real, sum: real, z: real, y: real)
    ensures Times(Times(m, k), y) - Times(m, sum) - Times(x1, y) + Times(m - k, y - z)
         == Times(Times(m, k + 1.0), y) - Times(m, sum + z) - Times(x1 + k, y) + Times(k, z)
  {
    assert (m - k) * (y - z) == m * y - m * z - k * y + k * z;
    assert (m * (k + 1.0)) * y == (m * k) * y + m * y;
    assert m * (sum + z) == m * sum + m * z;
    assert (x1 + k) * y == x1 * y + k * y;
  }

  /** One more point y raises the numerator by the weighted drops below it. */
  lemma NumeratorStep(s: seq<real>, y: real)
    ensures Numerator(s + [y]) == Numerator(s) + Drops(s, y, |s|)
  {
    var n := |s|;
    assert (s + [y])[..n] == s;
    DropsExpand(s, y, n);
    Expand(n as real, IndexSum(s), X1(n), Sum(s), y);
  }

  lemma Expand(n: real, i: real, x1: real, sum: real, y: real)
    ensures Times(n + 1.0, i + Times(n, y)) - Times(x1 + n, sum + y)
         == Times(n, i) - Times(x1, sum) + (Times(Times(n, n), y) - Times(n, sum) - Times(x1, y) + i)
  {
    hide Times;
    FourTerms(n, 1.0, i, Times(n, y));
    FourTerms(x1, n, sum, y);
    Once(i, n, y);
  }

  lemma FourTerms(a: real, b: real, c: real, d: real)
    ensures Times(a + b, c + d) == Times(a, c) + Times(a, d) + Times(b, c) + Times(b, d)
  {
  }

  lemma Once(i: real, n: real, y: real)
    ensures Times(1.0, i) == i && Times(1.0, Times(n, y)) == Times(n, y)
    ensures Times(n, Times(n, y)) == Times(Times(n, n), y)
  {
  }

  lemma {:induction false} DropsPositive(s: seq<real>, y: real, m: nat)
    requires |s| <= m && forall k | 0 <= k < |s| :: s[k] <= y
    ensures Drops(s, y, m) >= 0.0
    ensures s != [] && s[0] < y ==> Drops(s, y, m) > 0.0
  {
    if s != [] {
      var k := |s| - 1;
      DropsPositive(s[..k], y, m);
      Product((m as real) - k as real, y - s[k]);
    }
  }

  lemma Product(a: real, b: real)
    requires a > 0.0 && b >= 0.0
    ensures Times(a, b) >= 0.0
    ensures b > 0.0 ==> Times(a, b) > 0.0
  {
  }

  lemma {:induction false} LastIsHighest(s: seq<real>)
    requires s != [] && Rising(s)
    ensures forall k | 0 <= k < |s| :: s[k] <= s[|s|-1]
  {
    if |s| > 1 {
      var t := s[..|s|-1];
      LastIsHighest(t);
      assert s[|s|-2] <= s[|s|-2+1];
      forall k | 0 <= k < |s| ensures s[k] <= s[|s|-1] {
        assert k == |s| - 1 || s[k] == t[k];
      }
    }
  }

  lemma {:induction false} RisingNumerator(s: seq<real>)
    requires Rising(s)
    ensures Numerator(s) >= 0.0
    ensures s != [] && s[0] < s[|s|-1] ==> Numerator(s) > 0.0
  {
    if s == [] {
      assert Times(0.0, 0.0) == 0.0;
    } else {
      var n := |s| - 1;
      var t := s[..n];
      RisingNumerator(t);
      LastIsHighest(s);
      NumeratorStep(t, s[n]);
      assert t + [s[n]] == s;
      DropsPositive(t, s[n], n);
    }
  }

  // ----- the markets

  ghost predicate PositiveCloses(s: seq<real>) {
    forall k | 0 <= k < |s| :: s[k] > 0.0
  }

  lemma {:induction false} PositiveSum(s: seq<real>)
    requires PositiveCloses(s)
    ensures s != [] ==> Sum(s) > 0.0
  {
    if |s| > 1 {
      PositiveSum(s[..|s|-1]);
    } else if |s| == 1 {
      assert Sum(s[..0]) == 0.0;
    }
  }

  lemma QuotientPositive(a: real, b: real)
    requires a > 0.0 && b > 0.0
    ensures Over(a, b) > 0.0
  {
  }

  lemma RisingTrend(s: seq<real>)
    requires |s| >= 2 && Denominator(|s|) != 0.0 && PositiveCloses(s) && Rising(s) && s[0] < s[|s|-1]
    ensures TrendPct(s) > 0.0
  {
    RisingNumerator(s);
    DenominatorClosed(|s|);
    QuotientPositive(Numerator(s), Denominator(|s|));
    PositiveSum(s);
    QuotientPositive(Sum(s), |s| as real);
    Product(Slope(s), (|s| - 1) as real);
    QuotientPositive(Times(Slope(s), (|s| - 1) as real), Over(Sum(s), |s| as real));
  }

  /** A market that moves and never falls is trend_up as soon as the thresholds allow a trend, and range
      otherwise: never trend_down. A long grid is at most cautioned, a short grid is stopped by a trend. */
  lemma RisingMarket(s: seq<real>, erTrend: real, slopeMinPct: real)
    requires |s| >= 2 && Denominator(|s|) != 0.0 && PositiveCloses(s) && Rising(s) && s[0] < s[|s|-1]
    ensures TrendPct(s) > 0.0
    ensures var state := StateOf(Ratio(s), TrendPct(s), erTrend, slopeMinPct);
      && state == (if erTrend <= 1.0 && slopeMinPct <= TrendPct(s) then TrendUp else Range)
      && GridVerdict(state, Long) == (if state == TrendUp then Caution else Recommend)
      && GridVerdict(state, Short) == (if state == TrendUp then NoGo else Recommend)
  {
    RatioMeaning(s);
    RisingTrend(s);
  }

  /** The same for a market that moves and never rises. */
  lemma FallingMarket(s: seq<real>, erTrend: real, slopeMinPct: real)
    requires |s| >= 2 && Denominator(|s|) != 0.0 && PositiveCloses(s) && Falling(s) && s[0] > s[|s|-1]
    ensures TrendPct(s) < 0.0
    ensures var state := StateOf(Ratio(s), TrendPct(s), erTrend, slopeMinPct);
      && state == (if erTrend <= 1.0 && slopeMinPct <= -TrendPct(s) then TrendDown else Range)
      && GridVerdict(state, Long) == (if state == TrendDown then NoGo else Recommend)
      && GridVerdict(state, Short) == (if state == TrendDown then Caution else Recommend)
  {
    var r := Reverse(s);
    forall k | 0 <= k < |r| - 1 ensures r[k] <= r[k+1] {
      assert s[|s|-2-k] >= s[|s|-2-k+1];
    }
    RatioMeaning(s);
    RisingTrend(r);
    TrendReverses(s);
  }

  lemma {:induction false} OnLine(s: seq<real>, a: real, b: real)
    requires forall k | 0 <= k < |s| :: s[k] == a + Times(b, k as real)
    ensures Residual(s, a, b) == 0.0
  {
    if s != [] {
      OnLine(s[..|s|-1], a, b);
      SquareZero(Error(s[|s|-1], |s| - 1, a, b));
    }
  }

  lemma {:induction false} ResidualNotNegative(s: seq<real>, a: real, b: real)
    ensures Residual(s, a, b) >= 0.0
  {
    if s != [] {
      ResidualNotNegative(s[..|s|-1], a, b);
    }
  }

  /** Closes on a straight line: the slope is that of the line, and the trend is the whole move from the
      first close to the last in percent of the mean close. */
  lemma StraightLine(s: seq<real>, a: real, b: real)
    requires |s| >= 2 && Denominator(|s|) != 0.0 && Sum(s) != 0.0
    requires forall k | 0 <= k < |s| :: s[k] == a + Times(b, k as real)
    ensures Slope(s) == b
    ensures Times(TrendPct(s), Sum(s)) == Times(100.0 * (s[|s|-1] - s[0]), |s| as real)
  {
    OnLine(s, a, b);
    ResidualNotNegative(s, Intercept(s), Slope(s));
    LeastSquares(s, a, b);
    assert Times(b, 0.0) == 0.0;
    assert s[|s|-1] - s[0] == Times(b, (|s| - 1) as real);
    InPercent(s[|s|-1] - s[0], Sum(s), |s| as real);
  }

  lemma InPercent(move: real, total: real, n: real)
    requires total != 0.0 && n > 0.0
    ensures Over(total, n) != 0.0
    ensures Times(Over(move, Over(total, n)) * 100.0, total) == Times(100.0 * move, n)
  {
    var mean := Over(total, n);
    Quotient(total, n);
    Quotient(move, mean);
    var q := Over(move, mean);
    assert (q * 100.0) * (mean * n) == (100.0 * (q * mean)) * n;
  }

  lemma {:induction false} FlatPath(s: seq<real>)
    requires forall k | 0 <= k < |s| :: s[k] == s[0]
    ensures Path(s) == 0.0
  {
    if |s| >= 2 {
      FlatPath(s[..|s|-1]);
    }
  }

  /** A market that does not move has ratio and trend 0 and is range, unless both thresholds are so low
      that even this counts as a trend; then it is trend_down. */
  lemma FlatMarket(s: seq<real>, erTrend: real, slopeMinPct: real)
    requires |s| >= 2 && Denominator(|s|) != 0.0 && s[0] > 0.0 && forall k | 0 <= k < |s| :: s[k] == s[0]
    ensures StateOf(Ratio(s), TrendPct(s), erTrend, slopeMinPct)
         == if erTrend <= 0.0 && slopeMinPct <= 0.0 then TrendDown else Range
  {
    FlatPath(s);
    PositiveSum(s);
    forall k | 0 <= k < |s| ensures s[k] == s[0] + Times(0.0, k as real) {
    }
    StraightLine(s, s[0], 0.0);
    assert Times(100.0 * (s[|s|-1] - s[0]), |s| as real) == 0.0;
    ZeroFactor(TrendPct(s), Sum(s));
  }

  lemma ZeroFactor(a: real, b: real)
    requires Times(a, b) == 0.0 && b != 0.0
    ensures a == 0.0
  {
  }
}
