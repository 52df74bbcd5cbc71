/**
 The fee floor on grid spacing, Wilder's average true range, and the grid count derived from
 it. Prices are reals, before the rounding of level prices to cents.
 */
module FeeFloor {
  import opened Numbers
  import opened Options

  const DEFAULT_MAKER_FEE_RATE := 0.0005
  const MIN_SPACING_SAFETY_FACTOR := 1.5
  const MAX_VIRTUAL_GRIDS: nat := 500
  const MAX_GRIDS: nat := 95

  /** An environment override counts only when it parses to a rate between 0 and 1%. */
  function EnvFeeRate(parsed: Option<real>, fallback: real): (r: real)
    ensures 0.0 <= fallback <= 0.01 ==> 0.0 <= r <= 0.01
    ensures parsed.Some? && 0.0 <= parsed.value <= 0.01 ==> r == parsed.value
    ensures parsed.None? || parsed.value < 0.0 || 0.01 < parsed.value ==> r == fallback
  {
    match parsed
    case None => fallback
    case Some(x) => if x < 0.0 || x > 0.01 then fallback else x
  }

  function RoundTripFee(buyPrice: real, sellPrice: real, qty: real, feeRate: real): real {
    Times(Times(buyPrice + sellPrice, qty), feeRate)
  }

  function MinProfitableSpacing(mid: real, feeRate: real): real {
    2.0 * Times(mid, feeRate) * MIN_SPACING_SAFETY_FACTOR
  }

  function Spacing(lower: real, upper: real, numGrids: nat): real
    requires numGrids > 0
  {
    (upper - lower) / (numGrids as real)
  }

  /** The range, grid-count and fee-floor checks of validateGridConfig. */
  predicate Accepted(lower: real, upper: real, numGrids: nat, virtual: bool, feeRate: real) {
    && lower < upper
    && 2 <= numGrids <= (if virtual then MAX_VIRTUAL_GRIDS else MAX_GRIDS)
    && Spacing(lower, upper, numGrids) >= MinProfitableSpacing((lower + upper) / 2.0, feeRate)
  }

  /** A range is accepted exactly when it holds its 2 to 95 grids, 500 with virtual levels, at three times
      the fee of a trade at mid-range for each. */
  lemma AcceptedExactlyWhen(lower: real, upper: real, numGrids: nat, virtual: bool, feeRate: real)
    ensures Accepted(lower, upper, numGrids, virtual, feeRate) <==>
      && lower < upper && 2 <= numGrids && (numGrids <= 95 || (virtual && numGrids <= 500))
      && Times(3.0 * Times((lower + upper) / 2.0, feeRate), numGrids as real) <= upper - lower
  {
    if numGrids >= 2 {
      var fee := Times((lower + upper) / 2.0, feeRate);
      Quotient(upper - lower, numGrids as real);
      InOrder(Spacing(lower, upper, numGrids), 3.0 * fee, numGrids as real);
    }
  }

  lemma InOrder(a: real, b: real, n: real)
    requires n > 0.0
    ensures Times(b, n) <= Times(a, n) <==> b <= a
  {
  }

  /** The net profit of buying at level i and selling at level i + 1. */
  function NetOfPair(lower: real, spacing: real, i: nat, qty: real, feeRate: real): real {
    var buy := lower + Times(i as real, spacing);
    Times(spacing, qty) - RoundTripFee(buy, buy + spacing, qty, feeRate)
  }

  /** What decides the sign of the net: the spacing against the fee on both prices. */
  function Margin(lower: real, spacing: real, i: nat, feeRate: real): real {
    var buy := lower + Times(i as real, spacing);
    spacing - Times(buy + buy + spacing, feeRate)
  }

  lemma NetSign(lower: real, spacing: real, i: nat, qty: real, feeRate: real)
    requires qty > 0.0
    ensures NetOfPair(lower, spacing, i, qty, feeRate) == Times(Margin(lower, spacing, i, feeRate), qty)
    ensures NetOfPair(lower, spacing, i, qty, feeRate) > 0.0 <==> Margin(lower, spacing, i, feeRate) > 0.0
  {
    var m := Margin(lower, spacing, i, feeRate);
    ProductSign(m, qty);
  }

  lemma ProductSign(m: real, q: real)
    requires q > 0.0
    ensures Times(m, q) > 0.0 <==> m > 0.0
  {
    if m <= 0.0 {
      assert (-m) * q >= 0.0;
    }
  }

  lemma MarginFalls(lower: real, spacing: real, i: nat, j: nat, feeRate: real)
    requires i <= j && spacing >= 0.0 && feeRate >= 0.0
    ensures Margin(lower, spacing, j, feeRate) <= Margin(lower, spacing, i, feeRate)
  {
    var d := Times(j as real, spacing) - Times(i as real, spacing);
    assert d == ((j - i) as real) * spacing;
    assert d >= 0.0;
    var a, b := lower + Times(i as real, spacing), lower + Times(j as real, spacing);
    assert Times(b + b + spacing, feeRate) - Times(a + a + spacing, feeRate) == 2.0 * (d * feeRate);
    assert d * feeRate >= 0.0;
  }

  lemma TopPair(lower: real, upper: real, numGrids: nat, feeRate: real)
    requires numGrids > 0
    ensures var s := Spacing(lower, upper, numGrids);
      Margin(lower, s, numGrids - 1, feeRate) == s - Times(upper + upper - s, feeRate)
  {
    var s := Spacing(lower, upper, numGrids);
    assert s * (numGrids as real) == upper - lower;
    assert Times((numGrids - 1) as real, s) == upper - lower - s;
  }

  /** Every adjacent pair of levels earns a positive net exactly when the pair at the top of the
      range does: that one pays the highest fee. */
  lemma TopPairDecides(lower: real, upper: real, numGrids: nat, qty: real, feeRate: real)
    requires lower < upper && numGrids > 0 && qty > 0.0 && feeRate >= 0.0
    ensures var s := Spacing(lower, upper, numGrids);
      (forall i: nat | i < numGrids :: NetOfPair(lower, s, i, qty, feeRate) > 0.0)
      <==> s > Times(upper + upper - s, feeRate)
  {
    var s := Spacing(lower, upper, numGrids);
    PositiveSpacing(lower, upper, numGrids);
    TopPair(lower, upper, numGrids, feeRate);
    NetSign(lower, s, numGrids - 1, qty, feeRate);
    forall i: nat | i < numGrids
      ensures Margin(lower, s, numGrids - 1, feeRate) > 0.0 ==> NetOfPair(lower, s, i, qty, feeRate) > 0.0
    {
      NetSign(lower, s, i, qty, feeRate);
      MarginFalls(lower, s, i, numGrids - 1, feeRate);
    }
  }

  lemma PositiveSpacing(lower: real, upper: real, numGrids: nat)
    requires lower < upper && numGrids > 0
    ensures Spacing(lower, upper, numGrids) > 0.0
    ensures Times(Spacing(lower, upper, numGrids), numGrids as real) == upper - lower
  {
  }

  lemma FloorCoversTop(lower: real, upper: real, s: real, feeRate: real)
    requires 0.0 < lower < upper && upper <= 3.0 * lower && feeRate >= 0.0 && s > 0.0
    requires s >= MinProfitableSpacing((lower + upper) / 2.0, feeRate)
    ensures s > Times(upper + upper - s, feeRate)
  {
    var mid := (lower + upper) / 2.0;
    assert 3.0 * mid >= 2.0 * upper;
    assert Times(mid, feeRate) * 3.0 >= 2.0 * Times(upper, feeRate) by {
      assert (3.0 * mid - 2.0 * upper) * feeRate >= 0.0;
    }
    assert Times(upper + upper - s, feeRate) == 2.0 * Times(upper, feeRate) - s * feeRate;
    if feeRate > 0.0 {
      assert s * feeRate > 0.0;
    }
  }

  lemma CapCoversTop(lower: real, upper: real, s: real, n: real, feeRate: real)
    requires 0.0 < lower && upper > 3.0 * lower && 0.0 <= feeRate && 1500.0 * feeRate <= 1.0
    requires 0.0 < n <= 500.0 && Times(s, n) == upper - lower && s > 0.0
    ensures s > Times(upper + upper - s, feeRate)
  {
    assert Times(s, n) <= s * 500.0;
    assert s * 500.0 >= upper - lower;
    assert 750.0 * s > upper;
    assert upper * (1500.0 * feeRate) <= upper;
    assert Times(upper + upper - s, feeRate) == 2.0 * (upper * feeRate) - s * feeRate;
    assert s * feeRate >= 0.0;
    assert 750.0 * (2.0 * (upper * feeRate)) <= upper;
  }

  /** Any accepted grid earns a positive net on every adjacent pair at a maker rate of at most
      1/1500, whatever its range, and at any allowed rate when upper <= 3 * lower. */
  lemma AcceptedGridEarns(lower: real, upper: real, numGrids: nat, virtual: bool, qty: real, feeRate: real)
    requires Accepted(lower, upper, numGrids, virtual, feeRate) && lower > 0.0 && qty > 0.0 && feeRate >= 0.0
    requires upper <= 3.0 * lower || 1500.0 * feeRate <= 1.0
    ensures forall i: nat | i < numGrids ::
      NetOfPair(lower, Spacing(lower, upper, numGrids), i, qty, feeRate) > 0.0
  {
    var s := Spacing(lower, upper, numGrids);
    PositiveSpacing(lower, upper, numGrids);
    if upper <= 3.0 * lower {
      FloorCoversTop(lower, upper, s, feeRate);
    } else {
      CapCoversTop(lower, upper, s, numGrids as real, feeRate);
    }
    TopPairDecides(lower, upper, numGrids, qty, feeRate);
  }

  /** Outside both conditions the check at mid-range can pass a grid whose top pair loses. */
  lemma WideGridCanLose()
    ensures exists lower: real, upper: real, numGrids: nat ::
      && Accepted(lower, upper, numGrids, false, 0.01) && lower > 0.0
      && NetOfPair(lower, Spacing(lower, upper, numGrids), numGrids - 1, 1.0, 0.01) < 0.0
  {
    var lower, upper, n: nat := 1.0, 100.0, 65;
    var s := Spacing(lower, upper, n);
    assert s * 65.0 == 99.0;
    assert 1.515 <= s < 1.53;
    TopPair(lower, upper, n, 0.01);
    NetSign(lower, s, n - 1, 1.0, 0.01);
    assert Accepted(lower, upper, n, false, 0.01);
    assert Margin(lower, s, n - 1, 0.01) < 0.0;
    assert Times(Margin(lower, s, n - 1, 0.01), 1.0) < 0.0;
  }

  // ----- Wilder's average true range

  datatype Candle = Candle(high: real, low: real, close: real)

  function TrueRange(c: Candle, prevClose: real): real {
    Max(c.high - c.low, Max(Abs(c.high - prevClose), Abs(c.low - prevClose)))
  }

  function TrueRanges(candles: seq<Candle>): (r: seq<real>)
    ensures |r| == if candles == [] then 0 else |candles| - 1
    ensures forall k | 0 <= k < |r| :: r[k] == TrueRange(candles[k+1], candles[k].close)
  {
    if candles == [] then []
    else seq(|candles| - 1, k requires 0 <= k < |candles| - 1 => TrueRange(candles[k+1], candles[k].close))
  }

  function Mean(total: real, n: nat): real
    requires n > 0
  {
    Over(total, n as real)
  }

  function Smoothed(atr: real, period: nat, tr: real): real
    requires period > 0
  {
    Mean(Times(atr, (period - 1) as real) + tr, period)
  }

  /** The seed is the mean of the first `period` true ranges; each later one is smoothed in. */
  function Atr(tr: seq<real>, period: nat, n: nat): real
    requires 0 < period <= n <= |tr|
  {
    if n == period then Mean(Sum(tr[..period]), period) else Smoothed(Atr(tr, period, n - 1), period, tr[n-1])
  }

  lemma SmoothedWithin(atr: real, period: nat, tr: real, lo: real, hi: real)
    requires period > 0 && lo <= atr <= hi && lo <= tr <= hi
    ensures lo <= Smoothed(atr, period, tr) <= hi
  {
    var w := (period - 1) as real;
    assert Times(lo, w) <= Times(atr, w) <= Times(hi, w);
    assert Times(lo, period as real) == Times(lo, w) + lo && Times(hi, period as real) == Times(hi, w) + hi;
    OverWithin(Times(atr, w) + tr, period as real, lo, hi);
  }

  /** The average stays between the smallest and the largest true range it has seen. */
  lemma {:induction false} AtrWithin(tr: seq<real>, period: nat, n: nat, lo: real, hi: real)
    requires 0 < period <= n <= |tr|
    requires forall k | 0 <= k < n :: lo <= tr[k] <= hi
    ensures lo <= Atr(tr, period, n) <= hi
  {
    if n == period {
      SumWithin(tr[..period], lo, hi);
      OverWithin(Sum(tr[..period]), period as real, lo, hi);
    } else {
      AtrWithin(tr, period, n - 1, lo, hi);
      SmoothedWithin(Atr(tr, period, n - 1), period, tr[n-1], lo, hi);
    }
  }

  /** The true range spans the candle and the close before it. */
  lemma RangeSpans(c: Candle, prevClose: real)
    requires c.low <= c.high
    ensures TrueRange(c, prevClose) == Max(c.high, prevClose) - Min(c.low, prevClose)
  {
  }

  function Power(x: real, n: nat): real {
    if n == 0 then 1.0 else Times(Power(x, n - 1), x)
  }

  lemma SmoothedTimes(atr: real, period: nat, tr: real)
    requires period > 0
    ensures Times(Smoothed(atr, period, tr) - atr, period as real) == tr - atr
  {
    Quotient(Times(atr, (period - 1) as real) + tr, period as real);
    assert Times(atr, period as real) == Times(atr, (period - 1) as real) + atr;
  }

  lemma OneStepCloser(a: real, b: real, period: nat, tr: real)
    requires period > 0
    ensures Times(Smoothed(a, period, tr) - Smoothed(b, period, tr), period as real)
         == Times(a - b, (period - 1) as real)
  {
    SmoothedTimes(a, period, tr);
    SmoothedTimes(b, period, tr);
  }

  lemma ShrinkOnce(gap: real, next: real, start: real, p: real, q: real, pn: real, qn: real)
    requires Times(gap, pn) == Times(start, qn) && Times(next, p) == Times(gap, q)
    ensures Times(next, Times(pn, p)) == Times(start, Times(qn, q))
  {
    assert next * (pn * p) == (next * p) * pn;
    assert (gap * q) * pn == (gap * pn) * q;
  }

  /** Each range moves the average by a period-th of its distance from it, so two histories that agree
      from range m on come closer by the factor (period - 1) / period with every range. */
  lemma {:induction false} AtrForgets(tr: seq<real>, other: seq<real>, period: nat, m: nat, n: nat)
    requires 0 < period <= m <= n <= |tr| == |other|
    requires forall k | m <= k < n :: tr[k] == other[k]
    ensures n > m ==> Times(Atr(tr, period, n) - Atr(tr, period, n - 1), period as real) == tr[n-1] - Atr(tr, period, n - 1)
    ensures Times(Atr(tr, period, n) - Atr(other, period, n), Power(period as real, n - m))
         == Times(Atr(tr, period, m) - Atr(other, period, m), Power((period - 1) as real, n - m))
  {
    if n > m {
      AtrForgets(tr, other, period, m, n - 1);
      var a, b := Atr(tr, period, n - 1), Atr(other, period, n - 1);
      SmoothedTimes(a, period, tr[n-1]);
      OneStepCloser(a, b, period, tr[n-1]);
      ShrinkOnce(a - b, Atr(tr, period, n) - Atr(other, period, n), Atr(tr, period, m) - Atr(other, period, m),
                 period as real, (period - 1) as real,
                 Power(period as real, n - 1 - m), Power((period - 1) as real, n - 1 - m));
    }
  }

  method BuildTrueRanges(candles: seq<Candle>) returns (tr: seq<real>)
    requires candles != []
    ensures tr == TrueRanges(candles)
  {
    tr := [];
    for i := 1 to |candles|
      invariant tr == TrueRanges(candles)[..i-1]
    {
      tr := tr + [TrueRange(candles[i], candles[i-1].close)];
    }
    assert tr == TrueRanges(candles);
  }

  method Smooth(tr: seq<real>, period: nat) returns (atr: real)
    requires 0 < period <= |tr|
    ensures atr == Atr(tr, period, |tr|)
  {
    var total := 0.0;
    for i := 0 to period
      invariant total == Sum(tr[..i])
    {
      assert tr[..i+1][..i] == tr[..i];
      total := total + tr[i];
    }
    atr := Mean(total, period);
    for i := period to |tr|
      invariant atr == Atr(tr, period, i)
    {
      atr := Smoothed(atr, period, tr[i]);
    }
  }

  /** No value when the period is not positive or there are too few candles. */
  function AtrOf(candles: seq<Candle>, period: int): Option<real> {
    if period < 1 || |candles| < period + 1 then None
    else Some(Atr(TrueRanges(candles), period, |candles| - 1))
  }

  /** There is an average exactly for a period of at least 1 and more candles than that. */
  lemma AtrKnownExactlyWhen(candles: seq<Candle>, period: int)
    ensures AtrOf(candles, period).Some? <==> 1 <= period < |candles|
  {
  }

  /** computeATR. */
  method ComputeAtr(candles: seq<Candle>, period: int) returns (r: Option<real>)
    ensures r == AtrOf(candles, period)
  {
    if period < 1 || |candles| < period + 1 {
      return None;
    }
    var tr := BuildTrueRanges(candles);
    var atr := Smooth(tr, period);
    r := Some(atr);
  }

  // ----- the derived grid

  datatype AtrParams = AtrParams(period: int, multiplier: real, minSpacingPct: real, maxSpacingPct: real, feeRate: real)

  datatype AtrGrid = AtrGrid(
    atr: real, rawSpacingPct: real, spacingPct: real, spacingAbs: real, numGrids: Option<int>, floorPct: real,
    clampedAtFloor: bool, clampedAtCap: bool)

  function Percent(x: real, of: real): real
    requires of != 0.0
  {
    (x / of) * 100.0
  }

  function Round(x: real): int {
    (x + 0.5).Floor
  }

  function FloorPct(mid: real, p: AtrParams): real
    requires mid > 0.0
  {
    Max(p.minSpacingPct, Percent(MinProfitableSpacing(mid, p.feeRate), mid))
  }

  /** A cap below the floor is lifted to it. */
  function CapPct(mid: real, p: AtrParams): real
    requires mid > 0.0
  {
    Max(p.maxSpacingPct, FloorPct(mid, p))
  }

  /** In price the floor is the larger of the configured share of mid-range and the fee floor, and the cap
      the configured one unless that is below the floor; mid-range is as far from either end. */
  lemma LimitsInPrice(lower: real, upper: real, p: AtrParams)
    requires Mid(lower, upper) > 0.0
    ensures var mid := Mid(lower, upper);
      && mid - lower == upper - mid
      && Times(Hundredth(FloorPct(mid, p)), mid)
           == Max(Times(Hundredth(p.minSpacingPct), mid), MinProfitableSpacing(mid, p.feeRate))
      && FloorPct(mid, p) <= CapPct(mid, p)
      && (p.maxSpacingPct >= FloorPct(mid, p) ==> CapPct(mid, p) == p.maxSpacingPct)
      && (p.maxSpacingPct < FloorPct(mid, p) ==> CapPct(mid, p) == FloorPct(mid, p))
  {
    var mid, fee := Mid(lower, upper), MinProfitableSpacing(Mid(lower, upper), p.feeRate);
    BackToPrice(fee, mid);
    InOrder(Hundredth(p.minSpacingPct), Hundredth(Percent(fee, mid)), mid);
  }

  lemma BackToPrice(x: real, mid: real)
    requires mid > 0.0
    ensures Times(Hundredth(Percent(x, mid)), mid) == x
  {
    Quotient(x, mid);
    assert Hundredth(Percent(x, mid)) == Over(x, mid);
  }

  /** The spacing is the raw one clamped into [floor, cap]. */
  ghost predicate Clamped(pct: real, raw: real, floor: real, cap: real, atFloor: bool, atCap: bool) {
    && floor <= pct <= cap
    && (atFloor <==> raw < floor)
    && (atCap <==> raw > cap)
    && (atFloor ==> pct == floor)
    && (atCap ==> pct == cap)
    && (!atFloor && !atCap ==> pct == raw)
  }

  method Clamp(raw: real, floor: real, cap: real) returns (pct: real, atFloor: bool, atCap: bool)
    requires floor <= cap
    ensures Clamped(pct, raw, floor, cap, atFloor, atCap)
  {
    pct, atFloor, atCap := raw, false, false;
    if pct < floor {
      pct, atFloor := floor, true;
    } else if pct > cap {
      pct, atCap := cap, true;
    }
  }

  /** What an answer for this average says: its spacing is clamped, it is positive exactly when the
      cap is, it is then never below the fee floor at mid-range, and the count is rounded from it. */
  ghost predicate Derived(g: AtrGrid, atr: real, width: real, mid: real, p: AtrParams)
    requires mid > 0.0
  {
    && g.atr == atr && g.rawSpacingPct == Times(p.multiplier, Percent(atr, mid)) && g.floorPct == FloorPct(mid, p)
    && Clamped(g.spacingPct, g.rawSpacingPct, g.floorPct, CapPct(mid, p), g.clampedAtFloor, g.clampedAtCap)
    && g.spacingAbs == Times(Hundredth(g.spacingPct), mid)
    && (g.spacingAbs > 0.0 <==> CapPct(mid, p) > 0.0)
    && g.spacingAbs >= MinProfitableSpacing(mid, p.feeRate)
    && g.numGrids == GridCount(width, g.spacingAbs)
  }

  method Derive(atr: real, width: real, mid: real, p: AtrParams) returns (g: AtrGrid)
    requires atr > 0.0 && mid > 0.0 && p.multiplier > 0.0
    ensures Derived(g, atr, width, mid, p)
  {
    var raw := Times(p.multiplier, Percent(atr, mid));
    var floorPct := FloorPct(mid, p);
    var spacingPct, clampedAtFloor, clampedAtCap := Clamp(raw, floorPct, CapPct(mid, p));
    RawIsPositive(p.multiplier, atr, mid);
    FloorIsKept(spacingPct, MinProfitableSpacing(mid, p.feeRate), mid);
    var spacingAbs := Times(Hundredth(spacingPct), mid);
    var numGrids := GridCount(width, spacingAbs);
    g := AtrGrid(atr, raw, spacingPct, spacingAbs, numGrids, floorPct, clampedAtFloor, clampedAtCap);
  }

  function Mid(lower: real, upper: real): real {
    (upper + lower) / 2.0
  }

  predicate ValidRange(lower: real, upper: real, p: AtrParams) {
    lower > 0.0 && upper > lower && p.multiplier > 0.0
  }

  /** No answer exactly for a bad range, a bad multiplier or no positive average. */
  ghost predicate Answers(r: Option<AtrGrid>, atr: Option<real>, lower: real, upper: real, p: AtrParams) {
    && (r.Some? <==> 0.0 < lower < upper && p.multiplier > 0.0 && atr.Some? && atr.value > 0.0)
    && (r.Some? ==> Mid(lower, upper) > 0.0 && Derived(r.value, atr.value, upper - lower, Mid(lower, upper), p))
  }

  method FromAtr(atr: Option<real>, lower: real, upper: real, p: AtrParams) returns (r: Option<AtrGrid>)
    requires ValidRange(lower, upper, p)
    ensures Answers(r, atr, lower, upper, p)
  {
    if atr.None? || atr.value <= 0.0 {
      return None;
    }
    var g := Derive(atr.value, upper - lower, Mid(lower, upper), p);
    r := Some(g);
  }

  /** deriveAtrSpacing. */
  method DeriveAtrSpacing(candles: seq<Candle>, lower: real, upper: real, p: AtrParams) returns (r: Option<AtrGrid>)
    ensures Answers(r, AtrOf(candles, p.period), lower, upper, p)
  {
    if !(lower > 0.0) || !(upper > lower) || !(p.multiplier > 0.0) {
      return None;
    }
    var atr := ComputeAtr(candles, p.period);
    r := FromAtr(atr, lower, upper, p);
  }

  function Hundredth(pct: real): real {
    pct / 100.0
  }

  lemma RawIsPositive(k: real, atr: real, mid: real)
    requires k > 0.0 && atr > 0.0 && mid > 0.0
    ensures Times(k, Percent(atr, mid)) > 0.0
  {
    assert atr / mid > 0.0;
  }

  lemma FloorIsKept(pct: real, floorAbs: real, mid: real)
    requires mid > 0.0 && pct >= Percent(floorAbs, mid)
    ensures Times(Hundredth(pct), mid) >= floorAbs
    ensures Times(Hundredth(pct), mid) > 0.0 <==> pct > 0.0
  {
    var q := floorAbs / mid;
    assert q * mid == floorAbs;
    assert Hundredth(pct) >= q;
    assert (Hundredth(pct) - q) * mid >= 0.0;
    ProductSign(Hundredth(pct), mid);
  }

  /** None stands for the infinite count that a zero spacing divides to. */
  function GridCount(width: real, spacing: real): (n: Option<int>)
    ensures n.Some? ==> n.value >= 2
    ensures n.None? <==> spacing == 0.0
  {
    if spacing == 0.0 then None
    else
      var n := Round(width / spacing);
      Some(if n >= 2 then n else 2)
  }

  /** After rounding the grid count, the true spacing keeps two thirds of the derived spacing, and
      with it the round-trip fee without the safety margin, exactly when the range is at least
      four thirds of that spacing. */
  lemma TrueSpacingKept(width: real, spacing: real)
    requires width > 0.0 && spacing > 0.0
    ensures 3.0 * (width / (GridCount(width, spacing).value as real)) >= 2.0 * spacing <==> 3.0 * width >= 4.0 * spacing
  {
    var x := width / spacing;
    assert x * spacing == width;
    var n := GridCount(width, spacing).value;
    var t := width / (n as real);
    assert t * (n as real) == width;
    assert Round(x) as real <= x + 0.5;
    assert Round(x) as real > x - 0.5;
    ScaledOrder(x, spacing, width);
    if 3.0 * width >= 4.0 * spacing {
      CountWithin(x, n);
      EnoughEach(t, n as real, x, spacing);
    } else {
      assert n == 2;
    }
  }

  lemma ScaledOrder(x: real, spacing: real, width: real)
    requires spacing > 0.0 && x * spacing == width
    ensures 3.0 * width >= 4.0 * spacing <==> 3.0 * x >= 4.0
  {
    assert 3.0 * width - 4.0 * spacing == (3.0 * x - 4.0) * spacing;
    SignOfProduct(3.0 * x - 4.0, spacing);
  }

  lemma SignOfProduct(m: real, q: real)
    requires q > 0.0
    ensures m * q >= 0.0 <==> m >= 0.0
  {
  }

  /** The rounded count is at most one and a half times the ratio. */
  lemma CountWithin(x: real, n: int)
    requires 3.0 * x >= 4.0 && n == (if Round(x) >= 2 then Round(x) else 2)
    ensures 2.0 * (n as real) <= 3.0 * x
  {
    assert Round(x) as real <= x + 0.5;
  }

  lemma EnoughEach(t: real, n: real, x: real, spacing: real)
    requires n > 0.0 && spacing > 0.0 && t * n == x * spacing && 2.0 * n <= 3.0 * x
    ensures 3.0 * t >= 2.0 * spacing
  {
    assert (3.0 * t) * n == 3.0 * (x * spacing);
    assert (2.0 * n) * spacing <= (3.0 * x) * spacing;
    ProductOrder(2.0 * spacing, 3.0 * t, n);
  }

  /** A derived grid whose range is at least four thirds of its spacing still covers the fees of
      one round trip at mid-range per level, although rounding may have squeezed its levels. */
  lemma DerivedGridPaysFees(g: AtrGrid, atr: real, width: real, mid: real, p: AtrParams)
    requires mid > 0.0 && width > 0.0 && Derived(g, atr, width, mid, p) && CapPct(mid, p) > 0.0
    requires 3.0 * width >= 4.0 * g.spacingAbs
    ensures g.numGrids.Some? && width / (g.numGrids.value as real) >= 2.0 * Times(mid, p.feeRate)
  {
    TrueSpacingKept(width, g.spacingAbs);
  }
}
