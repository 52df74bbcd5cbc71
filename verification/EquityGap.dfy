/**
 How far the backtester's equity curve is from cash plus inventory. A sell books the spread to the
 level below it, while its share of the cost leaves at the average: the two need not agree.
 */
module EquityGap {
  import opened GridLevels
  import opened BacktestWindow
  import opened Numbers
  import opened Backtester

  /** What a fill of level k pays out or takes in, fees apart. */
  function CashOf(cfg: Config, levels: seq<SimLevel>, k: nat): real
    requires k < |levels|
  {
    if levels[k].side == Buy then -Times(levels[k].price, cfg.quantity) else Times(levels[k].price, cfg.quantity)
  }

  /** The price a sell is credited with as its cost: the level below, or its own where there is none. */
  function Credit(levels: seq<SimLevel>, k: nat): real
    requires k < |levels|
  {
    if k >= 1 then levels[k-1].price else levels[k].price
  }

  /** The cost that leaves with a sell, less the cost the sell is credited with; a buy has none. */
  function SkewOf(cfg: Config, levels: seq<SimLevel>, k: nat, b: Book): real
    requires k < |levels| && ValidConfig(cfg)
  {
    if levels[k].side == Buy then 0.0
    else (b.positionCost - CostAfterSell(b.positionSize, b.positionCost, cfg.quantity))
           - Times(Credit(levels, k), cfg.quantity)
  }

  /** With enough to sell that is the average cost less the credited price, for the quantity sold. */
  lemma SkewIsAverage(cfg: Config, levels: seq<SimLevel>, k: nat, b: Book)
    requires k < |levels| && ValidConfig(cfg) && levels[k].side == Sell && b.positionSize > cfg.quantity
    ensures SkewOf(cfg, levels, k, b)
      == Times(Over(b.positionCost, b.positionSize) - Credit(levels, k), cfg.quantity)
  {
    var avg := Over(b.positionCost, b.positionSize);
    Quotient(b.positionCost, b.positionSize);
    AverageKept(b.positionSize, b.positionCost, cfg.quantity);
    CostShare(b.positionSize, b.positionCost, cfg.quantity, avg, CostAfterSell(b.positionSize, b.positionCost, cfg.quantity));
    Distribute(avg, Credit(levels, k), cfg.quantity);
  }

  lemma Distribute(a: real, b: real, q: real)
    ensures Times(a - b, q) == Times(a, q) - Times(b, q)
  {
  }

  lemma CostShare(size: real, cost: real, q: real, avg: real, left: real)
    requires size > 0.0 && Times(avg, size) == cost && Times(left, size) == Times(cost, size - q)
    ensures cost - left == Times(avg, q)
  {
    assert left * size == avg * size * (size - q);
    assert left * size == (avg * (size - q)) * size;
    SameFactor(left, avg * (size - q), size);
    assert avg * (size - q) == avg * size - avg * q;
  }

  lemma SameFactor(a: real, b: real, n: real)
    requires n > 0.0 && a * n == b * n
    ensures a == b
  {
  }

  predicate Trades(c: Candle, band: Band, l: SimLevel) {
    !l.isFilled && Hit(l, c) && Accepts(band, l.price)
  }

  // ----- along a candle and along a run

  function WalkCash(cfg: Config, c: Candle, band: Band, w: Walk, n: nat): real
    requires n <= |w.levels| && ValidConfig(cfg)
  {
    if n == 0 then 0.0
    else
      var v := WalkLevels(cfg, c, band, w, n - 1);
      WalkCash(cfg, c, band, w, n - 1) + if Trades(c, band, v.levels[n-1]) then CashOf(cfg, v.levels, n - 1) else 0.0
  }

  function WalkSkew(cfg: Config, c: Candle, band: Band, w: Walk, n: nat): real
    requires n <= |w.levels| && ValidConfig(cfg)
  {
    if n == 0 then 0.0
    else
      var v := WalkLevels(cfg, c, band, w, n - 1);
      WalkSkew(cfg, c, band, w, n - 1)
        + if Trades(c, band, v.levels[n-1]) then SkewOf(cfg, v.levels, n - 1, v.book) else 0.0
  }

  /** What the books say is owned besides the position's cost, before charges. */
  function Booked(b: Book): real {
    b.grossProfit - b.grossLoss - b.positionCost
  }

  lemma FillBooked(cfg: Config, levels: seq<SimLevel>, k: nat, b: Book)
    requires k < |levels| && ValidConfig(cfg)
    ensures Booked(FillBook(cfg, levels, k, b)) == Booked(b) + CashOf(cfg, levels, k) + SkewOf(cfg, levels, k, b)
  {
    if levels[k].side == Sell && k >= 1 {
      Distribute(levels[k].price, levels[k-1].price, cfg.quantity);
    }
  }

  lemma {:induction false} WalkBooked(cfg: Config, c: Candle, band: Band, w: Walk, n: nat)
    requires n <= |w.levels| && ValidConfig(cfg)
    ensures Booked(WalkLevels(cfg, c, band, w, n).book)
      == Booked(w.book) + WalkCash(cfg, c, band, w, n) + WalkSkew(cfg, c, band, w, n)
  {
    if n > 0 {
      WalkBooked(cfg, c, band, w, n - 1);
      var v := WalkLevels(cfg, c, band, w, n - 1);
      if Trades(c, band, v.levels[n-1]) {
        FillBooked(cfg, v.levels, n - 1, v.book);
      }
    }
  }

  lemma {:induction false} ChargeBooked(cfg: Config, b: Book, close: real, rates: seq<real>)
    ensures Booked(ChargeAll(cfg, b, close, rates)) == Booked(b)
  {
    if rates != [] {
      ChargeBooked(cfg, b, close, rates[..|rates|-1]);
    }
  }

  function BandAt(cfg: Config, s: State): Band {
    BandOf(Backtester.Prices(s.levels), FilledFlags(s.levels), s.prevClose, cfg.windowSize)
  }

  /** The cash that purchases cost and sells brought over the first n candles. */
  function RunCash(cfg: Config, candles: seq<Candle>, n: nat): real
    requires ValidConfig(cfg) && candles != [] && n <= |candles|
  {
    if n == 0 then -Start(cfg, candles[0]).book.positionCost
    else
      var s, c := Simulate(cfg, candles, n - 1), candles[n-1];
      RunCash(cfg, candles, n - 1)
        + WalkCash(cfg, c, BandAt(cfg, s), Walk(s.levels, s.book, s.missed), |s.levels|)
  }

  function RunSkew(cfg: Config, candles: seq<Candle>, n: nat): real
    requires ValidConfig(cfg) && candles != [] && n <= |candles|
  {
    if n == 0 then 0.0
    else
      var s, c := Simulate(cfg, candles, n - 1), candles[n-1];
      RunSkew(cfg, candles, n - 1)
        + WalkSkew(cfg, c, BandAt(cfg, s), Walk(s.levels, s.book, s.missed), |s.levels|)
  }

  lemma StepBooked(cfg: Config, s: State, c: Candle)
    requires ValidConfig(cfg)
    ensures var band := BandAt(cfg, s);
      var w := Walk(s.levels, s.book, s.missed);
      Booked(Step(cfg, s, c).book)
        == Booked(s.book) + WalkCash(cfg, c, band, w, |s.levels|) + WalkSkew(cfg, c, band, w, |s.levels|)
  {
    var band := BandAt(cfg, s);
    var w := Walk(s.levels, s.book, s.missed);
    WalkBooked(cfg, c, band, w, |s.levels|);
    ChargeBooked(cfg, WalkLevels(cfg, c, band, w, |s.levels|).book, c.close, Due(cfg.funding, s.clock, c.time));
  }

  lemma {:induction false} RunBooked(cfg: Config, candles: seq<Candle>, n: nat)
    requires ValidConfig(cfg) && candles != [] && n <= |candles|
    ensures Booked(Simulate(cfg, candles, n).book) == RunCash(cfg, candles, n) + RunSkew(cfg, candles, n)
  {
    hide Step;
    if n > 0 {
      RunBooked(cfg, candles, n - 1);
      StepBooked(cfg, Simulate(cfg, candles, n - 1), candles[n-1]);
    } else {
      StartBooked(cfg, candles[0]);
    }
  }

  lemma StartBooked(cfg: Config, first: Candle)
    requires ValidConfig(cfg)
    ensures Booked(Start(cfg, first).book) == -Start(cfg, first).book.positionCost
  {
  }

  /** Money paid in, less charges, plus what trading brought. */
  function Cash(cfg: Config, candles: seq<Candle>, n: nat): real
    requires ValidConfig(cfg) && candles != [] && n <= |candles|
  {
    var b := Simulate(cfg, candles, n).book;
    cfg.investment - b.totalFees - b.fundingPaid - b.slippageCost + RunCash(cfg, candles, n)
  }

  /** The part of the cost that the marking forgets when the position is below the divisor's floor. */
  function Forgotten(b: Book): real {
    b.positionCost - Times(b.positionSize, Over(b.positionCost, Max(b.positionSize, 0.0001)))
  }

  lemma NothingForgotten(b: Book)
    requires b.positionSize > 0.0001 || b.positionCost == 0.0
    ensures Forgotten(b) == 0.0
  {
    Quotient(b.positionCost, Max(b.positionSize, 0.0001));
  }

  lemma MarkedAt(b: Book, close: real)
    ensures MarkToMarket(b, close) == b.equity + Times(b.positionSize, close) - b.positionCost + Forgotten(b)
  {
    var average := Over(b.positionCost, Max(b.positionSize, 0.0001));
    Distribute(close, average, b.positionSize);
  }

  /** A point of the equity curve is cash plus inventory at the close plus, for every sell so far, the
      average cost less the price of the level below, times the quantity. */
  lemma CurveGap(cfg: Config, candles: seq<Candle>, n: nat, close: real)
    requires ValidConfig(cfg) && candles != [] && n <= |candles|
    ensures var b := Simulate(cfg, candles, n).book;
      && MarkToMarket(b, close)
           == Cash(cfg, candles, n) + Times(b.positionSize, close) + RunSkew(cfg, candles, n) + Forgotten(b)
      && (b.positionSize > 0.0001 || b.positionCost == 0.0 ==> Forgotten(b) == 0.0)
  {
    hide Simulate, RunCash, RunSkew;
    EquityIdentity(cfg, candles, n);
    RunBooked(cfg, candles, n);
    var b := Simulate(cfg, candles, n).book;
    MarkedAt(b, close);
    if b.positionSize > 0.0001 || b.positionCost == 0.0 {
      NothingForgotten(b);
    }
  }

  /** Bought at 10 and at 8, sold at 11 over the level at 10: the sale is credited with a cost of 10, and
      9 leaves, so the curve is one short of cash plus inventory. */
  lemma SaleUnderstated(cfg: Config, levels: seq<SimLevel>, b: Book)
    requires ValidConfig(cfg) && cfg.quantity == 1.0
    requires levels == [SimLevel(8.0, Buy, true), SimLevel(10.0, Buy, true), SimLevel(11.0, Sell, false)]
    requires b.positionSize == 2.0 && b.positionCost == 18.0
    ensures SkewOf(cfg, levels, 2, b) == -1.0
  {
    SkewIsAverage(cfg, levels, 2, b);
  }
}
