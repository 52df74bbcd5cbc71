/**
 What a candle fills, stated on prices: an order fills when the candle traded at its price or
 better, the money moves by the price of the level, and a market that stays between the orders
 changes nothing.
 */
module CandleFills {
  import opened Nearest
  import opened GridLevels
  import opened BacktestWindow
  import opened Numbers
  import opened Backtester

  predicate InCandle(c: Candle, p: real) {
    c.low <= p <= c.high
  }

  /** A buy takes its own price or a lower one, a sell its own price or a higher one. */
  predicate AtOrBetter(l: SimLevel, p: real) {
    match l.side
    case Buy => p <= l.price
    case Sell => l.price <= p
  }

  ghost predicate Reached(l: SimLevel, c: Candle) {
    exists p :: InCandle(c, p) && AtOrBetter(l, p)
  }

  lemma ReachedExactlyWhen(l: SimLevel, c: Candle)
    requires c.low <= c.high
    ensures Hit(l, c) <==> Reached(l, c)
  {
    assert InCandle(c, c.low) && InCandle(c, c.high);
    if l.side == Buy {
      assert AtOrBetter(l, c.low) <==> c.low <= l.price;
    } else {
      assert AtOrBetter(l, c.high) <==> l.price <= c.high;
    }
  }

  /** A sell earns its spread to the level below, less the fee on both legs. */
  ghost predicate Earned(cfg: Config, before: Book, after: Book, price: real, below: real) {
    && after.equity - before.equity
         == Times(price - below, cfg.quantity) - Times(Times(price + below, cfg.quantity), cfg.makerRate)
    && after.roundTrips == before.roundTrips + 1
    && (price > below ==> after.grossProfit == before.grossProfit + Times(price - below, cfg.quantity))
    && after.totalFees == before.totalFees + Times(Times(price + below, cfg.quantity), cfg.makerRate)
  }

  ghost predicate Bought(cfg: Config, before: Book, after: Book, price: real) {
    && after.positionSize == before.positionSize + cfg.quantity
    && after.positionCost == before.positionCost + Times(price, cfg.quantity)
    && after.equity == before.equity && after.roundTrips == before.roundTrips
    && after.grossProfit == before.grossProfit && after.totalFees == before.totalFees
  }

  ghost predicate Sold(cfg: Config, before: Book, after: Book) {
    && after.positionSize == Max(0.0, before.positionSize - cfg.quantity)
    && (before.positionSize > cfg.quantity ==>
          Times(after.positionCost, before.positionSize) == Times(before.positionCost, after.positionSize))
    && (before.positionSize <= cfg.quantity ==> after.positionCost == 0.0)
  }

  /** The filled level is out of the market, the level across from it is back in it. */
  ghost predicate Rearmed(before: seq<SimLevel>, after: seq<SimLevel>, k: nat)
    requires k < |before|
  {
    && KeepsPrices(before, after)
    && after[k].isFilled
    && (before[k].side == Buy && k + 1 < |before| ==> !after[k+1].isFilled)
    && (before[k].side == Sell && k > 0 ==> !after[k-1].isFilled)
    && forall j | 0 <= j < |before| && j != k && j != (if before[k].side == Buy then k + 1 else k - 1) ::
         after[j] == before[j]
  }

  ghost predicate Traded(cfg: Config, v: Walk, r: Walk, k: nat)
    requires k < |v.levels|
  {
    && r.missed == v.missed && Rearmed(v.levels, r.levels, k)
    && (v.levels[k].side == Buy ==> Bought(cfg, v.book, r.book, v.levels[k].price))
    && (v.levels[k].side == Sell ==>
          Sold(cfg, v.book, r.book)
          && (k > 0 ==> Earned(cfg, v.book, r.book, v.levels[k].price, v.levels[k-1].price)))
  }

  lemma SellTrades(cfg: Config, b: Book, price: real, below: real)
    requires ValidConfig(cfg)
    ensures Sold(cfg, b, Reduced(b, cfg.quantity))
    ensures var r := Reduced(Realized(b, price, below, cfg.quantity, cfg.makerRate), cfg.quantity);
      Sold(cfg, b, r) && Earned(cfg, b, r, price, below)
  {
    var q := cfg.quantity;
    if b.positionSize > q {
      AverageKept(b.positionSize, b.positionCost, q);
    }
    if price > below {
      ProductPositive(price - below, q);
    }
  }

  lemma ProductPositive(a: real, b: real)
    requires a > 0.0 && b > 0.0
    ensures Times(a, b) > 0.0
  {
  }

  /** When the pass comes to a level: a filled one, or one the candle traded nowhere near, is passed
      over; one that was reached trades when the window holds it and is counted as missed otherwise. */
  lemma LevelTrades(cfg: Config, c: Candle, band: Band, w: Walk, k: nat)
    requires k < |w.levels| && ValidConfig(cfg) && c.low <= c.high
    ensures var l, r := w.levels[k], WalkOne(cfg, c, band, w, k);
      if l.isFilled || !Reached(l, c) then r == w
      else if Accepts(band, l.price) then Traded(cfg, w, r, k)
      else r == w.(missed := w.missed + 1)
  {
    var l := w.levels[k];
    ReachedExactlyWhen(l, c);
    if !l.isFilled && Hit(l, c) && Accepts(band, l.price) && l.side == Sell {
      SellTrades(cfg, w.book, l.price, if k > 0 then w.levels[k-1].price else 0.0);
    }
  }

  /** Every buy that waits is below the candle, every sell that waits above it. */
  ghost predicate Clear(levels: seq<SimLevel>, c: Candle) {
    forall k | 0 <= k < |levels| && !levels[k].isFilled ::
      (levels[k].side == Buy ==> levels[k].price < c.low) && (levels[k].side == Sell ==> c.high < levels[k].price)
  }

  /** A candle between the waiting orders fills nothing, misses nothing and books nothing. */
  lemma {:induction false} NothingFills(cfg: Config, c: Candle, band: Band, w: Walk, n: nat)
    requires n <= |w.levels| && ValidConfig(cfg) && Clear(w.levels, c)
    ensures WalkLevels(cfg, c, band, w, n) == w
  {
    if n > 0 {
      NothingFills(cfg, c, band, w, n - 1);
    }
  }

  /** A pass that changes anything has met a waiting order that the candle reached. */
  lemma {:induction false} ChangeNeedsReach(cfg: Config, c: Candle, band: Band, w: Walk, n: nat) returns (k: nat)
    requires n <= |w.levels| && ValidConfig(cfg) && c.low <= c.high
    requires WalkLevels(cfg, c, band, w, n) != w
    ensures k < n && !w.levels[k].isFilled && Reached(w.levels[k], c)
  {
    if WalkLevels(cfg, c, band, w, n - 1) != w {
      k := ChangeNeedsReach(cfg, c, band, w, n - 1);
    } else {
      k := n - 1;
      LevelTrades(cfg, c, band, w, k);
    }
  }

  ghost predicate AllClear(levels: seq<SimLevel>, candles: seq<Candle>, n: nat)
    requires n <= |candles|
  {
    forall i | 0 <= i < n :: Clear(levels, candles[i])
  }

  /** A market that stays between the orders of the initial grid trades nothing over the whole run: the
      grid is as it was placed, the position is the one bought at the start, and no profit, trade or
      missed fill is reported. */
  lemma {:induction false} QuietMarket(cfg: Config, candles: seq<Candle>, n: nat)
    requires ValidConfig(cfg) && candles != [] && n <= |candles|
    requires AllClear(Start(cfg, candles[0]).levels, candles, n)
    ensures var s, r := Start(cfg, candles[0]), Simulate(cfg, candles, n);
      && r.levels == s.levels && r.missed == 0
      && r.book.positionSize == s.book.positionSize && r.book.positionCost == s.book.positionCost
      && r.book.roundTrips == 0 && r.book.grossProfit == 0.0 && r.book.totalFees == s.book.totalFees
  {
    if n > 0 {
      QuietMarket(cfg, candles, n - 1);
      var s, c := Simulate(cfg, candles, n - 1), candles[n-1];
      var band := BandOf(Backtester.Prices(s.levels), FilledFlags(s.levels), s.prevClose, cfg.windowSize);
      NothingFills(cfg, c, band, Walk(s.levels, s.book, s.missed), |s.levels|);
      ChargeMovesFundingOnly(cfg, s.book, c.close, Due(cfg.funding, s.clock, c.time));
    }
  }

  lemma {:induction false} ChargeMovesFundingOnly(cfg: Config, b: Book, close: real, rates: seq<real>)
    ensures var r := ChargeAll(cfg, b, close, rates);
      r == b.(equity := r.equity, fundingPaid := r.fundingPaid)
      && r.equity + r.fundingPaid == b.equity + b.fundingPaid
  {
    if rates != [] {
      ChargeMovesFundingOnly(cfg, b, close, rates[..|rates|-1]);
    }
  }

  /** A long pays a positive rate on the value of its position and a short receives the same amount. */
  lemma LongPays(cfg: Config, b: Book, close: real, rates: seq<real>)
    ensures var paid := Times(Times(b.positionSize, close), Sum(rates));
      ChargeAll(cfg, b, close, rates).equity - b.equity == if cfg.direction == Long then -paid else paid
  {
    ChargeKeepsPosition(cfg, b, close, rates);
    ChargeMovesFundingOnly(cfg, b, close, rates);
    assert Times(1.0, b.positionSize) == b.positionSize && Times(-1.0, b.positionSize) == -b.positionSize;
    Negated(b.positionSize, close, Sum(rates));
  }

  lemma Negated(a: real, b: real, c: real)
    ensures Times(Times(-a, b), c) == -Times(Times(a, b), c)
  {
  }

  // ----- the grid at the start

  /** The levels of the initial grid that wait as sells. */
  function SellLevels(cfg: Config, first: Candle, n: nat): (r: set<nat>)
    requires ValidConfig(cfg) && n <= cfg.numGrids + 1
    ensures forall k: nat :: k in r <==> k < n && Start(cfg, first).levels[k].side == Sell
  {
    set k: nat | k < n && Start(cfg, first).levels[k].side == Sell
  }

  lemma {:induction false} SellsCounted(cfg: Config, first: Candle, n: nat)
    requires ValidConfig(cfg) && n <= cfg.numGrids + 1
    ensures Sells(Start(cfg, first).levels[..n]) == |SellLevels(cfg, first, n)|
  {
    var levels := Start(cfg, first).levels;
    if n == 0 {
      assert SellLevels(cfg, first, 0) == {};
    } else {
      SellsCounted(cfg, first, n - 1);
      assert levels[..n][..n-1] == levels[..n-1];
      var before := SellLevels(cfg, first, n - 1);
      assert SellLevels(cfg, first, n) == if levels[n-1].side == Sell then before + {n-1} else before;
    }
  }

  /** No order of the initial grid is through the market, and a long starts with the units that all its
      sells need, bought at the first close. */
  lemma GridAtStart(cfg: Config, first: Candle)
    requires ValidConfig(cfg)
    ensures var s := Start(cfg, first);
      && (forall k | 0 <= k <= cfg.numGrids ::
            && !s.levels[k].isFilled
            && (s.levels[k].price < first.close ==> s.levels[k].side == Buy)
            && (s.levels[k].price > first.close ==> s.levels[k].side == Sell)
            && (s.levels[k].price == first.close ==> s.levels[k].side == if cfg.direction == Long then Sell else Buy))
      && var q := if cfg.direction == Long && cfg.simulateInitialPurchase
                  then Times(cfg.quantity, |SellLevels(cfg, first, cfg.numGrids + 1)| as real) else 0.0;
         s.book.positionSize == q && s.book.positionCost == Times(first.close, q)
  {
    var levels := Start(cfg, first).levels;
    SellsCounted(cfg, first, cfg.numGrids + 1);
    assert levels[..cfg.numGrids+1] == levels;
    assert Times(cfg.quantity, 0.0) == 0.0 && Times(first.close, 0.0) == 0.0;
  }

  /** The purchase at the start is a taker order: it loses the slippage on its cost, and the taker fee on
      what it paid with the slippage. */
  lemma PurchaseCosts(cfg: Config, first: Candle)
    requires ValidConfig(cfg)
    ensures var b := Start(cfg, first).book;
      && b.slippageCost == Times(b.positionCost, cfg.slippageRate)
      && b.totalFees == Times(b.positionCost + b.slippageCost, cfg.takerRate)
      && b.equity == cfg.investment - b.slippageCost - b.totalFees
  {
    var q := Times(cfg.quantity, Sells(Start(cfg, first).levels) as real);
    assert Times(0.0, cfg.slippageRate) == 0.0 && Times(0.0, cfg.takerRate) == 0.0;
    SlippageOnCost(first.close, cfg.slippageRate, q);
  }

  lemma SlippageOnCost(price: real, rate: real, q: real)
    ensures Times(Times(price, rate), q) == Times(Times(price, q), rate)
    ensures Times(Times(price, 1.0 + rate), q) == Times(price, q) + Times(Times(price, rate), q)
  {
  }
}
