/**
 The grid backtester: walk the candles, fill the levels they touch, charge funding, and keep
 the books. `Simulate` is the run as a function of the candles; `RunBacktest` carries it out on
 an array of levels. Amounts are exact until the report rounds them.
 */
module Backtester {
  import opened Nearest
  import opened GridLevels
  import opened BacktestWindow
  import opened Numbers
  import opened Options

  datatype Candle = Candle(time: int, open: real, high: real, low: real, close: real)

  const FUNDING_INTERVAL_SEC: int := 8 * 3600

  /** A point of the historical rate series. */
  datatype RatePoint = RatePoint(time: int, rate: real)

  datatype Funding = Constant(rate: real) | Historical(points: seq<RatePoint>)

  datatype Config = Config(
    direction: Direction, lower: real, upper: real, numGrids: nat, investment: real, quantity: real,
    makerRate: real, takerRate: real, slippageRate: real, funding: Funding, windowSize: nat,
    simulateInitialPurchase: bool)

  ghost predicate ValidConfig(c: Config) {
    c.numGrids >= 1 && c.quantity > 0.0
  }

  datatype SimLevel = SimLevel(price: real, side: Side, isFilled: bool)

  // ----- the books

  datatype Book = Book(
    equity: real, grossProfit: real, grossLoss: real, totalFees: real, fundingPaid: real, slippageCost: real,
    roundTrips: nat, positionSize: real, positionCost: real)

  function Opened(b: Book, price: real, q: real): Book {
    b.(positionSize := b.positionSize + q, positionCost := b.positionCost + Times(price, q))
  }

  /** The cost that stays with what is left of the position. */
  function CostAfterSell(size: real, cost: real, q: real): real
    requires q > 0.0
  {
    var left := if size - q > 0.0 then size - q else 0.0;
    if left > 0.0 then cost * (left / (left + q)) else 0.0
  }

  function Reduced(b: Book, q: real): Book
    requires q > 0.0
  {
    b.(positionSize := if b.positionSize - q > 0.0 then b.positionSize - q else 0.0,
       positionCost := CostAfterSell(b.positionSize, b.positionCost, q))
  }

  /** A sell at `price` books the spread to the level below it, less the fee on both legs. */
  function Realized(b: Book, price: real, below: real, q: real, makerRate: real): Book {
    var gross := Times(price - below, q);
    var fee := Times(Times(below + price, q), makerRate);
    b.(grossProfit := if gross > 0.0 then b.grossProfit + gross else b.grossProfit,
       grossLoss := if gross > 0.0 then b.grossLoss else b.grossLoss - gross,
       totalFees := b.totalFees + fee,
       roundTrips := b.roundTrips + 1,
       equity := b.equity + (gross - fee))
  }

  function Charged(b: Book, payment: real): Book {
    b.(fundingPaid := b.fundingPaid + payment, equity := b.equity - payment)
  }

  function Purchased(b: Book, price: real, q: real, slippageRate: real, takerRate: real): Book {
    var slip := Times(Times(price, slippageRate), q);
    var fee := Times(Times(Times(price, 1.0 + slippageRate), q), takerRate);
    Opened(b.(slippageCost := b.slippageCost + slip, totalFees := b.totalFees + fee, equity := b.equity - (slip + fee)), price, q)
  }

  // ----- one candle

  function Prices(levels: seq<SimLevel>): (r: seq<real>)
    ensures |r| == |levels|
    ensures forall k | 0 <= k < |levels| :: r[k] == levels[k].price
  {
    seq(|levels|, k requires 0 <= k < |levels| => levels[k].price)
  }

  function FilledFlags(levels: seq<SimLevel>): (r: seq<bool>)
    ensures |r| == |levels|
  {
    seq(|levels|, k requires 0 <= k < |levels| => levels[k].isFilled)
  }

  predicate Hit(l: SimLevel, c: Candle) {
    if l.side == Buy then c.low <= l.price else c.high >= l.price
  }

  datatype Walk = Walk(levels: seq<SimLevel>, book: Book, missed: nat)

  function CounterOf(l: SimLevel, k: nat): int {
    if l.side == Buy then k + 1 else k - 1
  }

  function FillBook(cfg: Config, levels: seq<SimLevel>, k: nat, b: Book): Book
    requires k < |levels| && ValidConfig(cfg)
  {
    var l := levels[k];
    if l.side == Buy then Opened(b, l.price, cfg.quantity)
    else if k >= 1 then
      Reduced(Realized(b, l.price, levels[k-1].price, cfg.quantity, cfg.makerRate), cfg.quantity)
    else Reduced(b, cfg.quantity)
  }

  /** The fill marks the level and re-arms the level its counter-order goes to. */
  function FillLevels(levels: seq<SimLevel>, k: nat): (r: seq<SimLevel>)
    requires k < |levels|
    ensures |r| == |levels|
  {
    var marked := levels[k := levels[k].(isFilled := true)];
    var c := CounterOf(levels[k], k);
    if 0 <= c < |levels| then marked[c := marked[c].(isFilled := false)] else marked
  }

  function WalkOne(cfg: Config, c: Candle, band: Band, w: Walk, k: nat): (r: Walk)
    requires k < |w.levels| && ValidConfig(cfg)
    ensures |r.levels| == |w.levels|
  {
    var l := w.levels[k];
    if l.isFilled || !Hit(l, c) then w
    else if !Accepts(band, l.price) then w.(missed := w.missed + 1)
    else Walk(FillLevels(w.levels, k), FillBook(cfg, w.levels, k, w.book), w.missed)
  }

  /** The first n levels, in index order. */
  function WalkLevels(cfg: Config, c: Candle, band: Band, w: Walk, n: nat): (r: Walk)
    requires n <= |w.levels| && ValidConfig(cfg)
    ensures |r.levels| == |w.levels|
  {
    if n == 0 then w else WalkOne(cfg, c, band, WalkLevels(cfg, c, band, w, n - 1), n - 1)
  }

  /** Boundaries from `next` to `time`, both included. */
  function Crossed(time: int, next: int): nat {
    if time < next then 0 else (time - next) / FUNDING_INTERVAL_SEC + 1
  }

  function Sign(d: Direction): real {
    if d == Long then 1.0 else -1.0
  }

  function Payment(cfg: Config, b: Book, close: real, rate: real): real {
    Times(Times(Times(Sign(cfg.direction), b.positionSize), close), rate)
  }

  /** The first point from idx on that is later than t. */
  function Later(points: seq<RatePoint>, idx: nat, t: int): (r: nat)
    ensures r >= idx
    decreases |points| - idx
  {
    if idx < |points| && points[idx].time <= t then Later(points, idx + 1, t) else idx
  }

  function RatesUpTo(points: seq<RatePoint>, idx: nat, t: int): seq<real>
    decreases |points| - idx
  {
    if idx < |points| && points[idx].time <= t then [points[idx].rate] + RatesUpTo(points, idx + 1, t) else []
  }

  /** The next boundary of the constant rate, and the next point of the series. */
  datatype Clock = Clock(next: int, idx: nat)

  /** The rates charged at a candle of time t, in order. */
  function Due(f: Funding, clock: Clock, t: int): seq<real> {
    match f
    case Constant(rate) => if rate == 0.0 then [] else seq(Crossed(t, clock.next), _ => rate)
    case Historical(points) => RatesUpTo(points, clock.idx, t)
  }

  function ClockAfter(f: Funding, clock: Clock, t: int): Clock {
    match f
    case Constant(rate) =>
      if rate == 0.0 then clock else clock.(next := clock.next + Crossed(t, clock.next) * FUNDING_INTERVAL_SEC)
    case Historical(points) => clock.(idx := Later(points, clock.idx, t))
  }

  function ChargeAll(cfg: Config, b: Book, close: real, rates: seq<real>): Book {
    if rates == [] then b
    else
      var r := ChargeAll(cfg, b, close, rates[..|rates|-1]);
      Charged(r, Payment(cfg, r, close, rates[|rates|-1]))
  }

  function MarkToMarket(b: Book, close: real): real {
    var divisor := if b.positionSize > 0.0001 then b.positionSize else 0.0001;
    b.equity + b.positionSize * (close - b.positionCost / divisor)
  }

  function Drawdown(hwm: real, equity: real): real {
    if hwm > 0.0 then ((hwm - equity) / hwm) * 100.0 else 0.0
  }

  datatype State = State(
    levels: seq<SimLevel>, book: Book, missed: nat, clock: Clock, prevClose: real,
    hwm: real, maxDrawdownPct: real, curve: seq<real>)

  function Step(cfg: Config, s: State, c: Candle): (r: State)
    requires ValidConfig(cfg)
    ensures |r.levels| == |s.levels| && |r.curve| == |s.curve| + 1
  {
    var band := BandOf(Prices(s.levels), FilledFlags(s.levels), s.prevClose, cfg.windowSize);
    var w := WalkLevels(cfg, c, band, Walk(s.levels, s.book, s.missed), |s.levels|);
    var book := ChargeAll(cfg, w.book, c.close, Due(cfg.funding, s.clock, c.time));
    var equity := MarkToMarket(book, c.close);
    var hwm := if equity > s.hwm then equity else s.hwm;
    var dd := Drawdown(hwm, equity);
    State(w.levels, book, w.missed, ClockAfter(cfg.funding, s.clock, c.time), c.close,
          hwm, if dd > s.maxDrawdownPct then dd else s.maxDrawdownPct, s.curve + [equity])
  }

  function Round2(x: real): real {
    ((x * 100.0 + 0.5).Floor as real) / 100.0
  }

  function Round4(x: real): real {
    ((x * 10000.0 + 0.5).Floor as real) / 10000.0
  }

  function LevelPrice(cfg: Config, i: nat): real
    requires ValidConfig(cfg)
  {
    Round2(cfg.lower + Times(i as real, Spacing(cfg)))
  }

  function Spacing(cfg: Config): real
    requires ValidConfig(cfg)
  {
    (cfg.upper - cfg.lower) / (cfg.numGrids as real)
  }

  function InitialSide(cfg: Config, price: real, firstPrice: real): Side {
    if cfg.direction == Long then (if price < firstPrice then Buy else Sell)
    else if price > firstPrice then Sell else Buy
  }

  function InitialLevels(cfg: Config, firstPrice: real, n: nat): (r: seq<SimLevel>)
    requires ValidConfig(cfg)
    ensures |r| == n
    ensures forall k | 0 <= k < n :: r[k] == SimLevel(LevelPrice(cfg, k), InitialSide(cfg, LevelPrice(cfg, k), firstPrice), false)
  {
    seq(n, k requires 0 <= k < n => SimLevel(LevelPrice(cfg, k), InitialSide(cfg, LevelPrice(cfg, k), firstPrice), false))
  }

  function Sells(levels: seq<SimLevel>): nat {
    if levels == [] then 0 else Sells(levels[..|levels|-1]) + if levels[|levels|-1].side == Sell then 1 else 0
  }

  function InitialBook(cfg: Config, levels: seq<SimLevel>, firstPrice: real): Book {
    var b := Book(cfg.investment, 0.0, 0.0, 0.0, 0.0, 0.0, 0, 0.0, 0.0);
    if cfg.simulateInitialPurchase && cfg.direction == Long && Sells(levels) > 0 then
      Purchased(b, firstPrice, Times(cfg.quantity, Sells(levels) as real), cfg.slippageRate, cfg.takerRate)
    else b
  }

  /** The first boundary strictly after the given time. */
  function FirstBoundary(time: int): int {
    (time / FUNDING_INTERVAL_SEC) * FUNDING_INTERVAL_SEC + FUNDING_INTERVAL_SEC
  }

  /** Points of the series up to the first candle are passed over. */
  function FirstClock(f: Funding, t0: int): Clock {
    Clock(FirstBoundary(t0), match f case Constant(_) => 0 case Historical(points) => Later(points, 0, t0))
  }

  function Start(cfg: Config, first: Candle): State
    requires ValidConfig(cfg)
  {
    var levels := InitialLevels(cfg, first.close, cfg.numGrids + 1);
    State(levels, InitialBook(cfg, levels, first.close), 0, FirstClock(cfg.funding, first.time), first.open, cfg.investment, 0.0, [])
  }

  function Simulate(cfg: Config, candles: seq<Candle>, n: nat): (r: State)
    requires ValidConfig(cfg) && candles != [] && n <= |candles|
    ensures |r.levels| == cfg.numGrids + 1 && |r.curve| == n
  {
    if n == 0 then Start(cfg, candles[0]) else Step(cfg, Simulate(cfg, candles, n - 1), candles[n-1])
  }

  // ----- the equity identity

  ghost predicate Balanced(b: Book, investment: real) {
    b.equity - investment == b.grossProfit - b.grossLoss - b.totalFees - b.fundingPaid - b.slippageCost
  }

  lemma {:induction false} WalkBalanced(cfg: Config, c: Candle, band: Band, w: Walk, n: nat, investment: real)
    requires n <= |w.levels| && ValidConfig(cfg) && Balanced(w.book, investment)
    ensures Balanced(WalkLevels(cfg, c, band, w, n).book, investment)
  {
    if n > 0 {
      WalkBalanced(cfg, c, band, w, n - 1, investment);
    }
  }

  lemma {:induction false} ChargeBalanced(cfg: Config, b: Book, close: real, rates: seq<real>, investment: real)
    requires Balanced(b, investment)
    ensures Balanced(ChargeAll(cfg, b, close, rates), investment)
  {
    if rates != [] {
      ChargeBalanced(cfg, b, close, rates[..|rates|-1], investment);
    }
  }

  /** After any candles, equity less the investment is gross profit less gross loss, fees,
      funding and slippage: each is booked once, and the reported net profit is the equity gained. */
  lemma {:induction false} EquityIdentity(cfg: Config, candles: seq<Candle>, n: nat)
    requires ValidConfig(cfg) && candles != [] && n <= |candles|
    ensures Balanced(Simulate(cfg, candles, n).book, cfg.investment)
  {
    if n > 0 {
      EquityIdentity(cfg, candles, n - 1);
      var s, c := Simulate(cfg, candles, n - 1), candles[n-1];
      var band := BandOf(Prices(s.levels), FilledFlags(s.levels), s.prevClose, cfg.windowSize);
      var w := Walk(s.levels, s.book, s.missed);
      WalkBalanced(cfg, c, band, w, |s.levels|, cfg.investment);
      var after := WalkLevels(cfg, c, band, w, |s.levels|);
      ChargeBalanced(cfg, after.book, c.close, Due(cfg.funding, s.clock, c.time), cfg.investment);
    }
  }

  // ----- the position and its average cost

  /** Not negative, free of cost when empty, and with an average cost between lo and hi. */
  ghost predicate Sane(b: Book, lo: real, hi: real) {
    && b.positionSize >= 0.0
    && (b.positionSize == 0.0 ==> b.positionCost == 0.0)
    && Times(lo, b.positionSize) <= b.positionCost <= Times(hi, b.positionSize)
  }

  lemma OpenedSane(b: Book, price: real, q: real, lo: real, hi: real)
    requires Sane(b, lo, hi) && lo <= price <= hi && q > 0.0
    ensures Sane(Opened(b, price, q), lo, hi)
  {
    assert Times(lo, b.positionSize + q) == Times(lo, b.positionSize) + Times(lo, q);
    assert Times(hi, b.positionSize + q) == Times(hi, b.positionSize) + Times(hi, q);
    assert Times(lo, q) <= Times(price, q) <= Times(hi, q);
  }

  /** A sell takes its share of the cost and leaves the average cost of the rest unchanged. */
  lemma AverageKept(size: real, cost: real, q: real)
    requires q > 0.0 && size > q
    ensures Times(CostAfterSell(size, cost, q), size) == Times(cost, size - q)
  {
    var left := size - q;
    var share := left / size;
    assert share * size == left;
    assert left + q == size;
    assert (cost * share) * size == cost * (share * size);
  }

  lemma QuotientNonNegative(a: real, b: real)
    requires a >= 0.0 && b > 0.0
    ensures a / b >= 0.0
  {
  }

  lemma ShareWithin(size: real, cost: real, q: real, lo: real, hi: real)
    requires q > 0.0 && size > q && Times(lo, size) <= cost <= Times(hi, size)
    ensures Times(lo, size - q) <= CostAfterSell(size, cost, q) <= Times(hi, size - q)
  {
    var share := (size - q) / size;
    assert share * size == size - q;
    QuotientNonNegative(size - q, size);
    var after := cost * share;
    assert (lo * size) * share <= after <= (hi * size) * share;
    assert (lo * size) * share == lo * (share * size);
    assert (hi * size) * share == hi * (share * size);
    assert (size - q) + q == size;
  }

  lemma ReducedSane(b: Book, q: real, lo: real, hi: real)
    requires Sane(b, lo, hi) && q > 0.0
    ensures Sane(Reduced(b, q), lo, hi)
  {
    if b.positionSize > q {
      ShareWithin(b.positionSize, b.positionCost, q, lo, hi);
    } else {
      assert Times(lo, 0.0) == 0.0 && Times(hi, 0.0) == 0.0;
    }
  }

  /** Every buy that fills among the first n levels of the candle is at a price in [lo, hi]. */
  ghost predicate WalkBuysWithin(cfg: Config, c: Candle, band: Band, w: Walk, n: nat, lo: real, hi: real)
    requires n <= |w.levels| && ValidConfig(cfg)
  {
    n > 0 ==>
      var l := WalkLevels(cfg, c, band, w, n - 1).levels[n-1];
      && WalkBuysWithin(cfg, c, band, w, n - 1, lo, hi)
      && (!l.isFilled && Hit(l, c) && Accepts(band, l.price) && l.side == Buy ==> lo <= l.price <= hi)
  }

  lemma {:induction false} WalkSane(cfg: Config, c: Candle, band: Band, w: Walk, n: nat, lo: real, hi: real)
    requires n <= |w.levels| && ValidConfig(cfg)
    requires Sane(w.book, lo, hi) && WalkBuysWithin(cfg, c, band, w, n, lo, hi)
    ensures Sane(WalkLevels(cfg, c, band, w, n).book, lo, hi)
  {
    if n > 0 {
      WalkSane(cfg, c, band, w, n - 1, lo, hi);
      var v := WalkLevels(cfg, c, band, w, n - 1);
      var l := v.levels[n-1];
      if !l.isFilled && Hit(l, c) && Accepts(band, l.price) {
        if l.side == Buy {
          OpenedSane(v.book, l.price, cfg.quantity, lo, hi);
        } else {
          ReducedSane(v.book, cfg.quantity, lo, hi);
        }
      }
    }
  }

  /** Every purchase of the run, the initial one included, is at a price in [lo, hi]. */
  ghost predicate BuysWithin(cfg: Config, candles: seq<Candle>, n: nat, lo: real, hi: real)
    requires ValidConfig(cfg) && candles != [] && n <= |candles|
  {
    if n == 0 then Simulate(cfg, candles, 0).book.positionSize > 0.0 ==> lo <= candles[0].close <= hi
    else
      var s, c := Simulate(cfg, candles, n - 1), candles[n-1];
      && BuysWithin(cfg, candles, n - 1, lo, hi)
      && WalkBuysWithin(cfg, c, BandOf(Prices(s.levels), FilledFlags(s.levels), s.prevClose, cfg.windowSize),
                        Walk(s.levels, s.book, s.missed), |s.levels|, lo, hi)
  }

  /** Charging leaves the position alone, so all rates of a candle are charged on the same one. */
  lemma {:induction false} ChargeKeepsPosition(cfg: Config, b: Book, close: real, rates: seq<real>)
    ensures var r := ChargeAll(cfg, b, close, rates);
      && r.positionSize == b.positionSize && r.positionCost == b.positionCost
      && r.fundingPaid == b.fundingPaid + Payment(cfg, b, close, Sum(rates))
  {
    if rates == [] {
      assert Payment(cfg, b, close, 0.0) == 0.0;
    } else {
      var n := |rates| - 1;
      ChargeKeepsPosition(cfg, b, close, rates[..n]);
      PaymentAdds(Times(Times(Sign(cfg.direction), b.positionSize), close), Sum(rates[..n]), rates[n]);
    }
  }

  lemma PaymentAdds(x: real, a: real, b: real)
    ensures Times(x, a + b) == Times(x, a) + Times(x, b)
  {
  }

  lemma InitialSane(cfg: Config, levels: seq<SimLevel>, price: real, lo: real, hi: real)
    requires ValidConfig(cfg)
    requires InitialBook(cfg, levels, price).positionSize > 0.0 ==> lo <= price <= hi
    ensures Sane(InitialBook(cfg, levels, price), lo, hi)
  {
    assert Times(lo, 0.0) == 0.0 && Times(hi, 0.0) == 0.0;
    var sells := Sells(levels);
    if cfg.simulateInitialPurchase && cfg.direction == Long && sells > 0 {
      var q := Times(cfg.quantity, sells as real);
      assert q > 0.0;
      var b := InitialBook(cfg, levels, price);
      assert b.positionSize == q && b.positionCost == Times(price, q);
      assert Times(lo, q) <= Times(price, q) <= Times(hi, q);
    }
  }

  /** Over every candle sequence the position is never negative, an empty position has no cost,
      and the average cost lies between the lowest and the highest purchase price. */
  lemma {:induction false} AverageCostBounded(cfg: Config, candles: seq<Candle>, n: nat, lo: real, hi: real)
    requires ValidConfig(cfg) && candles != [] && n <= |candles|
    requires BuysWithin(cfg, candles, n, lo, hi)
    ensures Sane(Simulate(cfg, candles, n).book, lo, hi)
  {
    if n == 0 {
      InitialSane(cfg, InitialLevels(cfg, candles[0].close, cfg.numGrids + 1), candles[0].close, lo, hi);
    } else {
      AverageCostBounded(cfg, candles, n - 1, lo, hi);
      var s, c := Simulate(cfg, candles, n - 1), candles[n-1];
      var band := BandOf(Prices(s.levels), FilledFlags(s.levels), s.prevClose, cfg.windowSize);
      var w := Walk(s.levels, s.book, s.missed);
      WalkSane(cfg, c, band, w, |s.levels|, lo, hi);
      var after := WalkLevels(cfg, c, band, w, |s.levels|);
      ChargeKeepsPosition(cfg, after.book, c.close, Due(cfg.funding, s.clock, c.time));
    }
  }

  // ----- funding

  /** The 8h boundaries after t0 and up to t. */
  function Boundaries(t0: int, t: int): nat {
    var a, b := t0 / FUNDING_INTERVAL_SEC, t / FUNDING_INTERVAL_SEC;
    if b > a then b - a else 0
  }

  function LatestTime(candles: seq<Candle>, n: nat): int
    requires candles != [] && n <= |candles|
  {
    if n == 0 then candles[0].time
    else
      var t := LatestTime(candles, n - 1);
      if candles[n-1].time > t then candles[n-1].time else t
  }

  lemma CrossedFrom(t0: int, charged: nat, t: int)
    ensures Crossed(t, NextAfter(t0, charged))
         == if Boundaries(t0, t) > charged then Boundaries(t0, t) - charged else 0
  {
    var i := FUNDING_INTERVAL_SEC;
    var a, b := t0 / i, t / i;
    var next := (a + 1 + charged) * i;
    assert FirstBoundary(t0) + charged * i == next;
    assert b * i <= t < (b + 1) * i;
    if t >= next {
      assert t - next == (b - a - 1 - charged) * i + t % i;
      assert (t - next) / i == b - a - 1 - charged;
    }
  }

  /** The clock after n candles, and the rates charged over them. */
  function ClockAt(f: Funding, candles: seq<Candle>, n: nat): Clock
    requires candles != [] && n <= |candles|
  {
    if n == 0 then FirstClock(f, candles[0].time) else ClockAfter(f, ClockAt(f, candles, n - 1), candles[n-1].time)
  }

  function Charges(f: Funding, candles: seq<Candle>, n: nat): seq<real>
    requires candles != [] && n <= |candles|
  {
    if n == 0 then [] else Charges(f, candles, n - 1) + Due(f, ClockAt(f, candles, n - 1), candles[n-1].time)
  }

  /** So the candle at n is charged what Charges gains there. */
  lemma {:induction false} ClockOfRun(cfg: Config, candles: seq<Candle>, n: nat)
    requires ValidConfig(cfg) && candles != [] && n <= |candles|
    ensures Simulate(cfg, candles, n).clock == ClockAt(cfg.funding, candles, n)
  {
    if n > 0 {
      ClockOfRun(cfg, candles, n - 1);
    }
  }

  /** With a constant rate the next boundary is the first one after every candle seen, so each
      boundary after the first candle is charged once, in the first candle that reaches it. */
  lemma {:induction false} FundingOncePerBoundary(f: Funding, candles: seq<Candle>, n: nat)
    requires candles != [] && n <= |candles| && f.Constant? && f.rate != 0.0
    ensures var reached := Boundaries(candles[0].time, LatestTime(candles, n));
      && ClockAt(f, candles, n).next == NextAfter(candles[0].time, reached)
      && Charges(f, candles, n) == seq(reached, _ => f.rate)
  {
    if n > 0 {
      FundingOncePerBoundary(f, candles, n - 1);
      FundingStep(candles[0].time, LatestTime(candles, n - 1), candles[n-1].time);
      LatestRises(candles, n);
      var was := Boundaries(candles[0].time, LatestTime(candles, n - 1));
      SameRates(f.rate, was, Boundaries(candles[0].time, LatestTime(candles, n)) - was);
    }
  }

  lemma LatestRises(candles: seq<Candle>, n: nat)
    requires candles != [] && 0 < n <= |candles|
    ensures Boundaries(candles[0].time, LatestTime(candles, n - 1)) <= Boundaries(candles[0].time, LatestTime(candles, n))
  {
    LaterTimes(candles[0].time, LatestTime(candles, n - 1), LatestTime(candles, n));
  }

  lemma SameRates(rate: real, m: nat, n: nat)
    ensures seq(m, _ => rate) + seq(n, _ => rate) == seq(m + n, _ => rate)
  {
  }

  lemma {:induction false} LaterTwice(points: seq<RatePoint>, idx: nat, t: int, u: int)
    ensures Later(points, Later(points, idx, t), u) == Later(points, idx, if u > t then u else t)
    decreases |points| - idx
  {
    if idx < |points| && points[idx].time <= t {
      LaterTwice(points, idx + 1, t, u);
    }
  }

  lemma FrontOf(x: real, a: seq<real>, b: seq<real>)
    ensures [x] + a + b == [x] + (a + b)
  {
  }

  lemma {:induction false} RatesTwice(points: seq<RatePoint>, idx: nat, t: int, u: int)
    ensures RatesUpTo(points, idx, t) + RatesUpTo(points, Later(points, idx, t), u)
         == RatesUpTo(points, idx, if u > t then u else t)
    decreases |points| - idx
  {
    if idx < |points| && points[idx].time <= t {
      RatesTwice(points, idx + 1, t, u);
      FrontOf(points[idx].rate, RatesUpTo(points, idx + 1, t), RatesUpTo(points, Later(points, idx + 1, t), u));
    } else {
      assert [] + RatesUpTo(points, idx, u) == RatesUpTo(points, idx, u);
    }
  }

  lemma LaterChain(points: seq<RatePoint>, idx: nat, t: int, u: int)
    ensures var later := if u > t then u else t;
      && Later(points, Later(points, idx, t), u) == Later(points, idx, later)
      && RatesUpTo(points, idx, t) + RatesUpTo(points, Later(points, idx, t), u) == RatesUpTo(points, idx, later)
  {
    LaterTwice(points, idx, t, u);
    RatesTwice(points, idx, t, u);
  }

  lemma NoneBetween(points: seq<RatePoint>, t0: int, t: int)
    requires t <= t0
    ensures RatesUpTo(points, Later(points, 0, t0), t) == []
  {
    LaterChain(points, 0, t0, t);
    assert |RatesUpTo(points, Later(points, 0, t0), t)| == 0;
  }

  /** With a series the next point is the first one later than every candle seen: the points after
      the first candle are charged in order, each once, in the first candle that reaches it. */
  lemma {:induction false} SeriesChargedOnce(f: Funding, candles: seq<Candle>, n: nat)
    requires candles != [] && n <= |candles| && f.Historical?
    ensures ClockAt(f, candles, n).idx == Later(f.points, 0, LatestTime(candles, n))
    ensures Charges(f, candles, n) == RatesUpTo(f.points, Later(f.points, 0, candles[0].time), LatestTime(candles, n))
  {
    hide Later, RatesUpTo;
    var t0 := candles[0].time;
    if n == 0 {
      NoneBetween(f.points, t0, t0);
    } else {
      SeriesChargedOnce(f, candles, n - 1);
      LatestIsLater(candles, n - 1);
      SeriesStep(f.points, t0, LatestTime(candles, n - 1), candles[n-1].time);
    }
  }

  lemma SeriesStep(points: seq<RatePoint>, t0: int, latest: int, t: int)
    requires t0 <= latest
    ensures var now := if t > latest then t else latest;
      && Later(points, Later(points, 0, latest), t) == Later(points, 0, now)
      && RatesUpTo(points, Later(points, 0, t0), latest) + RatesUpTo(points, Later(points, 0, latest), t)
           == RatesUpTo(points, Later(points, 0, t0), now)
  {
    LaterChain(points, 0, latest, t);
    LaterChain(points, 0, t0, latest);
    LaterChain(points, Later(points, 0, t0), latest, t);
  }

  lemma {:induction false} LatestIsLater(candles: seq<Candle>, n: nat)
    requires candles != [] && n <= |candles|
    ensures LatestTime(candles, n) >= candles[0].time
  {
    if n > 0 {
      LatestIsLater(candles, n - 1);
    }
  }

  ghost predicate InTimeOrder(points: seq<RatePoint>) {
    forall j, k | 0 <= j < k < |points| :: points[j].time <= points[k].time
  }

  lemma {:induction false} LaterInOrder(points: seq<RatePoint>, idx: nat, t: int)
    requires InTimeOrder(points) && idx <= |points|
    ensures Later(points, idx, t) <= |points|
    ensures forall k | idx <= k < |points| :: k < Later(points, idx, t) <==> points[k].time <= t
    decreases |points| - idx
  {
    if idx < |points| && points[idx].time <= t {
      LaterInOrder(points, idx + 1, t);
    }
  }

  function RatesOf(points: seq<RatePoint>): seq<real> {
    seq(|points|, k requires 0 <= k < |points| => points[k].rate)
  }

  lemma FirstRate(points: seq<RatePoint>, lo: nat, hi: nat)
    requires lo < hi <= |points|
    ensures RatesOf(points[lo..hi]) == [points[lo].rate] + RatesOf(points[lo+1..hi])
  {
  }

  lemma {:induction false} RatesAreSlice(points: seq<RatePoint>, idx: nat, t: int)
    requires idx <= |points|
    ensures Later(points, idx, t) <= |points| && RatesUpTo(points, idx, t) == RatesOf(points[idx..Later(points, idx, t)])
    decreases |points| - idx
  {
    hide RatesOf;
    if idx < |points| && points[idx].time <= t {
      RatesAreSlice(points, idx + 1, t);
      FirstRate(points, idx, Later(points, idx, t));
    } else {
      NoRates(points, idx);
    }
  }

  lemma NoRates(points: seq<RatePoint>, idx: nat)
    requires idx <= |points|
    ensures RatesOf(points[idx..idx]) == []
  {
  }

  /** In a series in time order the points charged are exactly those after the first candle and up to
      the latest one. */
  lemma ChargedInOrder(f: Funding, candles: seq<Candle>, n: nat)
    requires candles != [] && n <= |candles| && f.Historical? && InTimeOrder(f.points)
    ensures exists lo: nat, hi: nat ::
      && lo <= hi <= |f.points| && Charges(f, candles, n) == RatesOf(f.points[lo..hi])
      && forall k | 0 <= k < |f.points| :: lo <= k < hi <==> candles[0].time < f.points[k].time <= LatestTime(candles, n)
  {
    var t0, t := candles[0].time, LatestTime(candles, n);
    SeriesChargedOnce(f, candles, n);
    LatestIsLater(candles, n);
    LaterInOrder(f.points, 0, t0);
    var lo := Later(f.points, 0, t0);
    LaterInOrder(f.points, lo, t);
    RatesAreSlice(f.points, lo, t);
    var hi := Later(f.points, lo, t);
    forall k | 0 <= k < |f.points| ensures lo <= k < hi <==> t0 < f.points[k].time <= t {
    }
  }

  /** The next boundary once `charged` of them have been. */
  function NextAfter(t0: int, charged: nat): int {
    FirstBoundary(t0) + charged * FUNDING_INTERVAL_SEC
  }

  lemma FundingStep(t0: int, latest: int, t: int)
    ensures var before := Boundaries(t0, latest);
      var after := Boundaries(t0, if t > latest then t else latest);
      var k := Crossed(t, NextAfter(t0, before));
      k == after - before && NextAfter(t0, before) + k * FUNDING_INTERVAL_SEC == NextAfter(t0, after)
  {
    CrossedFrom(t0, Boundaries(t0, latest), t);
    LaterTimes(t0, latest, t);
  }

  lemma LaterTimes(t0: int, t: int, u: int)
    ensures t <= u ==> Boundaries(t0, t) <= Boundaries(t0, u)
    ensures u <= t ==> Boundaries(t0, u) <= Boundaries(t0, t)
  {
  }

  // ----- drawdown

  /** The starting equity followed by the equity curve. */
  function Series(cfg: Config, candles: seq<Candle>, n: nat): (r: seq<real>)
    requires ValidConfig(cfg) && candles != [] && n <= |candles|
    ensures |r| == n + 1
  {
    [cfg.investment] + Simulate(cfg, candles, n).curve
  }

  lemma DrawdownGrowsWithPeak(low: real, high: real, e: real)
    requires 0.0 < low <= high && e >= 0.0
    ensures Drawdown(low, e) <= Drawdown(high, e)
  {
    var x, y := e / low, e / high;
    QuotientNonNegative(e, high);
    QuotientTimes(e, low);
    QuotientTimes(e, high);
    QuotientIs(low - e, low, 1.0 - x);
    QuotientIs(high - e, high, 1.0 - y);
    SmallerShare(x, y, low, high, e);
  }

  lemma QuotientTimes(a: real, b: real)
    requires b != 0.0
    ensures Times(a / b, b) == a
  {
  }

  lemma QuotientIs(a: real, b: real, q: real)
    requires b > 0.0 && q * b == a
    ensures a / b == q
  {
  }

  lemma SmallerShare(x: real, y: real, low: real, high: real, e: real)
    requires 0.0 < low <= high && y >= 0.0
    requires Times(x, low) == e && Times(y, high) == e
    ensures y <= x
  {
    assert y * (high - low) >= 0.0;
    assert (x - y) * low == y * (high - low);
  }

  /** The running peak of a series, and the running worst drop below it. */
  function Peak(series: seq<real>): real
    requires series != []
  {
    if |series| == 1 then series[0]
    else
      var p := Peak(series[..|series|-1]);
      if series[|series|-1] > p then series[|series|-1] else p
  }

  function Worst(series: seq<real>): real
    requires series != []
  {
    if |series| == 1 then 0.0
    else
      var dd := Worst(series[..|series|-1]);
      var now := Drawdown(Peak(series), series[|series|-1]);
      if now > dd then now else dd
  }

  lemma {:induction false} PeakIsMax(series: seq<real>)
    requires series != []
    ensures forall i | 0 <= i < |series| :: series[i] <= Peak(series)
    ensures exists i :: 0 <= i < |series| && series[i] == Peak(series)
  {
    var n := |series| - 1;
    if n > 0 {
      var t := series[..n];
      PeakIsMax(t);
      var i :| 0 <= i < |t| && t[i] == Peak(t);
      assert series[i] == t[i];
      assert forall k | 0 <= k < n :: series[k] == t[k];
      assert series[n] > Peak(t) ==> series[n] == Peak(series);
    } else {
      assert series[0] == Peak(series);
    }
  }

  /** The worst drop bounds every peak-then-trough pair, and one pair attains it. */
  ghost predicate IsMaxDrawdown(series: seq<real>, dd: real) {
    && (forall i, j | 0 <= i <= j < |series| && series[i] > 0.0 :: Drawdown(series[i], series[j]) <= dd)
    && (exists i, j :: 0 <= i <= j < |series| && Drawdown(series[i], series[j]) == dd)
  }

  lemma DrawdownGrows(all: seq<real>, dd: real)
    requires |all| > 1 && IsMaxDrawdown(all[..|all|-1], dd) && all[|all|-1] >= 0.0
    ensures var now := Drawdown(Peak(all), all[|all|-1]); IsMaxDrawdown(all, if now > dd then now else dd)
  {
    var n := |all| - 1;
    var t, e, peak := all[..n], all[n], Peak(all);
    PeakIsMax(all);
    var next := if Drawdown(peak, e) > dd then Drawdown(peak, e) else dd;
    forall i, j | 0 <= i <= j < |all| && all[i] > 0.0 ensures Drawdown(all[i], all[j]) <= next {
      if j == n {
        DrawdownGrowsWithPeak(all[i], peak, e);
      } else {
        assert all[i] == t[i] && all[j] == t[j];
      }
    }
    if Drawdown(peak, e) > dd {
      var i :| 0 <= i < |all| && all[i] == peak;
      assert Drawdown(all[i], all[n]) == next;
    } else {
      var i, j :| 0 <= i <= j < |t| && Drawdown(t[i], t[j]) == dd;
      assert all[i] == t[i] && all[j] == t[j];
    }
  }

  ghost predicate AllNonNegative(series: seq<real>) {
    forall k | 0 <= k < |series| :: series[k] >= 0.0
  }

  lemma NoDrawdownYet(x: real)
    ensures IsMaxDrawdown([x], 0.0)
  {
    var series := [x];
    assert Drawdown(series[0], series[0]) == 0.0;
  }

  lemma {:induction false} WorstIsMaxDrawdown(series: seq<real>)
    requires series != [] && series[0] > 0.0 && AllNonNegative(series)
    ensures IsMaxDrawdown(series, Worst(series))
  {
    if |series| > 1 {
      var t := series[..|series|-1];
      WorstIsMaxDrawdown(t);
      DrawdownGrows(series, Worst(t));
    } else {
      assert series == [series[0]];
      NoDrawdownYet(series[0]);
    }
  }

  lemma {:induction false} TracksSeries(cfg: Config, candles: seq<Candle>, n: nat)
    requires ValidConfig(cfg) && candles != [] && n <= |candles|
    ensures Simulate(cfg, candles, n).hwm == Peak(Series(cfg, candles, n))
    ensures Simulate(cfg, candles, n).maxDrawdownPct == Worst(Series(cfg, candles, n))
  {
    if n > 0 {
      TracksSeries(cfg, candles, n - 1);
      var s, t := Simulate(cfg, candles, n - 1), Series(cfg, candles, n - 1);
      StepTracks(cfg, s, candles[n-1]);
      var e := Simulate(cfg, candles, n).curve[n-1];
      OneMorePoint(t, e);
      assert Series(cfg, candles, n) == t + [e];
    }
  }

  lemma OneMorePoint(t: seq<real>, e: real)
    requires t != []
    ensures Peak(t + [e]) == if e > Peak(t) then e else Peak(t)
    ensures var now := Drawdown(Peak(t + [e]), e); Worst(t + [e]) == if now > Worst(t) then now else Worst(t)
  {
    assert (t + [e])[..|t|] == t;
  }

  lemma StepTracks(cfg: Config, s: State, c: Candle)
    requires ValidConfig(cfg)
    ensures var r := Step(cfg, s, c);
      var e := r.curve[|s.curve|];
      && r.curve == s.curve + [e] && r.hwm == (if e > s.hwm then e else s.hwm)
      && var now := Drawdown(r.hwm, e); r.maxDrawdownPct == if now > s.maxDrawdownPct then now else s.maxDrawdownPct
  {
  }

  /** In amounts: no later point is more than dd percent below an earlier one, and one is by exactly that. */
  ghost predicate WorstDrop(series: seq<real>, dd: real) {
    && (forall i, j | 0 <= i <= j < |series| && series[i] > 0.0 ::
          Times(100.0, series[i] - series[j]) <= Times(dd, series[i]))
    && (exists i, j :: 0 <= i <= j < |series| && series[i] > 0.0
          && Times(100.0, series[i] - series[j]) == Times(dd, series[i]))
  }

  lemma DropInPercent(high: real, e: real)
    requires high > 0.0
    ensures Times(Drawdown(high, e), high) == Times(100.0, high - e)
  {
    QuotientTimes(high - e, high);
    assert (((high - e) / high) * 100.0) * high == 100.0 * (((high - e) / high) * high);
  }

  lemma MoreTimes(a: real, b: real, n: real)
    requires n > 0.0 && a <= b
    ensures Times(a, n) <= Times(b, n)
  {
  }

  lemma DropsInPercent(series: seq<real>, dd: real)
    requires series != [] && series[0] > 0.0 && IsMaxDrawdown(series, dd) && AllNonNegative(series)
    ensures WorstDrop(series, dd)
  {
    hide Drawdown;
    forall i, j | 0 <= i <= j < |series| && series[i] > 0.0
      ensures Times(100.0, series[i] - series[j]) <= Times(dd, series[i])
    {
      DropInPercent(series[i], series[j]);
      MoreTimes(Drawdown(series[i], series[j]), dd, series[i]);
    }
    var i, j :| 0 <= i <= j < |series| && Drawdown(series[i], series[j]) == dd;
    if series[i] > 0.0 {
      DropInPercent(series[i], series[j]);
    } else {
      NoPeakNoDrop(series[i], series[j]);
      SamePoint(series[0]);
    }
  }

  lemma NoPeakNoDrop(high: real, e: real)
    requires high <= 0.0
    ensures Drawdown(high, e) == 0.0
  {
  }

  lemma SamePoint(x: real)
    ensures Times(100.0, x - x) == Times(0.0, x)
  {
  }

  /** While equity stays non-negative the reported drawdown is the maximum over all pairs of a
      peak and a later trough, the starting equity included, in percent of the peak. */
  lemma MaxDrawdownOverPairs(cfg: Config, candles: seq<Candle>, n: nat)
    requires ValidConfig(cfg) && candles != [] && n <= |candles| && cfg.investment > 0.0
    requires forall k | 0 <= k < n :: Simulate(cfg, candles, n).curve[k] >= 0.0
    ensures IsMaxDrawdown(Series(cfg, candles, n), Simulate(cfg, candles, n).maxDrawdownPct)
    ensures WorstDrop(Series(cfg, candles, n), Simulate(cfg, candles, n).maxDrawdownPct)
  {
    hide Drawdown;
    var series := Series(cfg, candles, n);
    TracksSeries(cfg, candles, n);
    assert forall k | 0 < k < |series| :: series[k] == Simulate(cfg, candles, n).curve[k-1];
    WorstIsMaxDrawdown(series);
    DropsInPercent(series, Worst(series));
  }

  // ----- a grid never books a gross loss

  ghost predicate KeepsPrices(a: seq<SimLevel>, b: seq<SimLevel>) {
    |a| == |b| && forall k | 0 <= k < |a| :: a[k].price == b[k].price && a[k].side == b[k].side
  }

  ghost predicate Ascends(levels: seq<SimLevel>) {
    forall k | 0 < k < |levels| :: levels[k-1].price <= levels[k].price
  }

  lemma WalkOneNoLoss(cfg: Config, c: Candle, band: Band, w: Walk, k: nat)
    requires k < |w.levels| && ValidConfig(cfg) && Ascends(w.levels)
    ensures KeepsPrices(w.levels, WalkOne(cfg, c, band, w, k).levels)
    ensures WalkOne(cfg, c, band, w, k).book.grossLoss == w.book.grossLoss
  {
    if k > 0 {
      NonNegative(w.levels[k].price - w.levels[k-1].price, cfg.quantity);
    }
  }

  lemma AscendsKept(a: seq<SimLevel>, b: seq<SimLevel>)
    requires Ascends(a) && KeepsPrices(a, b)
    ensures Ascends(b)
  {
    forall k | 0 < k < |b| ensures b[k-1].price <= b[k].price {
      assert a[k-1].price <= a[k].price;
    }
  }

  lemma {:induction false} WalkNoLoss(cfg: Config, c: Candle, band: Band, w: Walk, n: nat)
    requires n <= |w.levels| && ValidConfig(cfg) && Ascends(w.levels)
    ensures Ascends(WalkLevels(cfg, c, band, w, n).levels)
    ensures WalkLevels(cfg, c, band, w, n).book.grossLoss == w.book.grossLoss
  {
    if n > 0 {
      WalkNoLoss(cfg, c, band, w, n - 1);
      var v := WalkLevels(cfg, c, band, w, n - 1);
      WalkOneNoLoss(cfg, c, band, v, n - 1);
      AscendsKept(v.levels, WalkOne(cfg, c, band, v, n - 1).levels);
    }
  }

  lemma NonNegative(a: real, b: real)
    requires a >= 0.0 && b >= 0.0
    ensures Times(a, b) >= 0.0
  {
  }

  /** Rounding is monotone and moves an amount by at most half a unit. */
  lemma RoundNear(x: real, y: real)
    ensures Abs(Round2(x) - x) <= 0.005 && Abs(Round4(x) - x) <= 0.00005
    ensures x <= y ==> Round2(x) <= Round2(y) && Round4(x) <= Round4(y)
  {
    var f, g := (x * 100.0 + 0.5).Floor, (y * 100.0 + 0.5).Floor;
    var h, k := (x * 10000.0 + 0.5).Floor, (y * 10000.0 + 0.5).Floor;
    assert x <= y ==> f <= g && h <= k;
  }

  lemma LevelsAscend(cfg: Config, k: nat)
    requires ValidConfig(cfg) && cfg.lower <= cfg.upper
    ensures LevelPrice(cfg, k) <= LevelPrice(cfg, k + 1)
  {
    QuotientNonNegative(cfg.upper - cfg.lower, cfg.numGrids as real);
    OneMoreStep(k, Spacing(cfg));
    RoundNear(cfg.lower + Times(k as real, Spacing(cfg)), cfg.lower + Times((k + 1) as real, Spacing(cfg)));
  }

  lemma OneMoreStep(k: nat, step: real)
    requires step >= 0.0
    ensures Times(k as real, step) <= Times((k + 1) as real, step)
  {
  }

  lemma {:induction false} ChargeKeepsLoss(cfg: Config, b: Book, close: real, rates: seq<real>)
    ensures ChargeAll(cfg, b, close, rates).grossLoss == b.grossLoss
  {
    if rates != [] {
      ChargeKeepsLoss(cfg, b, close, rates[..|rates|-1]);
    }
  }

  /** On a grid with lower <= upper the simulation never books a gross loss, so the reported profit
      factor is 0 or infinite. */
  lemma {:induction false} NoGrossLoss(cfg: Config, candles: seq<Candle>, n: nat)
    requires ValidConfig(cfg) && candles != [] && n <= |candles| && cfg.lower <= cfg.upper
    ensures Simulate(cfg, candles, n).book.grossLoss == 0.0 && Ascends(Simulate(cfg, candles, n).levels)
  {
    if n == 0 {
      forall k | 0 < k < cfg.numGrids + 1
        ensures Simulate(cfg, candles, n).levels[k-1].price <= Simulate(cfg, candles, n).levels[k].price
      {
        LevelsAscend(cfg, k - 1);
      }
    } else {
      NoGrossLoss(cfg, candles, n - 1);
      var s, c := Simulate(cfg, candles, n - 1), candles[n-1];
      var band := BandOf(Prices(s.levels), FilledFlags(s.levels), s.prevClose, cfg.windowSize);
      var w := Walk(s.levels, s.book, s.missed);
      WalkNoLoss(cfg, c, band, w, |s.levels|);
      var after := WalkLevels(cfg, c, band, w, |s.levels|);
      ChargeKeepsLoss(cfg, after.book, c.close, Due(cfg.funding, s.clock, c.time));
    }
  }

  // ----- the simulation in place

  /** One candle's pass over the levels. */
  method WalkInPlace(cfg: Config, c: Candle, band: Band, levels: array<SimLevel>, book: Book, missed: nat)
    returns (after: Book, nowMissed: nat)
    requires ValidConfig(cfg)
    modifies levels
    ensures Walk(levels[..], after, nowMissed)
         == WalkLevels(cfg, c, band, Walk(old(levels[..]), book, missed), levels.Length)
  {
    after, nowMissed := book, missed;
    ghost var start := Walk(levels[..], book, missed);
    for k := 0 to levels.Length
      invariant Walk(levels[..], after, nowMissed) == WalkLevels(cfg, c, band, start, k)
    {
      ghost var w := Walk(levels[..], after, nowMissed);
      var level := levels[k];
      var hit := if level.side == Buy then c.low <= level.price else c.high >= level.price;
      if !level.isFilled && hit {
        if !Accepts(band, level.price) {
          nowMissed := nowMissed + 1;
        } else {
          if level.side == Buy {
            after := Opened(after, level.price, cfg.quantity);
          } else {
            if k >= 1 {
              after := Realized(after, level.price, levels[k-1].price, cfg.quantity, cfg.makerRate);
            }
            after := Reduced(after, cfg.quantity);
          }
          levels[k] := level.(isFilled := true);
          var counter := if level.side == Buy then k + 1 else k - 1;
          if 0 <= counter < levels.Length {
            levels[counter] := levels[counter].(isFilled := false);
          }
          assert levels[..] == FillLevels(w.levels, k);
        }
      }
    }
  }

  lemma ChargeOne(cfg: Config, b: Book, close: real, rates: seq<real>, rate: real)
    ensures ChargeAll(cfg, b, close, rates + [rate])
      == Charged(ChargeAll(cfg, b, close, rates), Payment(cfg, ChargeAll(cfg, b, close, rates), close, rate))
  {
    assert (rates + [rate])[..|rates|] == rates;
  }

  /** Charge every boundary that the candle has reached. */
  method ChargeConstant(cfg: Config, c: Candle, book: Book, first: int, rate: real) returns (after: Book, next: int)
    ensures after == ChargeAll(cfg, book, c.close, seq(Crossed(c.time, first), _ => rate))
    ensures next == first + Crossed(c.time, first) * FUNDING_INTERVAL_SEC
  {
    after, next := book, first;
    ghost var n: nat := 0;
    while c.time >= next
      invariant next == first + n * FUNDING_INTERVAL_SEC
      invariant n + Crossed(c.time, next) == Crossed(c.time, first)
      invariant after == ChargeAll(cfg, book, c.close, seq(n, _ => rate))
      decreases c.time - next
    {
      ChargeOne(cfg, book, c.close, seq(n, _ => rate), rate);
      assert seq(n, _ => rate) + [rate] == seq(n + 1, _ => rate);
      after := Charged(after, Payment(cfg, after, c.close, rate));
      next := next + FUNDING_INTERVAL_SEC;
      n := n + 1;
    }
  }

  /** Charge every point of the series that the candle has reached. */
  method ChargeSeries(cfg: Config, c: Candle, book: Book, first: nat, points: seq<RatePoint>) returns (after: Book, idx: nat)
    ensures after == ChargeAll(cfg, book, c.close, RatesUpTo(points, first, c.time))
    ensures idx == Later(points, first, c.time)
  {
    after, idx := book, first;
    ghost var done: seq<real> := [];
    while idx < |points| && points[idx].time <= c.time
      invariant Later(points, idx, c.time) == Later(points, first, c.time)
      invariant done + RatesUpTo(points, idx, c.time) == RatesUpTo(points, first, c.time)
      invariant after == ChargeAll(cfg, book, c.close, done)
      decreases |points| - idx
    {
      var rate := points[idx].rate;
      ChargeOne(cfg, book, c.close, done, rate);
      assert done + ([rate] + RatesUpTo(points, idx + 1, c.time)) == done + [rate] + RatesUpTo(points, idx + 1, c.time);
      after := Charged(after, Payment(cfg, after, c.close, rate));
      done := done + [rate];
      idx := idx + 1;
    }
    assert done + [] == done;
  }

  /** Funding on the open position, by the series when there is one. */
  method ChargeFunding(cfg: Config, c: Candle, book: Book, clock: Clock) returns (after: Book, clock': Clock)
    ensures after == ChargeAll(cfg, book, c.close, Due(cfg.funding, clock, c.time))
    ensures clock' == ClockAfter(cfg.funding, clock, c.time)
  {
    after, clock' := book, clock;
    match cfg.funding {
      case Historical(points) =>
        var idx;
        after, idx := ChargeSeries(cfg, c, book, clock.idx, points);
        clock' := clock.(idx := idx);
      case Constant(rate) =>
        if rate != 0.0 {
          var next;
          after, next := ChargeConstant(cfg, c, book, clock.next, rate);
          clock' := clock.(next := next);
        }
    }
  }

  /** One candle: window, fills, funding, mark to market, drawdown. */
  method StepInPlace(
    cfg: Config, c: Candle, levels: array<SimLevel>, book: Book, missed: nat, clock: Clock,
    prevClose: real, hwm: real, maxDrawdownPct: real, curve: seq<real>)
    returns (book': Book, missed': nat, clock': Clock, hwm': real, maxDrawdownPct': real, curve': seq<real>)
    requires ValidConfig(cfg)
    modifies levels
    ensures State(levels[..], book', missed', clock', c.close, hwm', maxDrawdownPct', curve')
         == Step(cfg, State(old(levels[..]), book, missed, clock, prevClose, hwm, maxDrawdownPct, curve), c)
  {
    var band := BandOf(Prices(levels[..]), FilledFlags(levels[..]), prevClose, cfg.windowSize);
    book', missed' := WalkInPlace(cfg, c, band, levels, book, missed);
    book', clock' := ChargeFunding(cfg, c, book', clock);
    var currentEquity := MarkToMarket(book', c.close);
    hwm' := if currentEquity > hwm then currentEquity else hwm;
    var dd := Drawdown(hwm', currentEquity);
    maxDrawdownPct' := if dd > maxDrawdownPct then dd else maxDrawdownPct;
    curve' := curve + [currentEquity];
  }

  // ----- the report

  datatype Point = Point(time: int, equity: real)

  /** The reported totals; the factor is None where the report shows infinity. */
  datatype Report = Report(
    totalProfit: real, totalFees: real, fundingUsdt: real, slippageUsdt: real, missedFillsWindow: nat,
    netProfit: real, maxDrawdownPct: real, roundTrips: nat, avgProfitPerTrip: real, equityCurve: seq<Point>,
    daysInMarket: int, profitFactor: Option<real>, candlesProcessed: nat)

  const NO_CANDLES: Report := Report(0.0, 0.0, 0.0, 0.0, 0, 0.0, 0.0, 0, 0.0, [], 0, Some(0.0), 0)

  function DaysInMarket(firstTime: int, lastTime: int): int {
    (Max(1.0, Over((lastTime - firstTime) as real, 86400.0)) + 0.5).Floor
  }

  function NetProfit(b: Book): real {
    b.grossProfit - b.grossLoss - b.totalFees - b.fundingPaid - b.slippageCost
  }

  function ReportOf(s: State, candles: seq<Candle>): Report
    requires |s.curve| == |candles| > 0
  {
    var b := s.book;
    Report(Round2(b.grossProfit), Round2(b.totalFees), Round4(b.fundingPaid), Round4(b.slippageCost), s.missed,
           Round2(NetProfit(b)), Round2(s.maxDrawdownPct), b.roundTrips,
           if b.roundTrips > 0 then Round2(NetProfit(b) / (b.roundTrips as real)) else 0.0,
           seq(|candles|, k requires 0 <= k < |candles| => Point(candles[k].time, s.curve[k])),
           DaysInMarket(candles[0].time, candles[|candles|-1].time),
           if b.grossLoss > 0.0 then Some(Round2(b.grossProfit / b.grossLoss))
           else if b.grossProfit > 0.0 then None else Some(0.0),
           |candles|)
  }

  ghost predicate ToTheCent(shown: real, amount: real) {
    Abs(shown - amount) <= 0.005
  }

  lemma PartsRound(total: real, parts: real)
    requires parts > 0.0
    ensures Abs(Times(Round2(total / parts), parts) - total) <= Times(0.005, parts)
  {
    var q := total / parts;
    QuotientTimes(total, parts);
    RoundNear(q, q);
    assert Times(Round2(q) - q, parts) == Times(Round2(q), parts) - total;
    MoreTimes(-0.005, Round2(q) - q, parts);
    MoreTimes(Round2(q) - q, 0.005, parts);
  }

  /** What the report shows: the books to the cent, the average trip times the trips giving back the net
      and the factor times the gross loss giving back the gross profit within half a cent for each, one
      point for each candle, and the days the run spans, at least one. */
  lemma ReportShows(s: State, candles: seq<Candle>)
    requires |s.curve| == |candles| > 0
    ensures var r, b := ReportOf(s, candles), s.book;
      && ToTheCent(r.totalProfit, b.grossProfit) && ToTheCent(r.totalFees, b.totalFees)
      && ToTheCent(r.fundingUsdt, b.fundingPaid) && ToTheCent(r.slippageUsdt, b.slippageCost)
      && ToTheCent(r.netProfit, b.grossProfit - b.grossLoss - b.totalFees - b.fundingPaid - b.slippageCost)
      && ToTheCent(r.maxDrawdownPct, s.maxDrawdownPct)
      && r.missedFillsWindow == s.missed && r.roundTrips == b.roundTrips
      && (if b.roundTrips == 0 then r.avgProfitPerTrip == 0.0
          else Abs(Times(r.avgProfitPerTrip, b.roundTrips as real) - NetProfit(b)) <= Times(0.005, b.roundTrips as real))
      && (b.grossLoss > 0.0 ==>
            r.profitFactor.Some?
            && Abs(Times(r.profitFactor.value, b.grossLoss) - b.grossProfit) <= Times(0.005, b.grossLoss))
      && (b.grossLoss <= 0.0 ==> r.profitFactor == if b.grossProfit > 0.0 then None else Some(0.0))
    ensures var r := ReportOf(s, candles);
      && |r.equityCurve| == |candles|
      && forall k | 0 <= k < |candles| :: r.equityCurve[k] == Point(candles[k].time, s.curve[k])
    ensures var r, span := ReportOf(s, candles), candles[|candles|-1].time - candles[0].time;
      && r.daysInMarket >= 1
      && (span < 86400 ==> r.daysInMarket == 1)
      && (span >= 86400 ==> -43200 <= r.daysInMarket * 86400 - span <= 43200)
  {
    var b := s.book;
    var r := ReportOf(s, candles);
    RoundNear(b.grossProfit, b.totalFees);
    RoundNear(b.totalFees, b.fundingPaid);
    RoundNear(b.fundingPaid, b.slippageCost);
    RoundNear(b.slippageCost, NetProfit(b));
    RoundNear(NetProfit(b), s.maxDrawdownPct);
    RoundNear(s.maxDrawdownPct, 0.0);
    if b.roundTrips > 0 {
      PartsRound(NetProfit(b), b.roundTrips as real);
    }
    if b.grossLoss > 0.0 {
      PartsRound(b.grossProfit, b.grossLoss);
    }
    DaysSpan(candles[0].time, candles[|candles|-1].time);
  }

  lemma DaysSpan(first: int, last: int)
    ensures var days, span := DaysInMarket(first, last), last - first;
      && days >= 1 && (span < 86400 ==> days == 1)
      && (span >= 86400 ==> -43200 <= days * 86400 - span <= 43200)
  {
    var span, days := last - first, DaysInMarket(first, last);
    var q := Over(span as real, 86400.0);
    Quotient(span as real, 86400.0);
    assert q >= 1.0 <==> span >= 86400;
    var x := Max(1.0, q) + 0.5;
    assert x.Floor as real <= x < x.Floor as real + 1.0;
    if span >= 86400 {
      assert (days * 86400) as real == days as real * 86400.0;
    }
  }

  ghost predicate ReportFits(cfg: Config, s: State, candles: seq<Candle>, r: Report)
    requires |s.curve| == |candles| > 0
  {
    && r == ReportOf(s, candles)
    && r.netProfit == Round2(s.book.equity - cfg.investment)
    && (cfg.lower <= cfg.upper ==> r.profitFactor == if s.book.grossProfit > 0.0 then None else Some(0.0))
  }

  lemma ReportMeaning(cfg: Config, s: State, candles: seq<Candle>)
    requires |s.curve| == |candles| > 0
    requires Balanced(s.book, cfg.investment) && (cfg.lower <= cfg.upper ==> s.book.grossLoss == 0.0)
    ensures ReportFits(cfg, s, candles, ReportOf(s, candles))
  {
    assert NetProfit(s.book) == s.book.equity - cfg.investment;
  }

  lemma FinalState(cfg: Config, candles: seq<Candle>)
    requires ValidConfig(cfg) && candles != []
    ensures Balanced(Simulate(cfg, candles, |candles|).book, cfg.investment)
    ensures cfg.lower <= cfg.upper ==> Simulate(cfg, candles, |candles|).book.grossLoss == 0.0
  {
    EquityIdentity(cfg, candles, |candles|);
    if cfg.lower <= cfg.upper {
      NoGrossLoss(cfg, candles, |candles|);
    }
  }

  /** The reported net profit is the equity gained, and the profit factor 0 or infinite on a grid with
      lower <= upper. */
  lemma FinalReport(cfg: Config, candles: seq<Candle>, s: State)
    requires ValidConfig(cfg) && candles != [] && s == Simulate(cfg, candles, |candles|)
    ensures ReportFits(cfg, s, candles, ReportOf(s, candles))
  {
    FinalState(cfg, candles);
    ReportMeaning(cfg, s, candles);
  }

  method RunBacktest(cfg: Config, candles: seq<Candle>) returns (r: Report)
    requires ValidConfig(cfg)
    ensures r.candlesProcessed == |r.equityCurve| == |candles|
    ensures candles == [] ==> r == NO_CANDLES
    ensures candles != [] ==> ReportFits(cfg, Simulate(cfg, candles, |candles|), candles, r)
  {
    if candles == [] {
      return NO_CANDLES;
    }
    var firstPrice := candles[0].close;
    var initial := InitialLevels(cfg, firstPrice, cfg.numGrids + 1);
    var levels := new SimLevel[cfg.numGrids + 1](k requires 0 <= k < cfg.numGrids + 1 => initial[k]);
    assert levels[..] == initial;
    var book := InitialBook(cfg, initial, firstPrice);
    var missed, clock, prevClose := 0, FirstClock(cfg.funding, candles[0].time), candles[0].open;
    var hwm, maxDrawdownPct := cfg.investment, 0.0;
    var curve: seq<real> := [];
    for i := 0 to |candles|
      invariant State(levels[..], book, missed, clock, prevClose, hwm, maxDrawdownPct, curve)
             == Simulate(cfg, candles, i)
    {
      book, missed, clock, hwm, maxDrawdownPct, curve :=
        StepInPlace(cfg, candles[i], levels, book, missed, clock, prevClose, hwm, maxDrawdownPct, curve);
      prevClose := candles[i].close;
    }
    FinalReport(cfg, candles, Simulate(cfg, candles, |candles|));
    r := ReportOf(State(levels[..], book, missed, clock, prevClose, hwm, maxDrawdownPct, curve), candles);
  }
}
