/**
 Whole-run safety of a LONG bot: every order the engine can send, from any of its call sites and
 in any interleaving, against an exchange that fills what it likes when it likes.
 */
module LongSafety {
  import opened GridLevels
  import opened Numbers
  import opened Exchange

  /** The call sites that create orders. Bootstrap, counter-orders, re-placement, rotation and
      backfill all go through placeGridOrder. */
  datatype Call =
    | GridOrder(side: Side, quantity: real, price: real)
    | InitialPurchase(size: real, price: real)
    | FlattenInitialPurchase(size: real, price: real)
    | RangeAutoBuy(size: real, price: real)
    | DcaBuy(size: real, price: real)
    | CloseLimit(positionSize: real, price: real)
    | CloseMarket(positionSize: real, price: real)

  /** The order a call sends. Closing orders take their side from the position as it was read. */
  function OrderOf(c: Call, direction: Direction, id: nat): Order {
    match c
    case GridOrder(side, quantity, price) => Order(id, side, quantity, price, direction == Long && side == Sell)
    case InitialPurchase(size, price) => Order(id, Buy, size, price, false)
    case FlattenInitialPurchase(size, price) => Order(id, Sell, size, price, true)
    case RangeAutoBuy(size, price) => Order(id, Buy, size, price, false)
    case DcaBuy(size, price) => Order(id, Buy, size, price, false)
    case CloseLimit(p, price) => Order(id, if p > 0.0 then Sell else Buy, Abs(p), price, true)
    case CloseMarket(p, price) => Order(id, if p > 0.0 then Sell else Buy, Abs(p), price, true)
  }

  /** Good-till-cancelled orders rest; immediate-or-cancel ones do not. */
  predicate Rests(c: Call) {
    c.GridOrder? || c.CloseLimit?
  }

  datatype Event =
    | Send(call: Call, id: nat, accepted: bool, filled: real)
    | Fill(k: nat, amount: real)
    | Gone(k: nat)

  datatype State = State(position: real, live: seq<Order>, bought: real, sold: real)

  /** An order trades up to its size; the exchange clips a reduce-only one. */
  function Trade(s: State, o: Order, amount: real): State {
    if 0.0 < amount <= o.size then
      var a := Fillable(s.position, o, amount);
      if o.side == Buy then s.(position := s.position + a, bought := s.bought + a)
      else s.(position := s.position - a, sold := s.sold + a)
    else s
  }

  function Traded(s: State, o: Order, amount: real): real {
    if 0.0 < amount <= o.size then Fillable(s.position, o, amount) else 0.0
  }

  function Step(s: State, e: Event, direction: Direction): State {
    match e
    case Send(call, id, accepted, filled) =>
      if !accepted then s
      else
        var o := OrderOf(call, direction, id);
        var after := Trade(s, o, filled);
        if Rests(call) then after.(live := s.live + [o.(size := o.size - Traded(s, o, filled))]) else after
    case Fill(k, amount) =>
      if k >= |s.live| then s
      else
        var o := s.live[k];
        Trade(s, o, amount).(live := s.live[k := o.(size := o.size - Traded(s, o, amount))])
    case Gone(k) => if k >= |s.live| then s else s.(live := s.live[..k] + s.live[k+1..])
  }

  function Run(s: State, events: seq<Event>, direction: Direction): State {
    if events == [] then s else Step(Run(s, events[..|events|-1], direction), events[|events|-1], direction)
  }

  predicate CannotShort(o: Order) {
    o.side == Sell ==> o.reduceOnly
  }

  ghost predicate NoneCanShort(live: seq<Order>) {
    forall k | 0 <= k < |live| :: CannotShort(live[k])
  }

  /** Not short, and no live sell that could make it so. */
  ghost predicate Safe(s: State) {
    s.position >= 0.0 && NoneCanShort(s.live)
  }

  /** The only orders of a LONG bot that are not reduce-only are buys. */
  lemma LongOrdersCannotShort(c: Call, id: nat)
    ensures CannotShort(OrderOf(c, Long, id))
  {
  }

  lemma TradeSafe(s: State, o: Order, amount: real)
    requires s.position >= 0.0 && CannotShort(o)
    ensures Trade(s, o, amount).position >= 0.0 && Trade(s, o, amount).live == s.live
  {
  }

  lemma StepSafe(s: State, e: Event)
    requires Safe(s)
    ensures Safe(Step(s, e, Long))
  {
    match e
    case Send(call, id, accepted, filled) =>
      var o := OrderOf(call, Long, id);
      LongOrdersCannotShort(call, id);
      TradeSafe(s, o, filled);
      assert NoneCanShort(s.live + [o.(size := o.size - Traded(s, o, filled))]);
    case Fill(k, amount) =>
      if k < |s.live| {
        var o := s.live[k];
        TradeSafe(s, o, amount);
        assert NoneCanShort(s.live[k := o.(size := o.size - Traded(s, o, amount))]);
      }
    case Gone(k) =>
      if k < |s.live| {
        assert NoneCanShort(s.live[..k] + s.live[k+1..]);
      }
  }

  /** No run of a LONG bot makes the position negative at any moment, whatever is sent and filled. */
  lemma {:induction false} LongNeverShort(s: State, events: seq<Event>, n: nat)
    requires Safe(s) && n <= |events|
    ensures Safe(Run(s, events[..n], Long))
    decreases n
  {
    if n > 0 {
      LongNeverShort(s, events, n - 1);
      assert events[..n][..n-1] == events[..n-1];
      StepSafe(Run(s, events[..n-1], Long), events[n-1]);
    }
  }

  lemma TradeBalances(s: State, o: Order, amount: real)
    ensures var t := Trade(s, o, amount); t.position - t.bought + t.sold == s.position - s.bought + s.sold
  {
  }

  /** The position is what was held plus what was bought less what was sold, in any run. */
  lemma {:induction false} RunBalances(s: State, events: seq<Event>, direction: Direction)
    ensures var t := Run(s, events, direction); t.position - t.bought + t.sold == s.position - s.bought + s.sold
  {
    if events != [] {
      RunBalances(s, events[..|events|-1], direction);
      var before, e := Run(s, events[..|events|-1], direction), events[|events|-1];
      match e
      case Send(call, id, accepted, filled) => TradeBalances(before, OrderOf(call, direction, id), filled);
      case Fill(k, amount) => if k < |before.live| { TradeBalances(before, before.live[k], amount); }
      case Gone(k) =>
    }
  }

  /** A LONG bot never sells more than it held and bought. */
  lemma SoldWasBought(s: State, events: seq<Event>, n: nat)
    requires Safe(s) && s.bought == 0.0 && s.sold == 0.0 && n <= |events|
    ensures var t := Run(s, events[..n], Long); t.sold <= s.position + t.bought
  {
    LongNeverShort(s, events, n);
    RunBalances(s, events[..n], Long);
  }

  // ----- what the calls are for

  /** A call that goes through and fills for its whole size. */
  ghost predicate FilledWhole(s: State, c: Call, id: nat, d: Direction, after: State) {
    after == Step(s, Send(c, id, true, OrderOf(c, d, id).size), d)
  }

  /** Each call does what it is for: a purchase adds its size, the flattening of a purchase takes it out
      again, a closing order for the position as it is leaves nothing, and a grid order trades its
      quantity, except that a LONG bot's sell stops at zero. */
  lemma CallsDoTheirJob(s: State, c: Call, id: nat, d: Direction, after: State)
    requires FilledWhole(s, c, id, d, after)
    ensures (c.InitialPurchase? || c.RangeAutoBuy? || c.DcaBuy?) && c.size > 0.0 ==> after.position == s.position + c.size
    ensures c.FlattenInitialPurchase? && c.size > 0.0 && s.position >= 0.0 ==>
      after.position == Max(0.0, s.position - c.size)
    ensures (c.CloseLimit? || c.CloseMarket?) && c.positionSize == s.position != 0.0 ==> after.position == 0.0
    ensures c.GridOrder? && c.quantity > 0.0 && c.side == Buy ==> after.position == s.position + c.quantity
    ensures c.GridOrder? && c.quantity > 0.0 && c.side == Sell && (d == Short || s.position >= 0.0) ==>
      after.position == if d == Short then s.position - c.quantity else Max(0.0, s.position - c.quantity)
  {
  }

  /** An order that does not fill stays live with its size and price when it is a grid order or a
      closing limit order, and leaves nothing behind otherwise. */
  lemma UnfilledRestsExactlyWhen(s: State, c: Call, id: nat, d: Direction)
    ensures var after := Step(s, Send(c, id, true, 0.0), d);
      && after.position == s.position
      && (c.GridOrder? ==>
            && |after.live| == |s.live| + 1 && after.live[|s.live|].id == id
            && after.live[|s.live|].side == c.side && after.live[|s.live|].size == c.quantity
            && after.live[|s.live|].price == c.price)
      && (c.CloseLimit? ==>
            && |after.live| == |s.live| + 1 && after.live[|s.live|].id == id
            && after.live[|s.live|].size == Abs(c.positionSize) && after.live[|s.live|].price == c.price)
      && (!c.GridOrder? && !c.CloseLimit? ==> after.live == s.live)
  {
  }

  /** An order that is gone is out of the live ones, and nothing else happens. */
  lemma GoneLeaves(s: State, k: nat, d: Direction)
    requires k < |s.live|
    ensures var after := Step(s, Gone(k), d);
      && after.position == s.position && |after.live| == |s.live| - 1
      && forall j | 0 <= j < |after.live| :: after.live[j] == s.live[if j < k then j else j + 1]
  {
  }

  /** What fills of an order as it is sent, or later, is what the position moves, and leaves the order. */
  lemma SentPartly(s: State, c: Call, id: nat, filled: real, d: Direction)
    requires c.GridOrder? || c.CloseLimit?
    ensures var o, after := OrderOf(c, d, id), Step(s, Send(c, id, true, filled), d);
      && after.live == s.live + [o.(size := after.live[|s.live|].size)]
      && after.position - s.position
           == (if o.side == Buy then o.size - after.live[|s.live|].size else after.live[|s.live|].size - o.size)
  {
  }

  lemma FillLeavesOrder(s: State, k: nat, amount: real, d: Direction)
    requires k < |s.live|
    ensures var o, after := s.live[k], Step(s, Fill(k, amount), d);
      && |after.live| == |s.live| && after.live[k] == o.(size := after.live[k].size)
      && after.position - s.position == if o.side == Buy then o.size - after.live[k].size else after.live[k].size - o.size
  {
  }

  // ----- without reduce-only buys: a SHORT grid

  function BuySize(live: seq<Order>): real {
    if live == [] then 0.0
    else BuySize(live[..|live|-1]) + (if live[|live|-1].side == Buy then live[|live|-1].size else 0.0)
  }

  /** Resting orders of a SHORT grid: none of them reduce-only. */
  ghost predicate Plain(live: seq<Order>) {
    forall k | 0 <= k < |live| :: live[k].size >= 0.0 && !live[k].reduceOnly
  }

  lemma {:induction false} BuySizeMoves(live: seq<Order>, k: nat, o: Order)
    requires k < |live| && o.side == live[k].side
    ensures BuySize(live[k := o]) == BuySize(live) + (if o.side == Buy then o.size - live[k].size else 0.0)
  {
    var n := |live| - 1;
    if k < n {
      BuySizeMoves(live[..n], k, o);
      assert live[k := o][..n] == live[..n][k := o];
    } else {
      assert live[k := o][..n] == live[..n];
    }
  }

  lemma {:induction false} BuySizeNonNegative(live: seq<Order>)
    requires Plain(live)
    ensures BuySize(live) >= 0.0
  {
    if live != [] {
      BuySizeNonNegative(live[..|live|-1]);
    }
  }

  ghost predicate OnlyFills(events: seq<Event>) {
    forall k | 0 <= k < |events| :: events[k].Fill?
  }

  /** Position plus live buys never grows while orders only fill. */
  lemma FillKeepsReach(s: State, k: nat, amount: real)
    requires Plain(s.live)
    ensures var t := Step(s, Fill(k, amount), Short);
      Plain(t.live) && t.position + BuySize(t.live) <= s.position + BuySize(s.live)
  {
    if k < |s.live| {
      var o := s.live[k];
      BuySizeMoves(s.live, k, o.(size := o.size - Traded(s, o, amount)));
    }
  }

  lemma {:induction false} FillsKeepReach(s: State, events: seq<Event>)
    requires Plain(s.live) && OnlyFills(events)
    ensures var t := Run(s, events, Short);
      Plain(t.live) && t.position + BuySize(t.live) <= s.position + BuySize(s.live)
  {
    if events != [] {
      FillsKeepReach(s, events[..|events|-1]);
      var e := events[|events|-1];
      FillKeepsReach(Run(s, events[..|events|-1], Short), e.k, e.amount);
    }
  }

  /** Filling the first n orders that are buys, completely. */
  function FillBuys(live: seq<Order>, n: nat): (r: seq<Event>)
    requires n <= |live|
    ensures OnlyFills(r)
  {
    if n == 0 then []
    else if live[n-1].side == Buy then FillBuys(live, n - 1) + [Fill(n - 1, live[n-1].size)]
    else FillBuys(live, n - 1)
  }

  lemma FullFill(s: State, k: nat)
    requires k < |s.live| && s.live[k].side == Buy && !s.live[k].reduceOnly && s.live[k].size >= 0.0
    ensures var t := Step(s, Fill(k, s.live[k].size), Short);
      t.position == s.position + s.live[k].size && |t.live| == |s.live| && t.live[k+1..] == s.live[k+1..]
  {
  }

  lemma TailsAgree(a: seq<Order>, b: seq<Order>, n: nat)
    requires |a| == |b| && n < |a| && a[n..] == b[n..]
    ensures a[n] == b[n] && a[n+1..] == b[n+1..]
  {
    assert a[n..][0] == b[n..][0];
    assert a[n+1..] == a[n..][1..] && b[n+1..] == b[n..][1..];
  }

  lemma {:induction false} FillBuysReaches(s: State, n: nat)
    requires Plain(s.live) && n <= |s.live|
    ensures var t := Run(s, FillBuys(s.live, n), Short);
      t.position == s.position + BuySize(s.live[..n]) && |t.live| == |s.live| && t.live[n..] == s.live[n..]
  {
    if n > 0 {
      FillBuysReaches(s, n - 1);
      var events := FillBuys(s.live, n - 1);
      var before := Run(s, events, Short);
      TailsAgree(before.live, s.live, n - 1);
      assert s.live[..n][..n-1] == s.live[..n-1];
      if s.live[n-1].side == Buy {
        var e := Fill(n - 1, s.live[n-1].size);
        assert (events + [e])[..|events|] == events;
        FullFill(before, n - 1);
        assert Run(s, events + [e], Short) == Step(before, e, Short);
      }
    }
  }

  /** A SHORT bot's buys are not reduce-only, so fills alone can turn it long exactly when its live
      buys exceed its short position. */
  lemma ShortCrossesExactlyWhen(s: State)
    requires Plain(s.live) && s.position <= 0.0
    ensures (exists events :: OnlyFills(events) && Run(s, events, Short).position > 0.0)
       <==> BuySize(s.live) > -s.position
  {
    if BuySize(s.live) > -s.position {
      var events := FillBuys(s.live, |s.live|);
      FillBuysReaches(s, |s.live|);
      assert s.live[..|s.live|] == s.live;
      assert OnlyFills(events) && Run(s, events, Short).position > 0.0;
    }
    if events :| OnlyFills(events) && Run(s, events, Short).position > 0.0 {
      FillsKeepReach(s, events);
      BuySizeNonNegative(Run(s, events, Short).live);
    }
  }
}
