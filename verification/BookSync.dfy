/**
 What the monitor's coverage check does to one row, stated on the row and the open orders.
 */
module BookSync {
  import opened GridLevels
  import opened GridFill
  import opened GridBot
  import opened Options
  import Coverage

  lemma {:induction false} PricesOfBook(orders: seq<Coverage.Order>, p: int)
    ensures p in Coverage.PriceSet(orders) <==> exists j :: 0 <= j < |orders| && orders[j].price == Some(p)
  {
    if orders != [] {
      var n := |orders| - 1;
      PricesOfBook(orders[..n], p);
      if j :| 0 <= j < n && orders[j].price == Some(p) {
        assert orders[..n][j].price == Some(p);
      }
    }
  }

  lemma {:induction false} UncoveredExactlyWhen(cfg: Config, levels: seq<Level>, m: seq<Option<int>>, n: nat, k: nat)
    requires n <= |levels| == |m|
    ensures k in Uncovered(cfg, levels, m, n) <==>
      k < n && m[k].None? && !(cfg.virtualEnabled && levels[k].state == Virtual)
  {
    if n > 0 {
      UncoveredExactlyWhen(cfg, levels, m, n - 1, k);
    }
  }

  /** Order j is open near the row's price, in cents. */
  ghost predicate OrderNear(levels: seq<Level>, orders: seq<Coverage.Order>, tol: real, k: nat, j: nat)
    requires k < |levels|
  {
    j < |orders| && orders[j].price.Some? && Coverage.Near(orders[j].price.value, Cents(levels[k].price), tol)
  }

  /** The row carries that order now. */
  ghost predicate Carries(was: Level, row: Level, o: Coverage.Order) {
    && row == was.(orderId := Live(o.id), side := row.side, isFilled := false, state := Active)
    && (row.side == Buy <==> o.isBuy)
  }

  lemma TakesFromBook(orders: seq<Coverage.Order>, level: int, tol: real, taken: Option<int>)
    requires taken == Coverage.Pick(Coverage.PriceSet(orders), level, tol)
    ensures taken.Some? ==> taken.value in Coverage.OrderMap(orders) && Coverage.Near(taken.value, level, tol)
    ensures taken.None? ==> forall j | 0 <= j < |orders| && orders[j].price.Some? ::
      !Coverage.Near(orders[j].price.value, level, tol)
  {
    var set_ := Coverage.PriceSet(orders);
    Coverage.BookMeaning(orders);
    var i := Coverage.FirstNear(set_, level, tol);
    forall j | taken.None? && 0 <= j < |orders| && orders[j].price.Some?
      ensures !Coverage.Near(orders[j].price.value, level, tol)
    {
      var p := orders[j].price.value;
      PricesOfBook(orders, p);
      var n :| 0 <= n < |set_| && set_[n] == p;
      assert n < i;
    }
  }

  /** A book whose orders are each near one row at most. A parked row is left alone and not missed. Any
      other row takes over an open order near its price, its id and its side, and is active and open; one
      without such an order stays as it is and is reported as uncovered. */
  lemma SyncOfRow(cfg: Config, levels: seq<Level>, orders: seq<Coverage.Order>, tol: real, k: nat)
    requires k < |levels| && Coverage.NoAliases(CentsOf(levels), Coverage.PriceSet(orders), tol)
    ensures var m := Matches(cfg, levels, orders, tol);
      var row := TakeOver(levels, m, Coverage.OrderMap(orders))[k];
      var missed := k in Uncovered(cfg, levels, m, |m|);
      if cfg.virtualEnabled && levels[k].state == Virtual then row == levels[k] && !missed
      else if exists j: nat :: OrderNear(levels, orders, tol, k, j) then
        !missed && exists j: nat :: OrderNear(levels, orders, tol, k, j) && Carries(levels[k], row, orders[j])
      else row == levels[k] && missed
  {
    var m, at := Matches(cfg, levels, orders, tol), Coverage.OrderMap(orders);
    UncoveredExactlyWhen(cfg, levels, m, |m|, k);
    Coverage.TakesItsFirst(CentsOf(levels), Skips(cfg, levels), Coverage.PriceSet(orders), tol);
    if !(cfg.virtualEnabled && levels[k].state == Virtual) {
      TakesFromBook(orders, Cents(levels[k].price), tol, m[k]);
      if m[k].Some? {
        Coverage.BookMeaning(orders);
        var o := at[m[k].value];
        var j: nat :| j < |orders| && orders[j] == o;
        assert OrderNear(levels, orders, tol, k, j);
        assert Carries(levels[k], TakeOver(levels, m, at)[k], orders[j]);
      } else {
        assert forall j: nat :: !OrderNear(levels, orders, tol, k, j);
      }
    }
  }
}
