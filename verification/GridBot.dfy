/**
 One running bot: the rows of its grid and the operations that update them in place. Each
 operation is proved to leave exactly the rows that its specification function gives.
 */
module GridBot {
  import opened Nearest
  import opened GridLevels
  import opened Numbers
  import opened GridFill
  import opened GridRun
  import opened Rotation
  import opened Monitor
  import opened Options
  import opened Recovery
  import Coverage

  datatype FillResult = NotHandled | HandledFill | Stopped

  class GridBotInstance {
    const cfg: Config
    /** (upper - lower) / num_grids of the bot row. */
    const gridStep: real
    var levels: seq<Level>
    var processedFills: seq<nat>

    constructor (cfg: Config, gridStep: real, rows: seq<Level>)
      ensures this.cfg == cfg && this.gridStep == gridStep && levels == rows && processedFills == []
    {
      this.cfg, this.gridStep, levels, processedFills := cfg, gridStep, rows, [];
    }

    /** The smaller of 1 and a third of a step. */
    function Tolerance(): (t: real)
      ensures t <= 1.0 && 3.0 * t <= gridStep && (t == 1.0 || 3.0 * t == gridStep)
    {
      if gridStep / 3.0 < 1.0 then gridStep / 3.0 else 1.0
    }

    /** Returns true when the placement raised the margin stop, which is passed on. */
    method HandleLevelFill(side: Side, i: nat, currentPrice: real, snapshot: seq<Level>, o: Placement)
      returns (marginStop: bool)
      requires |snapshot| == |levels| && i < |levels|
      modifies this`levels
      ensures levels == Handled(cfg, side, i, currentPrice, snapshot, old(levels), o)
      ensures marginStop <==>
        && o == MarginStop
        && EffectOf(cfg, side, i, currentPrice, snapshot, o) == Abandoned
    {
      marginStop := false;
      ghost var e := EffectOf(cfg, side, i, currentPrice, snapshot, o);
      var c: int, counterSide: Side;
      if side == Buy {
        c, counterSide := i + 1, Sell;
      } else {
        c, counterSide := i - 1, Buy;
      }
      if c < 0 || c >= |snapshot| {
        assert e == NoCounter;
        return;
      }
      var counter := snapshot[c];
      var outside := Outside(cfg, snapshot, i, c, currentPrice);
      assert e == EffectFor(Blocked(counter), outside, o);
      if counter.orderId.Live? && !counter.isFilled {
        levels := levels[i := levels[i].(isFilled := true)];
        return;
      }
      if outside {
        ParkCounter(side, counterSide, i, c);
        return;
      }
      if Returns(o) {
        OrderCounter(side, counterSide, i, c, o == OutsideBand);
      } else if o == MarginStop {
        marginStop := true;
      } else if o == RetryableError {
        levels := levels[c := levels[c].(pendingReplace := true)];
      }
    }

    /** The counter row waits outside the window; the filled row is done. */
    method ParkCounter(ghost side: Side, counterSide: Side, i: nat, c: nat)
      requires i < |levels| && c < |levels| && c == CounterIndex(side, i) && counterSide == Opposite(side)
      modifies this`levels
      ensures levels == Apply(Effect.Parked, cfg.quantity, side, i, old(levels))
    {
      ParkedInSteps(cfg.quantity, side, i, levels);
      levels := levels[c := levels[c].(side := counterSide, quantity := cfg.quantity, state := Virtual,
                                       orderId := NoId, isFilled := false)];
      levels := levels[i := levels[i].(isFilled := true, state := Filled)];
    }

    /** The counter row has its order; the filled row is done. */
    method OrderCounter(ghost side: Side, counterSide: Side, i: nat, c: nat, outsideBand: bool)
      requires i < |levels| && c < |levels| && c == CounterIndex(side, i) && counterSide == Opposite(side)
      modifies this`levels
      ensures levels == Apply(Ordered(outsideBand), cfg.quantity, side, i, old(levels))
    {
      OrderedInSteps(cfg.quantity, side, i, levels, outsideBand);
      if outsideBand {
        levels := levels[c := levels[c].(pendingReplace := true)];
      }
      levels := levels[i := levels[i].(isFilled := true, state := Filled)];
      levels := levels[c := levels[c].(side := counterSide, isFilled := false, state := Active)];
    }

    /** One recovered fill: matched, skipped when its level is covered or its id is known, and
        otherwise handled exactly like a live one. */
    method ProcessBackfilledFill(fill: RecoveredFill, currentPrice: real, livePrices: seq<real>, o: Placement)
      returns (r: FillResult)
      modifies this
      ensures var m := BestMatch(old(levels), |old(levels)|, SideOf(fill), fill.price, Tolerance());
        if fill.id in old(processedFills) || m < 0 || Covered(livePrices, old(levels)[m].price, Tolerance()) then
          r == NotHandled && levels == old(levels) && processedFills == old(processedFills)
        else
          && r == (if o == MarginStop && EffectOf(cfg, SideOf(fill), m, currentPrice, old(levels), o) == Abandoned
                   then Stopped else HandledFill)
          && processedFills == Remember(old(processedFills), fill.id)
          && levels == Handled(cfg, SideOf(fill), m, currentPrice, old(levels), old(levels), o)
    {
      if fill.id in processedFills {
        return NotHandled;
      }
      var tolerance := Tolerance();
      var fillSide := if fill.isBuyer then Buy else Sell;
      var match_, bestDist := -1, 0.0;
      for k := 0 to |levels|
        invariant match_ == BestMatch(levels, k, fillSide, fill.price, tolerance)
        invariant match_ >= 0 ==> bestDist == Abs(levels[match_].price - fill.price)
      {
        var level := levels[k];
        if !level.isFilled && level.side == fillSide {
          var dist := Abs(level.price - fill.price);
          if dist < tolerance && (match_ < 0 || dist < bestDist) {
            match_, bestDist := k, dist;
          }
        }
      }
      if match_ < 0 {
        return NotHandled;
      }
      BestMatchIsNearest(levels, |levels|, fillSide, fill.price, tolerance);
      if exists p :: p in livePrices && Abs(p - levels[match_].price) < tolerance {
        return NotHandled;
      }
      processedFills := Remember(processedFills, fill.id);
      var stop := HandleLevelFill(levels[match_].side, match_, currentPrice, levels, o);
      r := if stop then Stopped else HandledFill;
    }

    /** The recovered fills of one backfill, oldest first; the margin stop ends them. */
    method ProcessRecovered(fills: seq<RecoveredFill>, currentPrice: real, livePrices: seq<real>, place: nat -> Placement)
      returns (processed: nat, stopped: bool)
      modifies this
      ensures Recovered(levels, processedFills, stopped)
        == RecoverAll(cfg, Recovered(old(levels), old(processedFills), false), fills, currentPrice, livePrices, Tolerance(), place)
      ensures processed <= |fills|
    {
      processed, stopped := 0, false;
      ghost var start := Recovered(levels, processedFills, false);
      for k := 0 to |fills|
        invariant processed <= k
        invariant Recovered(levels, processedFills, stopped)
          == RecoverAll(cfg, start, fills[..k], currentPrice, livePrices, Tolerance(), place)
      {
        assert fills[..k+1][..k] == fills[..k];
        if !stopped {
          ghost var before := Recovered(levels, processedFills, false);
          var r := ProcessBackfilledFill(fills[k], currentPrice, livePrices, place(k));
          assert Recovered(levels, processedFills, r == Stopped)
            == RecoverOne(cfg, before, fills[k], currentPrice, livePrices, Tolerance(), place(k));
          stopped := r == Stopped;
          processed := processed + if r == HandledFill then 1 else 0;
        }
      }
      assert fills[..|fills|] == fills;
    }

    /** The tolerance of the coverage check, in cents. */
    function MatchTolerance(): (t: real)
      ensures t <= 5.0 && 3.0 * t <= 100.0 * gridStep && (t == 5.0 || 3.0 * t == 100.0 * gridStep)
    {
      Coverage.Tolerance(Times(gridStep, 100.0))
    }

    /** The monitor's coverage check: rows near an open order take over its id and side and become
        active; the others are returned nearest first, except the virtual ones. */
    method SyncCoverage(orders: seq<Coverage.Order>, currentPrice: real) returns (uncovered: seq<nat>)
      modifies this`levels
      ensures var m := Matches(cfg, old(levels), orders, MatchTolerance());
        && levels == TakeOver(old(levels), m, Coverage.OrderMap(orders))
        && uncovered == ByDistance(Rounded(old(levels)), currentPrice, Uncovered(cfg, old(levels), m, |m|))
      ensures var m, at := Matches(cfg, old(levels), orders, MatchTolerance()), Coverage.OrderMap(orders);
        levels == SyncRows(old(levels), CoveredBy(m, at), IdsOf(m, at), SidesOf(m, at))
    {
      var prices, orderAt := Coverage.ReadBook(orders);
      var m := Coverage.CoverLevels(CentsOf(levels), Skips(cfg, levels), prices, MatchTolerance());
      var lp := Rounded(levels);
      TakeOverIsSync(levels, m, orderAt);
      var missing := UpdateCovered(m, orderAt);
      uncovered := ByDistance(lp, currentPrice, missing);
    }

    /** Updates the rows that took a price, and collects those that should have and did not. */
    method UpdateCovered(m: seq<Option<int>>, orderAt: map<int, Coverage.Order>) returns (missing: seq<nat>)
      requires |m| == |levels|
      modifies this`levels
      ensures levels == TakeOver(old(levels), m, orderAt)
      ensures missing == Uncovered(cfg, old(levels), m, |m|)
    {
      missing := [];
      for k := 0 to |levels|
        invariant |levels| == |m|
        invariant forall j | 0 <= j < k :: levels[j] == RowAfter(old(levels)[j], m[j], orderAt)
        invariant forall j | k <= j < |levels| :: levels[j] == old(levels)[j]
        invariant missing == Uncovered(cfg, old(levels), m, k)
      {
        var level := levels[k];
        match m[k] {
          case Some(p) =>
            if p in orderAt {
              levels := levels[k := level.(orderId := Live(orderAt[p].id), side := RestingSide(orderAt[p]),
                                           isFilled := false, state := Active)];
            }
          case None =>
            if !(cfg.virtualEnabled && level.state == Virtual) {
              missing := missing + [k];
            }
        }
      }
    }

    /** The monitor's step for uncovered levels, nearest first: mark the gap, collect the new fills and
        place the rest again. */
    method SettleUncovered(uncovered: seq<nat>, openOrders: nat, currentPrice: real, fate: nat -> Fate)
      returns (filledLevels: seq<nat>, marginStop: bool)
      requires Indices(uncovered, |levels|)
      modifies this`levels
      ensures Ticked(levels, filledLevels, marginStop)
        == Monitor.Tick(old(levels), uncovered, openOrders, currentPrice, cfg.quantity, fate)
    {
      filledLevels, marginStop := [], false;
      if |uncovered| > 0 {
        var gap := uncovered[0];
        levels := levels[gap := levels[gap].(isFilled := true, orderId := NoId)];
      }
      if |uncovered| > 1 && openOrders < MAX_OPEN_ORDERS {
        ghost var marked, rest := levels, uncovered[1..];
        for i := 1 to |uncovered|
          invariant |levels| == |marked|
          invariant Ticked(levels, filledLevels, marginStop) == TickAll(marked, rest[..i-1], currentPrice, cfg.quantity, fate)
        {
          assert rest[..i][..i-1] == rest[..i-1];
          var k := uncovered[i];
          if !marginStop {
            match fate(k) {
              case NewFill => filledLevels := filledLevels + [k];
              case LeaveAlone =>
              case PlaceAgain(o) =>
                var correctSide := if levels[k].price < currentPrice then Buy else Sell;
                levels := levels[k := levels[k].(orderId := ShortZero, isFilled := false, side := correctSide,
                                                 quantity := cfg.quantity,
                                                 pendingReplace := levels[k].pendingReplace || o == OutsideBand)];
                marginStop := o == MarginStop;
            }
          }
        }
        assert rest[..|rest|] == rest;
      }
    }

    /** One rotation of the virtual window. `open` is the size of the order list read at the
        start of the tick; `cancelOk` and `place` are what the exchange answers. */
    method RotateVirtualWindow(currentPrice: real, open: nat, cancelOk: nat -> bool, place: nat -> Placement)
      returns (openAfter: int, marginStop: bool)
      modifies this`levels
      ensures var r := Rotated(cfg, old(levels), currentPrice, open, place);
        levels == r.levels && marginStop == r.stopped
      ensures openAfter == OpenAfter(cfg, old(levels), currentPrice, open, cancelOk, place)
    {
      openAfter, marginStop := open, false;
      var toVirtualize := ToVirtualize(levels, currentPrice, cfg.window);
      var toActivate := ToActivate(levels, currentPrice, cfg.window);
      if toVirtualize == [] && toActivate == [] {
        NothingToRotate(cfg, levels, currentPrice, open, cancelOk, place);
        return;
      }
      var cancels := AtMost(toVirtualize, MAX_OPS_PER_TICK);
      var virtualized := |cancels|;
      var headroom := Headroom(cfg.window, open, virtualized);
      var picks := AtMost(toActivate, if headroom < MAX_OPS_PER_TICK then headroom else MAX_OPS_PER_TICK);
      assert cancels == Cancels(cfg, levels, currentPrice) && picks == Activations(cfg, levels, currentPrice, open);
      var failed := VirtualizeFar(cancels, cancelOk);
      var activated;
      activated, marginStop := ActivateNear(picks, currentPrice, place);
      openAfter := open - (virtualized - failed) + activated;
    }

    /** Cancels the orders of the given rows and parks the rows, whether or not the cancel went
        through; returns how many did not. */
    method VirtualizeFar(cancels: seq<nat>, cancelOk: nat -> bool) returns (failed: nat)
      requires Indices(cancels, |levels|)
      modifies this`levels
      ensures levels == VirtualizeAll(old(levels), cancels)
      ensures failed == |cancels| - Cancelled(cancels, cancelOk)
    {
      failed := 0;
      for k := 0 to |cancels|
        invariant |levels| == |old(levels)|
        invariant levels == VirtualizeAll(old(levels), cancels[..k])
        invariant failed == k - Cancelled(cancels[..k], cancelOk)
      {
        assert cancels[..k+1][..k] == cancels[..k];
        if !cancelOk(cancels[k]) {
          failed := failed + 1;
        }
        levels := levels[cancels[k] := levels[cancels[k]].(state := Virtual, orderId := NoId)];
      }
      assert cancels[..|cancels|] == cancels;
    }

    /** Activates the given rows in order; an error parks the row again, and the margin stop
        ends the loop. */
    method ActivateNear(picks: seq<nat>, currentPrice: real, place: nat -> Placement)
      returns (activated: nat, marginStop: bool)
      requires Indices(picks, |levels|)
      modifies this`levels
      ensures Placed(levels, activated, marginStop) == ActivateAll(old(levels), picks, currentPrice, cfg.quantity, place)
    {
      activated, marginStop := 0, false;
      for k := 0 to |picks|
        invariant |levels| == |old(levels)| && !marginStop
        invariant Placed(levels, activated, false) == ActivateAll(old(levels), picks[..k], currentPrice, cfg.quantity, place)
      {
        ActivateNext(old(levels), picks, k, currentPrice, cfg.quantity, place);
        ghost var before := Placed(levels, activated, false);
        var id := picks[k];
        var correctSide := if levels[id].price < currentPrice then Buy else Sell;
        levels := levels[id := levels[id].(state := Active, orderId := ShortZero, side := correctSide,
                                           quantity := cfg.quantity, isFilled := false)];
        if Returns(place(id)) {
          if place(id) == OutsideBand {
            levels := levels[id := levels[id].(pendingReplace := true)];
          }
          if place(id) == Accepted {
            activated := activated + 1;
          }
          assert Placed(levels, activated, false) == ActivateOne(before, id, currentPrice, cfg.quantity, place);
        } else {
          levels := levels[id := levels[id].(state := Virtual, orderId := NoId)];
          assert levels == ActivateOne(before, id, currentPrice, cfg.quantity, place).levels;
          if place(id) == MarginStop {
            marginStop := true;
            StoppedStays(old(levels), picks, k + 1, currentPrice, cfg.quantity, place);
            return;
          }
        }
      }
      assert picks[..|picks|] == picks;
    }
  }

  // ----- the coverage check

  function Cents(price: real): (c: int)
    ensures -0.5 < (c as real) - 100.0 * price <= 0.5
  {
    (Times(price, 100.0) + 0.5).Floor
  }

  function CentsOf(levels: seq<Level>): (r: seq<int>)
    ensures |r| == |levels|
  {
    seq(|levels|, k requires 0 <= k < |levels| => Cents(levels[k].price))
  }

  function Rounded(levels: seq<Level>): (r: seq<real>)
    ensures |r| == |levels|
    ensures forall k | 0 <= k < |r| :: 100.0 * r[k] == Cents(levels[k].price) as real
  {
    seq(|levels|, k requires 0 <= k < |levels| => Over(Cents(levels[k].price) as real, 100.0))
  }

  /** With virtual levels on, a parked row is not expected to have an order. */
  function Skips(cfg: Config, levels: seq<Level>): (r: seq<bool>)
    ensures |r| == |levels|
  {
    seq(|levels|, k requires 0 <= k < |levels| => cfg.virtualEnabled && levels[k].state == Virtual)
  }

  function Matches(cfg: Config, levels: seq<Level>, orders: seq<Coverage.Order>, tol: real): (r: seq<Option<int>>)
    ensures |r| == |levels|
  {
    Coverage.CoverAll(CentsOf(levels), Skips(cfg, levels), Coverage.PriceSet(orders), tol).matched
  }

  function RestingSide(o: Coverage.Order): Side {
    if o.isBuy then Buy else Sell
  }

  function RowAfter(l: Level, taken: Option<int>, at: map<int, Coverage.Order>): Level {
    match taken
    case None => l
    case Some(p) =>
      if p in at then l.(orderId := Live(at[p].id), side := RestingSide(at[p]), isFilled := false, state := Active) else l
  }

  function TakeOver(levels: seq<Level>, m: seq<Option<int>>, at: map<int, Coverage.Order>): (r: seq<Level>)
    requires |m| == |levels|
    ensures |r| == |levels|
  {
    seq(|levels|, k requires 0 <= k < |levels| => RowAfter(levels[k], m[k], at))
  }

  predicate InBook(m: seq<Option<int>>, at: map<int, Coverage.Order>, k: nat) {
    k < |m| && m[k].Some? && m[k].value in at
  }

  function CoveredBy(m: seq<Option<int>>, at: map<int, Coverage.Order>): nat -> bool {
    (k: nat) => InBook(m, at, k)
  }

  function IdsOf(m: seq<Option<int>>, at: map<int, Coverage.Order>): nat -> nat {
    (k: nat) => if InBook(m, at, k) then at[m[k].value].id else 0
  }

  function SidesOf(m: seq<Option<int>>, at: map<int, Coverage.Order>): nat -> Side {
    (k: nat) => if InBook(m, at, k) then RestingSide(at[m[k].value]) else Buy
  }

  /** This is the sync of a run, with the orders of the book for the covered rows. */
  lemma TakeOverIsSync(levels: seq<Level>, m: seq<Option<int>>, at: map<int, Coverage.Order>)
    requires |m| == |levels|
    ensures TakeOver(levels, m, at) == SyncRows(levels, CoveredBy(m, at), IdsOf(m, at), SidesOf(m, at))
  {
  }

  function Uncovered(cfg: Config, levels: seq<Level>, m: seq<Option<int>>, n: nat): (r: seq<nat>)
    requires n <= |levels| == |m|
    ensures Indices(r, |levels|)
  {
    if n == 0 then []
    else
      var r := Uncovered(cfg, levels, m, n - 1);
      if m[n-1].None? && !(cfg.virtualEnabled && levels[n-1].state == Virtual) then r + [n - 1] else r
  }

  /** The updates one after the other: the filled row first, the counter row last. */
  lemma OrderedInSteps(q: real, side: Side, i: nat, levels: seq<Level>, band: bool)
    requires i < |levels| && 0 <= CounterIndex(side, i) < |levels|
    ensures var c := CounterIndex(side, i);
      var noted := if band then levels[c := levels[c].(pendingReplace := true)] else levels;
      var filled := noted[i := noted[i].(isFilled := true, state := Filled)];
      filled[c := filled[c].(side := Opposite(side), isFilled := false, state := Active)]
        == Apply(Ordered(band), q, side, i, levels)
  {
  }

  lemma ParkedInSteps(q: real, side: Side, i: nat, levels: seq<Level>)
    requires i < |levels| && 0 <= CounterIndex(side, i) < |levels|
    ensures var c := CounterIndex(side, i);
      var parked := levels[c := levels[c].(side := Opposite(side), quantity := q, state := Virtual, orderId := NoId,
                                           isFilled := false)];
      parked[i := parked[i].(isFilled := true, state := Filled)] == Apply(Effect.Parked, q, side, i, levels)
  {
  }

  lemma ActivateNext(levels: seq<Level>, ids: seq<nat>, k: nat, p: real, q: real, place: nat -> Placement)
    requires k < |ids| && Indices(ids, |levels|)
    ensures ActivateAll(levels, ids[..k+1], p, q, place) == ActivateOne(ActivateAll(levels, ids[..k], p, q, place), ids[k], p, q, place)
  {
    assert ids[..k+1][..k] == ids[..k];
  }

  lemma NothingToRotate(
    cfg: Config, levels: seq<Level>, p: real, open: nat, cancelOk: nat -> bool, place: nat -> Placement)
    requires ToVirtualize(levels, p, cfg.window) == [] && ToActivate(levels, p, cfg.window) == []
    ensures Rotated(cfg, levels, p, open, place) == Placed(levels, 0, false)
    ensures OpenAfter(cfg, levels, p, open, cancelOk, place) == open
  {
    assert Cancels(cfg, levels, p) == [] && Activations(cfg, levels, p, open) == [];
  }

  /** Once the margin stop is raised the remaining activations are not attempted. */
  lemma StoppedStays(levels: seq<Level>, ids: seq<nat>, n: nat, p: real, q: real, place: nat -> Placement)
    requires n <= |ids| && Indices(ids, |levels|)
    requires ActivateAll(levels, ids[..n], p, q, place).stopped
    ensures ActivateAll(levels, ids, p, q, place) == ActivateAll(levels, ids[..n], p, q, place)
    decreases |ids| - n
  {
    if n == |ids| {
      assert ids[..n] == ids;
    } else {
      assert ids[..n+1][..n] == ids[..n];
      StoppedStays(levels, ids, n + 1, p, q, place);
    }
  }
}
