/**
 Whole runs of a grid bot: any interleaving of fills next to the gap, window rotations at a
 price inside the gap's band and order-id syncs keeps the single-gap shape and never changes
 the difference between the live position and the position the grid implies.
 */
module GridRun {
  import opened GridLevels
  import opened GridFill
  import opened Rotation
  import opened Nearest

  /** The rows and the live exchange position. */
  datatype State = State(levels: seq<Level>, position: real)

  datatype Event =
    | Fill(i: nat, price: real, o: Placement)
    | Rotate(price: real, open: nat, place: nat -> Placement)
    | Sync(covered: nat -> bool, orderOf: nat -> nat, sideOf: nat -> Side)

  /** The monitor's coverage sync: a row with an order near its price takes over the order's id and
      side, and is active. */
  function SyncRows(levels: seq<Level>, covered: nat -> bool, orderOf: nat -> nat, sideOf: nat -> Side): (r: seq<Level>)
    ensures |r| == |levels|
  {
    seq(|levels|, k requires 0 <= k < |levels| =>
      if covered(k) then levels[k].(orderId := Live(orderOf(k)), side := sideOf(k), isFilled := false, state := Active)
      else levels[k])
  }

  /** Rows below the gap are under the price and rows above it are at or over the price. */
  ghost predicate InGapBand(levels: seq<Level>, g: nat, p: real) {
    forall k | 0 <= k < |levels| :: (k < g ==> levels[k].price < p) && (k > g ==> levels[k].price >= p)
  }

  /** What a run may do next: a resting order next to the gap fills and its handling completes,
      the window rotates while the price is in the gap's band, or the monitor syncs active rows
      other than the gap from orders that rest on their row's own side. */
  ghost predicate Allowed(cfg: Config, s: State, g: nat, e: Event) {
    match e
    case Fill(i, price, o) =>
      i < |s.levels| && NextTo(i, g) && s.levels[i].state == Active && Completes(cfg, i, price, s.levels, o)
    case Rotate(price, open, place) => InGapBand(s.levels, g, price)
    case Sync(covered, orderOf, sideOf) =>
      forall k | 0 <= k < |s.levels| && covered(k) ::
        k != g && s.levels[k].state == Active && sideOf(k) == s.levels[k].side
  }

  /** The exchange moves the position by the traded quantity, then the fill is handled. */
  function Step(cfg: Config, s: State, e: Event): State {
    match e
    case Fill(i, price, o) =>
      if i < |s.levels| then
        State(Handled(cfg, s.levels[i].side, i, price, s.levels, s.levels, o),
              s.position + Traded(s.levels[i].side, cfg.quantity))
      else s
    case Rotate(price, open, place) => State(Rotated(cfg, s.levels, price, open, place).levels, s.position)
    case Sync(covered, orderOf, sideOf) => State(SyncRows(s.levels, covered, orderOf, sideOf), s.position)
  }

  function GapAfter(g: nat, e: Event): nat {
    if e.Fill? then e.i else g
  }

  function Run(cfg: Config, s: State, events: seq<Event>): State {
    if events == [] then s
    else Step(cfg, Run(cfg, s, events[..|events|-1]), events[|events|-1])
  }

  function GapOf(g: nat, events: seq<Event>): nat {
    if events == [] then g
    else GapAfter(GapOf(g, events[..|events|-1]), events[|events|-1])
  }

  ghost predicate AllowedRun(cfg: Config, s: State, g: nat, events: seq<Event>) {
    events != [] ==>
      var before := events[..|events|-1];
      && AllowedRun(cfg, s, g, before)
      && Allowed(cfg, Run(cfg, s, before), GapOf(g, before), events[|events|-1])
  }

  // ----- rotations and syncs

  /** A gap of either kind. */
  ghost predicate Gap(levels: seq<Level>, g: nat) {
    SingleGap(levels, g) || NaturalGap(levels, g)
  }

  /** What rotations and syncs keep: the gap as it is, the sides, the quantities and the prices. */
  ghost predicate Same(q: real, g: nat, a: seq<Level>, b: seq<Level>) {
    && |a| == |b| && OnlyGap(b, g) && b[g] == a[g] && Uniform(b, q)
    && (forall k | 0 <= k < |a| :: a[k].price == b[k].price && a[k].side == b[k].side)
  }

  lemma {:induction false} SameImplied(d: Direction, q: real, g: nat, a: seq<Level>, b: seq<Level>, n: nat)
    requires OnlyGap(a, g) && Uniform(a, q) && Same(q, g, a, b) && n <= |a|
    ensures Inventory(d, a[..n]) == Inventory(d, b[..n])
  {
    if n > 0 {
      SameImplied(d, q, g, a, b, n - 1);
      assert a[..n][..n-1] == a[..n-1] && b[..n][..n-1] == b[..n-1];
      assert n - 1 != g ==> !GenuinelyFilled(a[n-1]) && !GenuinelyFilled(b[n-1]);
    }
  }

  lemma {:induction false} VirtualizeKeeps(q: real, g: nat, levels: seq<Level>, ids: seq<nat>)
    requires OnlyGap(levels, g) && Uniform(levels, q) && Indices(ids, |levels|)
    requires forall k | 0 <= k < |ids| :: ids[k] != g
    ensures Same(q, g, levels, VirtualizeAll(levels, ids))
  {
    if ids != [] {
      VirtualizeKeeps(q, g, levels, ids[..|ids|-1]);
    }
  }

  lemma {:induction false} ActivateKeeps(
    q: real, g: nat, levels: seq<Level>, ids: seq<nat>, p: real, place: nat -> Placement)
    requires OnlyGap(levels, g) && Uniform(levels, q) && Indices(ids, |levels|) && InGapBand(levels, g, p)
    requires forall k | 0 <= k < |ids| :: ids[k] != g
    ensures Same(q, g, levels, ActivateAll(levels, ids, p, q, place).levels)
  {
    if ids != [] {
      var n := |ids| - 1;
      ActivateKeeps(q, g, levels, ids[..n], p, place);
      var s, k := ActivateAll(levels, ids[..n], p, q, place), ids[n];
      assert s.levels[k].price == levels[k].price;
      assert k < g ==> levels[k].price < p;
      assert k > g ==> levels[k].price >= p;
      assert Activated(s.levels[k], p, q).side == s.levels[k].side;
    }
  }

  /** A rotation cancels orders and activates virtual rows: the gap is neither. */
  lemma GapNotRotated(cfg: Config, g: nat, levels: seq<Level>, p: real, open: nat)
    requires Gap(levels, g)
    ensures forall k | k in Cancels(cfg, levels, p) :: k != g
    ensures forall k | k in Activations(cfg, levels, p, open) :: k != g
  {
    TouchedRows(cfg, levels, p, open);
    forall k | k in Cancels(cfg, levels, p) ensures k != g {
      assert k in ToVirtualize(levels, p, cfg.window);
    }
  }

  lemma RotationKeeps(cfg: Config, g: nat, levels: seq<Level>, p: real, open: nat, place: nat -> Placement)
    requires Gap(levels, g) && Uniform(levels, cfg.quantity) && InGapBand(levels, g, p)
    ensures Same(cfg.quantity, g, levels, Rotated(cfg, levels, p, open, place).levels)
  {
    GapNotRotated(cfg, g, levels, p, open);
    var out, in_ := Cancels(cfg, levels, p), Activations(cfg, levels, p, open);
    assert forall k | 0 <= k < |out| :: out[k] in out && out[k] != g;
    assert forall k | 0 <= k < |in_| :: in_[k] in in_ && in_[k] != g;
    VirtualizeKeeps(cfg.quantity, g, levels, out);
    ActivateKeeps(cfg.quantity, g, VirtualizeAll(levels, out), in_, p, place);
  }

  // ----- every step, every run

  function Drift(d: Direction, s: State): real {
    s.position - Implied(d, s.levels)
  }

  /** What the first fill next to a natural gap does to the drift. */
  function FirstFillShift(d: Direction, q: real, levels: seq<Level>, g: nat): real {
    if g < |levels| && Held(d, levels[g]) then OneLot(d, q) else 0.0
  }

  lemma StepKeeps(d: Direction, cfg: Config, s: State, g: nat, e: Event)
    requires Gap(s.levels, g) && Uniform(s.levels, cfg.quantity) && cfg.quantity > 0.0
    requires Allowed(cfg, s, g, e)
    ensures var next := Step(cfg, s, e);
      && Gap(next.levels, GapAfter(g, e))
      && Uniform(next.levels, cfg.quantity)
      && Prices(next.levels) == Prices(s.levels)
      && (if e.Fill? then SingleGap(next.levels, e.i) else next.levels[g] == s.levels[g])
      && Drift(d, next) == Drift(d, s) + if e.Fill? then FirstFillShift(d, cfg.quantity, s.levels, g) else 0.0
  {
    var next := Step(cfg, s, e);
    match e
    case Fill(i, price, o) =>
      if SingleGap(s.levels, g) {
        GapCompletes(cfg, i, g, price, s.levels, o);
        SingleGapKept(d, cfg, i, g, price, s.levels, o);
      } else {
        FirstFill(d, cfg, i, g, price, s.levels, o);
      }
    case Rotate(price, open, place) =>
      RotationKeeps(cfg, g, s.levels, price, open, place);
      FullInventory(d, cfg.quantity, g, s.levels, next.levels);
    case Sync(covered, orderOf, sideOf) =>
      FullInventory(d, cfg.quantity, g, s.levels, next.levels);
  }

  lemma FullInventory(d: Direction, q: real, g: nat, a: seq<Level>, b: seq<Level>)
    requires OnlyGap(a, g) && Uniform(a, q) && Same(q, g, a, b)
    ensures Implied(d, a) == Implied(d, b)
  {
    SameImplied(d, q, g, a, b, |a|);
    assert a[..|a|] == a && b[..|a|] == b;
  }

  predicate HasFill(events: seq<Event>) {
    exists k :: 0 <= k < |events| && events[k].Fill?
  }

  lemma HasFillStep(events: seq<Event>)
    requires events != []
    ensures HasFill(events) <==> HasFill(events[..|events|-1]) || events[|events|-1].Fill?
  {
    var n := |events| - 1;
    if HasFill(events[..n]) {
      var k :| 0 <= k < n && events[..n][k].Fill?;
      assert events[k].Fill?;
    }
    if HasFill(events) {
      var k :| 0 <= k < |events| && events[k].Fill?;
      assert k == n || events[..n][k].Fill?;
    }
  }

  /** In every allowed run, from a gap of either kind, for a long and for a short bot: there is one
      gap, only buys below and only sells above it, and the drift from the implied position is the
      initial one, but for the one lot that the first fill moves it by when the run started from a
      natural gap whose level counts as inventory. */
  lemma {:induction false} RunConservesDrift(d: Direction, cfg: Config, s: State, g: nat, events: seq<Event>)
    requires Gap(s.levels, g) && Uniform(s.levels, cfg.quantity) && cfg.quantity > 0.0
    requires AllowedRun(cfg, s, g, events)
    ensures var last := Run(cfg, s, events);
      && Gap(last.levels, GapOf(g, events))
      && Uniform(last.levels, cfg.quantity)
      && |last.levels| == |s.levels|
      && (if HasFill(events) then SingleGap(last.levels, GapOf(g, events))
          else GapOf(g, events) == g && last.levels[g] == s.levels[g])
      && Drift(d, last) == Drift(d, s) + if HasFill(events) then FirstFillShift(d, cfg.quantity, s.levels, g) else 0.0
  {
    if events != [] {
      var before := events[..|events|-1];
      RunConservesDrift(d, cfg, s, g, before);
      HasFillStep(events);
      StepKeeps(d, cfg, Run(cfg, s, before), GapOf(g, before), events[|events|-1]);
    }
  }

  /** So the drift is kept exactly unless a fill ended a natural gap whose level was inventory. */
  lemma DriftKeptExactlyWhen(d: Direction, cfg: Config, s: State, g: nat, events: seq<Event>)
    requires Gap(s.levels, g) && Uniform(s.levels, cfg.quantity) && cfg.quantity > 0.0
    requires AllowedRun(cfg, s, g, events)
    ensures Drift(d, Run(cfg, s, events)) == Drift(d, s) <==>
      !(HasFill(events) && NaturalGap(s.levels, g) && s.levels[g].side == InventorySide(d))
  {
    RunConservesDrift(d, cfg, s, g, events);
  }

  /** n lots of q; a negative n counts lots sold. */
  function Lots(q: real, n: int): real
    decreases if n < 0 then -n else n
  {
    if n == 0 then 0.0 else if n > 0 then Lots(q, n - 1) + q else Lots(q, n + 1) - q
  }

  lemma OneMoreLot(q: real, n: int)
    ensures Lots(q, n + 1) == Lots(q, n) + q
  {
  }

  /** Between two points of a run the position moves by one lot for each row the gap moved, whatever
      kind of gap the run started from. */
  lemma {:induction false} PositionFollowsGap(cfg: Config, s: State, g: nat, events: seq<Event>)
    requires Gap(s.levels, g) && Uniform(s.levels, cfg.quantity) && cfg.quantity > 0.0
    requires AllowedRun(cfg, s, g, events)
    ensures Run(cfg, s, events).position == s.position + Lots(cfg.quantity, g - GapOf(g, events))
  {
    if events != [] {
      var before, e := events[..|events|-1], events[|events|-1];
      PositionFollowsGap(cfg, s, g, before);
      RunKeepsGap(cfg, s, g, before);
      var mid := Run(cfg, s, before);
      StepPosition(cfg, mid, e);
      NextToGap(cfg, mid, GapOf(g, before), e);
      OneStepOn(mid.levels, cfg.quantity, s.position, mid.position, g, GapOf(g, before), e);
    }
  }

  /** What a step adds to the position. */
  function Moved(levels: seq<Level>, q: real, e: Event): real {
    if e.Fill? && e.i < |levels| then Traded(levels[e.i].side, q) else 0.0
  }

  lemma StepPosition(cfg: Config, s: State, e: Event)
    ensures Step(cfg, s, e).position == s.position + Moved(s.levels, cfg.quantity, e)
  {
  }

  lemma NextToGap(cfg: Config, s: State, g: nat, e: Event)
    requires Gap(s.levels, g) && Allowed(cfg, s, g, e)
    ensures OnlyGap(s.levels, g) && (e.Fill? ==> e.i < |s.levels| && NextTo(e.i, g))
  {
  }

  lemma OneStepOn(levels: seq<Level>, q: real, p: real, mid: real, g: nat, h: nat, e: Event)
    requires OnlyGap(levels, h) && (e.Fill? ==> e.i < |levels| && NextTo(e.i, h))
    requires mid == p + Lots(q, g - h)
    ensures mid + Moved(levels, q, e) == p + Lots(q, g - GapAfter(h, e))
  {
    if e.Fill? {
      FillMovesOneLot(levels, h, e.i, q);
      OneMoreLot(q, g - h);
      OneMoreLot(q, g - h - 1);
    }
  }

  lemma RunKeepsGap(cfg: Config, s: State, g: nat, events: seq<Event>)
    requires Gap(s.levels, g) && Uniform(s.levels, cfg.quantity) && cfg.quantity > 0.0
    requires AllowedRun(cfg, s, g, events)
    ensures Gap(Run(cfg, s, events).levels, GapOf(g, events))
  {
    RunConservesDrift(Long, cfg, s, g, events);
  }

  lemma FillMovesOneLot(levels: seq<Level>, g: nat, i: nat, q: real)
    requires OnlyGap(levels, g) && i < |levels| && NextTo(i, g)
    ensures Traded(levels[i].side, q) == if i + 1 == g then q else -q
  {
  }

  /** The inventory of a grid with a genuine gap is told by where the gap is: for a long bot every row
      above it, so the live position is those rows and the initial drift. */
  lemma ImpliedOfGap(levels: seq<Level>, g: nat, q: real)
    requires SingleGap(levels, g) && Uniform(levels, q)
    ensures Implied(Long, levels) == Lots(q, |levels| - 1 - g)
  {
    InventoryAboveGap(levels, g, q, |levels|);
    assert levels[..|levels|] == levels;
  }

  lemma {:induction false} InventoryAboveGap(levels: seq<Level>, g: nat, q: real, n: nat)
    requires SingleGap(levels, g) && Uniform(levels, q) && n <= |levels|
    ensures Inventory(Long, levels[..n]) == Lots(q, if n > g then n - 1 - g else 0)
  {
    if n > 0 {
      InventoryAboveGap(levels, g, q, n - 1);
      assert levels[..n][..n-1] == levels[..n-1];
      if n - 1 > g {
        assert !GenuinelyFilled(levels[n-1]);
        OneMoreLot(q, n - 2 - g);
      }
    }
  }
}
