/**
 Handling a filled grid level: the flip of the level and its counter-order one level up or
 down, for fills seen live and for fills recovered by the backfill.

 `Handled` is the new level table as a function; `GridBot.GridBotInstance` runs the same
 steps on its own rows. What the steps are for is stated by `DriftConserved` (an exact condition,
 for any table) and `SingleGapKept` (the shape every run keeps).
 */
module GridFill {
  import opened Nearest
  import opened GridLevels
  import opened Numbers

  /** What placing the counter-order came to. The first three return normally: the order was
      accepted, it was under the minimum notional, or it was outside the price band. */
  datatype Placement = Accepted | BelowNotional | OutsideBand | RetryableError | MarginStop | OtherError

  predicate Returns(o: Placement) {
    o == Accepted || o == BelowNotional || o == OutsideBand
  }

  /** virtualEnabled, active_window_size and the fixed quantity of the bot row. */
  datatype Config = Config(quantity: real, virtualEnabled: bool, window: nat)

  function CounterIndex(side: Side, i: nat): int {
    if side == Buy then i + 1 else i - 1
  }

  /** The counter level already has its own order: nothing is placed. */
  predicate Blocked(counter: Level) {
    counter.orderId.Live? && !counter.isFilled
  }

  predicate InsideWindow(snapshot: seq<Level>, filled: nat, counter: nat, price: real, window: nat) {
    counter in Top(Prices(snapshot), price, OpenIds(snapshot, |snapshot|, {filled}), window)
  }

  /** Which branch the handling takes. */
  datatype Effect =
    | NoCounter                    // first or last level: nothing is updated
    | AlreadyOrdered               // only is_filled is set on the filled row
    | Parked                       // counter outside the window: virtual, no order
    | Ordered(outsideBand: bool)   // counter order sent, or skipped without an error
    | RetryLater                   // counter marked pending_replace, the fill is not recorded
    | Abandoned                    // nothing is updated

  function EffectOf(cfg: Config, side: Side, i: nat, price: real, snapshot: seq<Level>, o: Placement): Effect {
    var c := CounterIndex(side, i);
    if c < 0 || c >= |snapshot| then NoCounter
    else EffectFor(Blocked(snapshot[c]), Outside(cfg, snapshot, i, c, price), o)
  }

  /** The counter row would not be one of the nearest, so it waits. */
  predicate Outside(cfg: Config, snapshot: seq<Level>, i: nat, c: nat, price: real) {
    cfg.virtualEnabled && !InsideWindow(snapshot, i, c, price, cfg.window)
  }

  function EffectFor(blocked: bool, outside: bool, o: Placement): Effect {
    if blocked then AlreadyOrdered
    else if outside then Parked
    else if Returns(o) then Ordered(o == OutsideBand)
    else if o == RetryableError then RetryLater
    else Abandoned
  }

  function Apply(e: Effect, q: real, side: Side, i: nat, levels: seq<Level>): (r: seq<Level>)
    requires i < |levels|
    requires e == NoCounter || 0 <= CounterIndex(side, i) < |levels|
    ensures |r| == |levels|
  {
    var c := CounterIndex(side, i);
    var filled := levels[i].(isFilled := true, state := Filled);
    match e
    case NoCounter | Abandoned => levels
    case AlreadyOrdered => levels[i := levels[i].(isFilled := true)]
    case Parked =>
      levels[c := levels[c].(side := Opposite(side), quantity := q, state := Virtual, orderId := NoId,
                             isFilled := false)]
            [i := filled]
    case Ordered(band) =>
      levels[c := levels[c].(side := Opposite(side), isFilled := false, state := Active,
                             pendingReplace := levels[c].pendingReplace || band)]
            [i := filled]
    case RetryLater => levels[c := levels[c].(pendingReplace := true)]
  }

  /** The rows after the fill of row i on `side`. `snapshot` is the table as the caller read
      it; `levels` is the table the updates go to. */
  function Handled(
    cfg: Config, side: Side, i: nat, price: real, snapshot: seq<Level>, levels: seq<Level>, o: Placement)
    : (r: seq<Level>)
    requires |snapshot| == |levels| && i < |levels|
    ensures |r| == |levels|
  {
    Apply(EffectOf(cfg, side, i, price, snapshot, o), cfg.quantity, side, i, levels)
  }

  // ----- conservation of position against implied inventory

  predicate Uniform(levels: seq<Level>, q: real) {
    forall k | 0 <= k < |levels| :: levels[k].quantity == q
  }

  function Traded(side: Side, q: real): real {
    if side == Buy then q else -q
  }

  /** When the fill of row i leaves live position minus implied position where it was: the
      counter-order stage was reached and the counter row was not counted as inventory yet. */
  predicate Balanced(d: Direction, e: Effect, side: Side, i: nat, levels: seq<Level>)
    requires i < |levels| && (e == NoCounter || 0 <= CounterIndex(side, i) < |levels|)
  {
    match e
    case Parked | Ordered(_) => !Counted(d, levels[CounterIndex(side, i)])
    case AlreadyOrdered => side == InventorySide(d) && levels[i].state == Filled
    case NoCounter | RetryLater | Abandoned => false
  }

  lemma TwoUpdates(d: Direction, levels: seq<Level>, c: nat, i: nat, counter: Level, filled: Level)
    requires c < |levels| && i < |levels| && c != i
    ensures Inventory(d, levels[c := counter][i := filled])
      == Inventory(d, levels) - Weight(d, levels[c]) + Weight(d, counter) - Weight(d, levels[i]) + Weight(d, filled)
  {
    InventoryUpdate(d, levels, c, counter);
    InventoryUpdate(d, levels[c := counter], i, filled);
  }

  lemma EffectDrift(d: Direction, e: Effect, q: real, i: nat, levels: seq<Level>)
    requires i < |levels| && !levels[i].isFilled
    requires e == NoCounter || 0 <= CounterIndex(levels[i].side, i) < |levels|
    requires q > 0.0 && Uniform(levels, q)
    ensures var side := levels[i].side;
      Implied(d, Apply(e, q, side, i, levels)) - Implied(d, levels) == Traded(side, q)
      <==> Balanced(d, e, side, i, levels)
  {
    var side := levels[i].side;
    var after := Apply(e, q, side, i, levels);
    if e != NoCounter {
      var c := CounterIndex(side, i);
      if e == AlreadyOrdered {
        InventoryUpdate(d, levels, i, after[i]);
      } else if e == RetryLater {
        InventoryUpdate(d, levels, c, after[c]);
      } else if e != Abandoned {
        assert after == levels[c := after[c]][i := after[i]];
        TwoUpdates(d, levels, c, i, after[c], after[i]);
      }
    }
  }

  /** For any table of equal quantities, handling the fill of an unfilled row moves the implied
      position by exactly what was traded if and only if the fill is balanced. */
  lemma DriftConserved(d: Direction, cfg: Config, i: nat, price: real, levels: seq<Level>, o: Placement)
    requires i < |levels| && !levels[i].isFilled
    requires cfg.quantity > 0.0 && Uniform(levels, cfg.quantity)
    ensures var side := levels[i].side;
      Implied(d, Handled(cfg, side, i, price, levels, levels, o)) - Implied(d, levels) == Traded(side, cfg.quantity)
      <==> Balanced(d, EffectOf(cfg, side, i, price, levels, o), side, i, levels)
  {
    EffectDrift(d, EffectOf(cfg, levels[i].side, i, price, levels, o), cfg.quantity, i, levels);
  }

  // ----- the shape of the grid

  /** No row but g is filled; every row below g buys and every row above it sells. */
  ghost predicate OnlyGap(levels: seq<Level>, g: nat) {
    && g < |levels|
    && (forall k | 0 <= k < |levels| && k != g :: !levels[k].isFilled && levels[k].state != Filled)
    && (forall k | 0 <= k < g :: levels[k].side == Buy)
    && (forall k | g < k < |levels| :: levels[k].side == Sell)
  }

  /** The gap is a level that was handled as filled. */
  ghost predicate SingleGap(levels: seq<Level>, g: nat) {
    OnlyGap(levels, g) && GenuinelyFilled(levels[g])
  }

  /** The gap is a level that the monitor found uncovered nearest to the price: marked is_filled and
      without an order, but still active. */
  ghost predicate NaturalGap(levels: seq<Level>, g: nat) {
    OnlyGap(levels, g) && levels[g].isFilled && levels[g].state == Active && levels[g].orderId == NoId
  }

  predicate NextTo(i: nat, g: nat) {
    i == g + 1 || i + 1 == g
  }

  /** Reaching the counter-order stage moves the gap onto the filled row and keeps the shape. */
  lemma GapMoves(e: Effect, q: real, i: nat, g: nat, levels: seq<Level>)
    requires OnlyGap(levels, g) && i < |levels| && NextTo(i, g) && Uniform(levels, q)
    requires e == Parked || e.Ordered?
    ensures CounterIndex(levels[i].side, i) == g
    ensures var after := Apply(e, q, levels[i].side, i, levels);
      && OnlyGap(after, i) && GenuinelyFilled(after[i]) && Uniform(after, q)
      && (forall k | 0 <= k < |levels| :: after[k].price == levels[k].price)
      && after == levels[g := after[g]][i := after[i]]
      && after[g].side == Opposite(levels[i].side) && !GenuinelyFilled(after[g])
  {
  }

  lemma SamePrices(a: seq<Level>, b: seq<Level>)
    requires |a| == |b| && forall k | 0 <= k < |a| :: a[k].price == b[k].price
    ensures Prices(a) == Prices(b)
  {
  }

  /** A fill next to the gap whose handling completes moves the gap onto the filled row, keeps
      the shape, and is balanced for a long and for a short bot alike. */
  lemma SingleGapKept(d: Direction, cfg: Config, i: nat, g: nat, price: real, levels: seq<Level>, o: Placement)
    requires SingleGap(levels, g) && i < |levels| && NextTo(i, g)
    requires cfg.virtualEnabled || Returns(o)
    requires cfg.quantity > 0.0 && Uniform(levels, cfg.quantity)
    ensures var side := levels[i].side;
      var after := Handled(cfg, side, i, price, levels, levels, o);
      && SingleGap(after, i)
      && Uniform(after, cfg.quantity)
      && Prices(after) == Prices(levels)
      && Implied(d, after) - Implied(d, levels) == Traded(side, cfg.quantity)
  {
    GapCompletes(cfg, i, g, price, levels, o);
    var e := EffectOf(cfg, levels[i].side, i, price, levels, o);
    GapMoves(e, cfg.quantity, i, g, levels);
    SamePrices(Apply(e, cfg.quantity, levels[i].side, i, levels), levels);
    EffectDrift(d, e, cfg.quantity, i, levels);
  }

  /** The handling of the fill of row i gets as far as the counter-order stage. */
  predicate Completes(cfg: Config, i: nat, price: real, levels: seq<Level>, o: Placement)
    requires i < |levels|
  {
    var e := EffectOf(cfg, levels[i].side, i, price, levels, o);
    e == Parked || e.Ordered?
  }

  /** A genuinely filled gap is always reached when placements return or levels are virtual. */
  lemma GapCompletes(cfg: Config, i: nat, g: nat, price: real, levels: seq<Level>, o: Placement)
    requires SingleGap(levels, g) && i < |levels| && NextTo(i, g)
    ensures Completes(cfg, i, price, levels, o) <==> cfg.virtualEnabled || Returns(o)
  {
    if cfg.virtualEnabled {
      GapIsNeverInsideWindow(levels, i, g, price, cfg.window);
    }
  }

  /** The natural gap's level still counts as inventory. */
  predicate Held(d: Direction, l: Level) {
    l.state != Filled && l.side == InventorySide(d)
  }

  /** One lot in the direction of the bot. */
  function OneLot(d: Direction, q: real): real {
    if d == Long then q else -q
  }

  /** The first fill next to a natural gap whose handling completes moves the gap onto the filled row
      and makes it a genuine one. It keeps the drift exactly when the gap's level was not counted as
      inventory; otherwise the drift moves by one lot, whichever side the fill was on. */
  lemma FirstFill(d: Direction, cfg: Config, i: nat, g: nat, price: real, levels: seq<Level>, o: Placement)
    requires NaturalGap(levels, g) && i < |levels| && NextTo(i, g)
    requires Completes(cfg, i, price, levels, o)
    requires cfg.quantity > 0.0 && Uniform(levels, cfg.quantity)
    ensures var side := levels[i].side;
      var after := Handled(cfg, side, i, price, levels, levels, o);
      && SingleGap(after, i)
      && Uniform(after, cfg.quantity)
      && Prices(after) == Prices(levels)
      && Implied(d, after) - Implied(d, levels)
           == Traded(side, cfg.quantity) - (if Held(d, levels[g]) then OneLot(d, cfg.quantity) else 0.0)
      && (Implied(d, after) - Implied(d, levels) == Traded(side, cfg.quantity) <==> levels[g].side != InventorySide(d))
  {
    var e := EffectOf(cfg, levels[i].side, i, price, levels, o);
    GapMoves(e, cfg.quantity, i, g, levels);
    SamePrices(Apply(e, cfg.quantity, levels[i].side, i, levels), levels);
    FirstFillInventory(d, e, cfg.quantity, i, g, levels);
  }

  lemma FirstFillInventory(d: Direction, e: Effect, q: real, i: nat, g: nat, levels: seq<Level>)
    requires NaturalGap(levels, g) && i < |levels| && NextTo(i, g) && Uniform(levels, q)
    requires e == Parked || e.Ordered?
    ensures CounterIndex(levels[i].side, i) == g
    ensures Implied(d, Apply(e, q, levels[i].side, i, levels)) - Implied(d, levels)
      == Traded(levels[i].side, q) - (if Held(d, levels[g]) then OneLot(d, q) else 0.0)
  {
    GapMoves(e, q, i, g, levels);
    var after := Apply(e, q, levels[i].side, i, levels);
    TwoUpdates(d, levels, g, i, after[g], after[i]);
  }

  /** With virtual levels on, a genuinely filled counter level is ranked out of the window
      whatever the price, so it is parked as virtual and no order is placed by the fill. */
  lemma GapIsNeverInsideWindow(levels: seq<Level>, i: nat, c: nat, price: real, window: nat)
    requires i < |levels| && c < |levels| && levels[c].state == Filled
    ensures !InsideWindow(levels, i, c, price, window)
  {
    TopIsNearest(Prices(levels), price, OpenIds(levels, |levels|, {i}), window);
  }

  /** The other open rows that rank before the counter row. */
  function Nearer(levels: seq<Level>, i: nat, c: nat, price: real): set<nat>
    requires c < |levels|
  {
    set k | 0 <= k < |levels| && k != i && levels[k].state != Filled && Closer(Prices(levels), price, k, c)
  }

  /** The counter row is inside the window exactly when it is open and fewer than `window` of the other
      open rows, the filled one apart, rank before it. */
  lemma InsideExactlyWhen(levels: seq<Level>, i: nat, c: nat, price: real, window: nat)
    requires i < |levels| && c < |levels| && c != i
    ensures InsideWindow(levels, i, c, price, window)
      <==> levels[c].state != Filled && |Nearer(levels, i, c, price)| < window
  {
    var ids := OpenIds(levels, |levels|, {i});
    TopExactlyWhen(Prices(levels), price, ids, window, c);
    assert NearerIds(Prices(levels), price, ids, c) == Nearer(levels, i, c, price);
  }

  /** Beside a natural gap that is among the nearest open rows, a placement that returns puts the
      counter-order there: the row is active, open and on the other side. Farther out it is parked. */
  lemma CounterGoesLive(cfg: Config, i: nat, g: nat, price: real, levels: seq<Level>, o: Placement)
    requires NaturalGap(levels, g) && i < |levels| && NextTo(i, g)
    ensures var after := Handled(cfg, levels[i].side, i, price, levels, levels, o);
      var inside := !cfg.virtualEnabled || |Nearer(levels, i, g, price)| < cfg.window;
      && (inside && Returns(o) ==>
            after[g].state == Active && !after[g].isFilled && after[g].side == Opposite(levels[i].side))
      && (!inside ==>
            after[g].state == Virtual && after[g].orderId == NoId && after[g].side == Opposite(levels[i].side))
  {
    hide InsideWindow, Nearer;
    InsideExactlyWhen(levels, i, g, price, cfg.window);
  }

  /** The row the counter-order goes to: the one above a buy, the one below a sell. */
  ghost predicate Across(levels: seq<Level>, i: nat, c: nat) {
    i < |levels| && c < |levels| && (levels[i].side == Buy ==> c == i + 1) && (levels[i].side == Sell ==> c == i - 1)
  }

  /** The counter row has an order of its own that did not fill. */
  ghost predicate HasOrder(l: Level) {
    l.orderId.Live? && !l.isFilled
  }

  /** What the fill of a row leaves. A counter row with an order of its own keeps it. One outside the
      window takes the other side without an order; one inside takes it once the placement has returned,
      is asked for again when the order was outside the price band, and stays with the whole fill
      undone when the placement failed. No other row changes. */
  lemma FillLeaves(cfg: Config, i: nat, c: nat, price: real, levels: seq<Level>, o: Placement)
    requires Across(levels, i, c)
    ensures var after := Handled(cfg, levels[i].side, i, price, levels, levels, o);
      var inside := !cfg.virtualEnabled || (levels[c].state != Filled && |Nearer(levels, i, c, price)| < cfg.window);
      var placed := o == Accepted || o == BelowNotional || o == OutsideBand;
      && (forall k | 0 <= k < |levels| && k != i && k != c :: after[k] == levels[k])
      && (HasOrder(levels[c]) ==> after[c] == levels[c] && after[i] == levels[i].(isFilled := true))
      && (!HasOrder(levels[c]) && (!inside || placed) ==>
            && after[i] == levels[i].(isFilled := true, state := Filled)
            && after[c].side == Opposite(levels[i].side) && !after[c].isFilled
            && after[c].state == (if inside then Active else Virtual)
            && (inside ==>
                  && after[c].orderId == levels[c].orderId && after[c].quantity == levels[c].quantity
                  && after[c].pendingReplace == (levels[c].pendingReplace || o == OutsideBand))
            && (!inside ==> after[c].orderId == NoId && after[c].quantity == cfg.quantity))
      && (!HasOrder(levels[c]) && inside && !placed ==>
            after[i] == levels[i]
            && after[c] == if o == RetryableError then levels[c].(pendingReplace := true) else levels[c])
  {
    hide InsideWindow, Nearer;
    InsideExactlyWhen(levels, i, c, price, cfg.window);
  }

  /** Two fills of one sweep handled from one stale snapshot: the second counter level still
      shows its old order in the snapshot, so the second lot is bought but never offered. */
  lemma StaleSnapshotLosesALot()
    ensures exists levels: seq<Level>, g: nat ::
      && var cfg := Config(1.0, false, 70);
      && SingleGap(levels, g) && g == 2 && Uniform(levels, 1.0)
      && var once := Handled(cfg, Buy, 1, 3.0, levels, levels, Accepted);
      && var twice := Handled(cfg, Buy, 0, 3.0, levels, once, Accepted);
      && Implied(Long, once) - Implied(Long, levels) == 1.0
      && Implied(Long, twice) == Implied(Long, once)
  {
    var cfg := Config(1.0, false, 70);
    var l0 := Level(1.0, Buy, 1.0, false, Active, Live(0), false);
    var l1 := Level(2.0, Buy, 1.0, false, Active, Live(1), false);
    var l2 := Level(3.0, Buy, 1.0, true, Filled, NoId, false);
    var levels := [l0, l1, l2];
    SingleGapKept(Long, cfg, 1, 2, 3.0, levels, Accepted);
    var once := Handled(cfg, Buy, 1, 3.0, levels, levels, Accepted);
    InventoryUpdate(Long, once, 0, once[0].(isFilled := true));
    assert SingleGap(levels, 2);
  }

  // ----- matching a recovered fill to a level

  /** An unfilled level of the fill's side whose price is within the tolerance. */
  predicate Candidate(levels: seq<Level>, k: nat, side: Side, price: real, tol: real) {
    && k < |levels|
    && !levels[k].isFilled
    && levels[k].side == side
    && Abs(levels[k].price - price) < tol
  }

  /** The level the engine's scan of the first n rows settles on, or -1. */
  function BestMatch(levels: seq<Level>, n: nat, side: Side, price: real, tol: real): (m: int)
    requires n <= |levels|
    ensures -1 <= m < n
  {
    if n == 0 then -1
    else
      var m := BestMatch(levels, n - 1, side, price, tol);
      var level := levels[n-1];
      if !level.isFilled && level.side == side && Abs(level.price - price) < tol
         && (m < 0 || Abs(level.price - price) < Abs(levels[m].price - price)) then n - 1
      else m
  }

  /** The scan finds the nearest candidate, the first one on a tie, whenever there is one. */
  lemma {:induction false} BestMatchIsNearest(levels: seq<Level>, n: nat, side: Side, price: real, tol: real)
    requires n <= |levels|
    ensures var m := BestMatch(levels, n, side, price, tol);
      if m < 0 then forall k: nat | k < n :: !Candidate(levels, k, side, price, tol)
      else
        && Candidate(levels, m, side, price, tol)
        && (forall k: nat | k < n && Candidate(levels, k, side, price, tol) ::
              Abs(levels[m].price - price) <= Abs(levels[k].price - price))
        && (forall k: nat | k < m && Candidate(levels, k, side, price, tol) ::
              Abs(levels[m].price - price) < Abs(levels[k].price - price))
  {
    if n > 0 {
      BestMatchIsNearest(levels, n - 1, side, price, tol);
    }
  }

  predicate Covered(livePrices: seq<real>, price: real, tol: real) {
    exists p :: p in livePrices && Abs(p - price) < tol
  }

  /** A fill is only ever matched to the level it filled: when levels lie at least a tolerance
      apart, a fill at a level's own price has that level as its only candidate. */
  lemma OwnLevelIsTheMatch(levels: seq<Level>, i: nat, tol: real)
    requires i < |levels| && !levels[i].isFilled && tol > 0.0
    requires forall j, k | 0 <= j < k < |levels| :: levels[k].price - levels[j].price >= tol
    ensures BestMatch(levels, |levels|, levels[i].side, levels[i].price, tol) == i
  {
    BestMatchIsNearest(levels, |levels|, levels[i].side, levels[i].price, tol);
    forall k | 0 <= k < |levels| && k != i
      ensures Abs(levels[k].price - levels[i].price) >= tol
    {
      assert k < i ==> levels[i].price - levels[k].price >= tol;
    }
    assert Candidate(levels, i, levels[i].side, levels[i].price, tol);
  }

  datatype RecoveredFill = RecoveredFill(id: nat, price: real, isBuyer: bool)

  function SideOf(f: RecoveredFill): Side {
    if f.isBuyer then Buy else Sell
  }

  /** processedFills after one more id: beyond 200 entries the oldest 100 are dropped. */
  function Remember(seen: seq<nat>, id: nat): (r: seq<nat>)
    ensures id in r
    ensures |seen| <= 200 ==> |r| <= 200
    ensures forall k | 0 <= k < |seen| && |seen| - 100 <= k :: seen[k] in r
  {
    var grown := seen + [id];
    var r := if |grown| > 200 then grown[100..] else grown;
    assert r[|r|-1] == id;
    assert forall k | 0 <= k < |seen| && |seen| - 100 <= k :: seen[k] == r[k + |r| - |grown|];
    r
  }
}
