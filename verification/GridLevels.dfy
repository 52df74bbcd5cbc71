/**
 The grid_levels rows of one bot and the inventory they imply.

 Rows are kept in level_index order, so a row's index in the sequence is its level_index
 and stands for its id as well.
 */
module GridLevels {
  import opened Nearest
  import opened Numbers

  datatype Direction = Long | Short

  datatype Side = Buy | Sell

  /** A row whose state column is undefined is treated as active everywhere in the engine. */
  datatype LevelState = Active | Virtual | Filled

  /** NoId is null or the empty string; the two zero ids are what GRVT returns on create. */
  datatype OrderId = NoId | ShortZero | LongZero | Live(id: nat)

  datatype Level = Level(
    price: real, side: Side, quantity: real, isFilled: bool, state: LevelState,
    orderId: OrderId, pendingReplace: bool)

  function Opposite(s: Side): Side {
    if s == Buy then Sell else Buy
  }

  /** The side whose open levels are take-profit inventory. */
  function InventorySide(d: Direction): Side {
    if d == Long then Sell else Buy
  }

  /** The monitor's natural gap is marked is_filled but keeps its state. */
  predicate GenuinelyFilled(l: Level) {
    l.isFilled && l.state == Filled
  }

  predicate Counted(d: Direction, l: Level) {
    l.side == InventorySide(d) && !GenuinelyFilled(l)
  }

  function Weight(d: Direction, l: Level): real {
    if Counted(d, l) then l.quantity else 0.0
  }

  function Inventory(d: Direction, levels: seq<Level>): real {
    if levels == [] then 0.0
    else Inventory(d, levels[..|levels|-1]) + Weight(d, levels[|levels|-1])
  }

  /** The signed position the grid says the bot must be holding. */
  function Implied(d: Direction, levels: seq<Level>): real {
    if d == Long then Inventory(d, levels) else -Inventory(d, levels)
  }

  function Prices(levels: seq<Level>): (r: seq<real>)
    ensures |r| == |levels|
    ensures forall k | 0 <= k < |levels| :: r[k] == levels[k].price
  {
    seq(|levels|, k requires 0 <= k < |levels| => levels[k].price)
  }

  /** The indices below n that may carry an order: not in state filled, and not `skip`. */
  function OpenIds(levels: seq<Level>, n: nat, skip: set<nat>): (ids: seq<nat>)
    requires n <= |levels|
    ensures forall k | 0 <= k < |ids| :: ids[k] < n
    ensures Ascending(ids)
    ensures forall k :: k in ids <==> 0 <= k < n && levels[k].state != Filled && k !in skip
  {
    if n == 0 then []
    else
      var ids := OpenIds(levels, n - 1, skip);
      if levels[n-1].state != Filled && n - 1 !in skip then ids + [n-1] else ids
  }

  /** Replacing one row moves the inventory by the difference of the two weights. */
  lemma {:induction false} InventoryUpdate(d: Direction, levels: seq<Level>, i: nat, l: Level)
    requires i < |levels|
    ensures Inventory(d, levels[i := l]) == Inventory(d, levels) - Weight(d, levels[i]) + Weight(d, l)
  {
    var n := |levels| - 1;
    if i < n {
      InventoryUpdate(d, levels[..n], i, l);
      assert levels[i := l][..n] == levels[..n][i := l];
    } else {
      assert levels[i := l][..n] == levels[..n];
    }
  }

  /** The smallest positive level quantity, or the fallback when no level has one. */
  ghost predicate IsMinQuantity(levels: seq<Level>, fallback: real, q: real) {
    || (q == fallback && forall k | 0 <= k < |levels| :: levels[k].quantity <= 0.0)
    || (&& q > 0.0
        && (exists k :: 0 <= k < |levels| && levels[k].quantity == q)
        && (forall k | 0 <= k < |levels| :: levels[k].quantity > 0.0 ==> q <= levels[k].quantity))
  }

  function DriftTolerance(minQty: real, factor: real): real {
    Max(minQty * factor, 0.000000001)
  }

  /** A gap that is more than the given share of a level, and not a rounding error. */
  predicate Beyond(gap: real, minQty: real, factor: real) {
    gap > minQty * factor && gap > 0.000000001
  }

  lemma BeyondTolerance(gap: real, minQty: real, factor: real)
    ensures Beyond(gap, minQty, factor) <==> gap > DriftTolerance(minQty, factor)
  {
  }

  lemma MinQuantityStep(levels: seq<Level>, i: nat, fallback: real, was: real, q: real)
    requires i < |levels| && IsMinQuantity(levels[..i], fallback, was)
    requires var x := levels[i].quantity;
      q == if x > 0.0 && ((forall k | 0 <= k < i :: levels[k].quantity <= 0.0) || x < was) then x else was
    ensures IsMinQuantity(levels[..i+1], fallback, q)
  {
    var a, b := levels[..i], levels[..i+1];
    assert b == a + [levels[i]];
    if q != was {
      assert b[i].quantity == q;
    } else if exists k :: 0 <= k < i && a[k].quantity == q {
      var k :| 0 <= k < i && a[k].quantity == q;
      assert b[k].quantity == q;
    }
  }

  /** checkPositionDrift: compare the live position with the implied one; alert only. */
  method CheckPositionDrift(
    d: Direction, levels: seq<Level>, liveSize: real, quantityPerLevel: real, toleranceFactor: real)
    returns (drift: bool, minQty: real)
    ensures IsMinQuantity(levels, quantityPerLevel, minQty)
    ensures drift <==> Beyond(Abs(liveSize - Implied(d, levels)), minQty, toleranceFactor)
  {
    hide Beyond, DriftTolerance;
    var expectedAbs, seen := 0.0, false;
    minQty := quantityPerLevel;
    for i := 0 to |levels|
      invariant expectedAbs == Inventory(d, levels[..i])
      invariant IsMinQuantity(levels[..i], quantityPerLevel, minQty)
      invariant seen <==> exists k :: 0 <= k < i && levels[k].quantity > 0.0
    {
      var l := levels[i];
      var was := minQty;
      if l.quantity > 0.0 && (!seen || l.quantity < minQty) {
        minQty, seen := l.quantity, true;
      }
      MinQuantityStep(levels, i, quantityPerLevel, was, minQty);
      assert levels[..i+1][..i] == levels[..i];
      if l.side == InventorySide(d) && !(l.isFilled && l.state == Filled) {
        expectedAbs := expectedAbs + l.quantity;
      }
    }
    assert levels[..|levels|] == levels;
    var expected := if d == Short then -expectedAbs else expectedAbs;
    assert expected == Implied(d, levels);
    drift := Abs(liveSize - expected) > DriftTolerance(minQty, toleranceFactor);
    BeyondTolerance(Abs(liveSize - expected), minQty, toleranceFactor);
  }
}
