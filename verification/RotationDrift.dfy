/**
 A rotation at any price: which rows change sides, and what that does to the implied position.
 */
module RotationDrift {
  import opened GridLevels
  import opened GridFill
  import opened Rotation
  import opened Monitor

  /** The activations that are tried: all up to and including the first margin stop. */
  function Tried(ids: seq<nat>, place: nat -> Placement): (r: seq<nat>)
    ensures forall k | k in r :: k in ids
  {
    if ids == [] then []
    else
      var n := |ids| - 1;
      assert ids == ids[..n] + [ids[n]];
      var r := Tried(ids[..n], place);
      if forall k | 0 <= k < n :: place(ids[k]) != MarginStop then r + [ids[n]] else r
  }

  /** The tried rows take the side of the price; every row stays as filled as it was. */
  ghost predicate Sided(before: seq<Level>, tried: seq<nat>, p: real, after: seq<Level>) {
    && |after| == |before|
    && (forall k | k in tried :: k < |before|)
    && forall k | 0 <= k < |before| ::
      && after[k].price == before[k].price
      && (GenuinelyFilled(after[k]) <==> GenuinelyFilled(before[k]))
      && after[k].side == if k in tried then SideAt(before[k].price, p) else before[k].side
  }

  lemma OneMoreTried(before: seq<Level>, tried: seq<nat>, p: real, q: real, s: Placed, k: nat, place: nat -> Placement)
    requires Sided(before, tried, p, s.levels) && Uniform(s.levels, q) && !s.stopped
    requires k < |before| && !GenuinelyFilled(before[k])
    ensures var r := ActivateOne(s, k, p, q, place);
      Sided(before, tried + [k], p, r.levels) && Uniform(r.levels, q) && (r.stopped <==> place(k) == MarginStop)
  {
  }

  lemma {:induction false} ActivatedSides(levels: seq<Level>, ids: seq<nat>, p: real, q: real, place: nat -> Placement)
    requires Indices(ids, |levels|) && Uniform(levels, q)
    requires forall k | 0 <= k < |ids| :: !GenuinelyFilled(levels[ids[k]])
    ensures var r := ActivateAll(levels, ids, p, q, place);
      && Sided(levels, Tried(ids, place), p, r.levels) && Uniform(r.levels, q)
      && (r.stopped <==> exists k :: 0 <= k < |ids| && place(ids[k]) == MarginStop)
  {
    if ids != [] {
      var n := |ids| - 1;
      ActivatedSides(levels, ids[..n], p, q, place);
      assert forall k | 0 <= k < n :: ids[..n][k] == ids[k];
      var s := ActivateAll(levels, ids[..n], p, q, place);
      if !s.stopped {
        OneMoreTried(levels, Tried(ids[..n], place), p, q, s, ids[n], place);
      }
    }
  }

  lemma {:induction false} ParkedSides(levels: seq<Level>, ids: seq<nat>, p: real, q: real)
    requires Indices(ids, |levels|) && Uniform(levels, q)
    requires forall k | 0 <= k < |ids| :: !GenuinelyFilled(levels[ids[k]])
    ensures Sided(levels, [], p, VirtualizeAll(levels, ids)) && Uniform(VirtualizeAll(levels, ids), q)
  {
    if ids != [] {
      var n := |ids| - 1;
      ParkedSides(levels, ids[..n], p, q);
      assert forall k | 0 <= k < n :: ids[..n][k] == ids[k];
    }
  }

  /** The rows that a rotation turns to the price's side. */
  function Turned(cfg: Config, levels: seq<Level>, p: real, open: nat, place: nat -> Placement): (r: seq<nat>)
    ensures forall k | k in r :: k < |levels|
  {
    var ids := Activations(cfg, levels, p, open);
    assert forall k | k in ids :: k < |levels|;
    Tried(ids, place)
  }

  lemma RotatedSides(cfg: Config, levels: seq<Level>, p: real, open: nat, place: nat -> Placement)
    requires Uniform(levels, cfg.quantity)
    ensures var after := Rotated(cfg, levels, p, open, place).levels;
      Sided(levels, Turned(cfg, levels, p, open, place), p, after) && Uniform(after, cfg.quantity)
    ensures forall k | k in Turned(cfg, levels, p, open, place) :: !GenuinelyFilled(levels[k])
  {
    TouchedRows(cfg, levels, p, open);
    var out, in_ := Cancels(cfg, levels, p), Activations(cfg, levels, p, open);
    assert forall k | 0 <= k < |out| :: out[k] in out;
    assert forall k | 0 <= k < |in_| :: in_[k] in in_;
    ParkedSides(levels, out, p, cfg.quantity);
    ActivatedSides(VirtualizeAll(levels, out), in_, p, cfg.quantity, place);
  }

  /** A rotation at any price keeps every side exactly when each row it tries to activate already has
      the side that the price gives it. */
  lemma SidesKeptExactlyWhen(cfg: Config, levels: seq<Level>, p: real, open: nat, place: nat -> Placement)
    requires Uniform(levels, cfg.quantity)
    ensures var after := Rotated(cfg, levels, p, open, place).levels;
      (forall k | 0 <= k < |levels| :: after[k].side == levels[k].side)
      <==> forall k | k in Turned(cfg, levels, p, open, place) :: levels[k].side == SideAt(levels[k].price, p)
  {
    RotatedSides(cfg, levels, p, open, place);
  }

  function IntoInventory(d: Direction, levels: seq<Level>, turned: seq<nat>, p: real): set<nat> {
    set k | 0 <= k < |levels| && k in turned && levels[k].side != InventorySide(d)
            && SideAt(levels[k].price, p) == InventorySide(d)
  }

  function OutOfInventory(d: Direction, levels: seq<Level>, turned: seq<nat>, p: real): set<nat> {
    set k | 0 <= k < |levels| && k in turned && levels[k].side == InventorySide(d)
            && SideAt(levels[k].price, p) != InventorySide(d)
  }

  lemma CountedTurned(d: Direction, levels: seq<Level>, turned: seq<nat>, p: real, after: seq<Level>)
    requires Sided(levels, turned, p, after) && forall k | k in turned :: !GenuinelyFilled(levels[k])
    ensures CountedRows(d, after)
      == CountedRows(d, levels) - OutOfInventory(d, levels, turned, p) + IntoInventory(d, levels, turned, p)
    ensures OutOfInventory(d, levels, turned, p) <= CountedRows(d, levels)
    ensures IntoInventory(d, levels, turned, p) !! CountedRows(d, levels)
  {
  }

  /** And it keeps the implied position exactly when it turns as many rows into inventory as out of it. */
  lemma ImpliedKeptExactlyWhen(d: Direction, cfg: Config, levels: seq<Level>, p: real, open: nat, place: nat -> Placement)
    requires Uniform(levels, cfg.quantity) && cfg.quantity > 0.0
    ensures var turned := Turned(cfg, levels, p, open, place);
      Implied(d, Rotated(cfg, levels, p, open, place).levels) == Implied(d, levels)
      <==> |IntoInventory(d, levels, turned, p)| == |OutOfInventory(d, levels, turned, p)|
  {
    var turned, after := Turned(cfg, levels, p, open, place), Rotated(cfg, levels, p, open, place).levels;
    RotatedSides(cfg, levels, p, open, place);
    CountedTurned(d, levels, turned, p, after);
    SwapSize(CountedRows(d, levels), OutOfInventory(d, levels, turned, p), IntoInventory(d, levels, turned, p));
    SameCount(d, after, levels, cfg.quantity);
  }
}
