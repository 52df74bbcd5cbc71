/**
 Row by row: which rows a rotation touches, in which order, and what it leaves in them.
 */
module RotationRows {
  import Collections
  import opened Nearest
  import opened GridLevels
  import opened GridFill
  import opened Rotation
  import opened RotationDrift

  /** How many open rows are nearer to the price than row k, or as near and before it. */
  function Ahead(levels: seq<Level>, p: real, k: nat): nat
    requires k < |levels|
  {
    |NearerIds(Prices(levels), p, Rotatable(levels), k)|
  }

  /** Each row of the list is nearer to the price than the ones after it. */
  ghost predicate NearestFirst(levels: seq<Level>, p: real, ids: seq<nat>)
    requires Indices(ids, |levels|)
  {
    forall j, k | 0 <= j < k < |ids| :: Closer(Prices(levels), p, ids[j], ids[k])
  }

  lemma OneRanked(levels: seq<Level>, p: real, front: seq<nat>, r: seq<nat>, last: nat)
    requires Indices(front, |levels|) && Indices(r, |levels|) && last < |levels|
    requires NearestFirst(levels, p, front + [last]) && NearestFirst(levels, p, r)
    requires forall x | x in r :: x in front
    ensures Indices(r + [last], |levels|) && NearestFirst(levels, p, r + [last])
  {
    hide Closer;
    forall j | 0 <= j < |r| ensures Closer(Prices(levels), p, r[j], last) {
      assert r[j] in front;
      var i :| 0 <= i < |front| && front[i] == r[j];
      assert (front + [last])[i] == r[j] && (front + [last])[|front|] == last;
    }
  }

  lemma FrontRanked(levels: seq<Level>, p: real, front: seq<nat>, last: nat)
    requires Indices(front + [last], |levels|) && NearestFirst(levels, p, front + [last])
    ensures last < |levels| && Indices(front, |levels|) && NearestFirst(levels, p, front)
  {
    hide Closer;
    var all := front + [last];
    assert all[|front|] == last && forall k | 0 <= k < |front| :: all[k] == front[k];
  }

  lemma {:induction false} SelectKeepsOrder(levels: seq<Level>, p: real, ranked: seq<nat>, s: set<nat>)
    requires Indices(ranked, |levels|) && NearestFirst(levels, p, ranked)
    ensures Indices(Select(ranked, s), |levels|) && NearestFirst(levels, p, Select(ranked, s))
  {
    if ranked != [] {
      hide NearestFirst, Indices;
      var n := |ranked| - 1;
      var front := ranked[..n];
      assert front + [ranked[n]] == ranked;
      FrontRanked(levels, p, front, ranked[n]);
      SelectKeepsOrder(levels, p, front, s);
      if ranked[n] in s {
        OneRanked(levels, p, front, Select(front, s), ranked[n]);
      }
    }
  }

  lemma RankedRows(levels: seq<Level>, p: real)
    ensures var ranked := ByDistance(Prices(levels), p, Rotatable(levels));
      && Indices(ranked, |levels|) && NearestFirst(levels, p, ranked)
      && forall k :: k in ranked <==> k in Rotatable(levels)
  {
    var ids := Rotatable(levels);
    var ranked := ByDistance(Prices(levels), p, ids);
    ByDistanceRanks(Prices(levels), p, ids);
    Collections.SameElements(ranked, ids);
    assert forall k | 0 <= k < |ranked| :: ranked[k] in ranked;
  }

  /** An order is taken off an active row that has one, and put on a virtual row, exactly as the row is
      outside or inside the window of the m nearest open rows; both lists are nearest first. */
  lemma PlannedExactlyWhen(levels: seq<Level>, p: real, m: nat, k: nat)
    requires k < |levels|
    ensures k in ToVirtualize(levels, p, m) <==>
      levels[k].state == Active && (levels[k].orderId.Live? || levels[k].orderId.LongZero?) && Ahead(levels, p, k) >= m
    ensures k in ToActivate(levels, p, m) <==> levels[k].state == Virtual && Ahead(levels, p, k) < m
    ensures NearestFirst(levels, p, ToVirtualize(levels, p, m)) && NearestFirst(levels, p, ToActivate(levels, p, m))
  {
    hide ByDistance, OpenIds, Top, NearerIds, Closer, Select;
    var ranked := ByDistance(Prices(levels), p, Rotatable(levels));
    RankedRows(levels, p);
    TopExactlyWhen(Prices(levels), p, Rotatable(levels), m, k);
    SelectKeepsOrder(levels, p, ranked,
      set j | 0 <= j < |levels| && j !in Wanted(levels, p, m) && levels[j].state == Active && Rotation.HasOrder(levels[j]));
    SelectKeepsOrder(levels, p, ranked, set j | 0 <= j < |levels| && j in Wanted(levels, p, m) && levels[j].state == Virtual);
  }

  /** A row that was to be activated: on the side of the price with the bot's quantity, waiting for its id
      when the placement returned, and parked again when it failed. */
  ghost predicate PlacedRow(was: Level, row: Level, p: real, q: real, o: Placement) {
    && row.price == was.price && (row.side == Buy <==> was.price < p) && row.quantity == q && !row.isFilled
    && (if o == Accepted || o == BelowNotional || o == OutsideBand then
          row.state == Active && row.orderId == ShortZero
          && (row.pendingReplace <==> was.pendingReplace || o == OutsideBand)
        else row.state == Virtual && row.orderId == NoId && row.pendingReplace == was.pendingReplace)
  }

  ghost predicate TakenOff(was: Level, row: Level) {
    row == was.(state := Virtual, orderId := NoId) && row.orderId == NoId && row.state == Virtual
  }

  lemma {:induction false} ActivatedRow(
    levels: seq<Level>, ids: seq<nat>, p: real, q: real, place: nat -> Placement, k: nat)
    requires Indices(ids, |levels|) && k < |levels|
    requires forall i, j | 0 <= i < j < |ids| :: ids[i] != ids[j]
    ensures var r := ActivateAll(levels, ids, p, q, place);
      && (r.stopped <==> exists j :: 0 <= j < |ids| && place(ids[j]) == MarginStop)
      && (if k in Tried(ids, place) then PlacedRow(levels[k], r.levels[k], p, q, place(k)) else r.levels[k] == levels[k])
  {
    if ids != [] {
      var n := |ids| - 1;
      ActivatedRow(levels, ids[..n], p, q, place, k);
      assert forall j | 0 <= j < n :: ids[..n][j] == ids[j];
      assert ids[n] !in ids[..n];
    }
  }

  /** What a rotation leaves: the cancelled rows are off the exchange whatever became of the cancel, the
      rows tried up to the first margin stop hold what their placement left, the others are untouched. */
  lemma RowsAfter(cfg: Config, levels: seq<Level>, p: real, open: nat, place: nat -> Placement, k: nat)
    requires k < |levels|
    ensures var row := Rotated(cfg, levels, p, open, place).levels[k];
      if k in Tried(Activations(cfg, levels, p, open), place) then PlacedRow(levels[k], row, p, cfg.quantity, place(k))
      else if k in Cancels(cfg, levels, p) then TakenOff(levels[k], row)
      else row == levels[k]
    ensures Rotated(cfg, levels, p, open, place).stopped <==>
      exists j :: 0 <= j < |Activations(cfg, levels, p, open)| && place(Activations(cfg, levels, p, open)[j]) == MarginStop
  {
    var out, in_ := Cancels(cfg, levels, p), Activations(cfg, levels, p, open);
    TouchedRows(cfg, levels, p, open);
    VirtualizeAllRows(levels, out);
    ActivatedRow(VirtualizeAll(levels, out), in_, p, cfg.quantity, place, k);
  }
}
