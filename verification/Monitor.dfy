/**
 One monitor tick over the levels that no order covers: the one nearest to the price becomes the
 natural gap, and the others are recognised as fills, left alone for now, or placed again on the
 side that the price asks for.
 */
module Monitor {
  import opened Collections
  import opened Nearest
  import opened GridLevels
  import opened GridFill
  import opened GridRun
  import opened Rotation

  const MAX_OPEN_ORDERS: nat := 94

  /** What the tick finds out about an uncovered level that is not the gap: a fill that is new, one
      that was handled before or an order placed seconds ago, or nothing, so that it is placed again. */
  datatype Fate = NewFill | LeaveAlone | PlaceAgain(o: Placement)

  function Marked(l: Level): Level {
    l.(isFilled := true, orderId := NoId)
  }

  function SideAt(price: real, p: real): Side {
    if price < p then Buy else Sell
  }

  function PlacedAgain(l: Level, p: real, q: real, o: Placement): Level {
    l.(orderId := ShortZero, isFilled := false, side := SideAt(l.price, p), quantity := q,
       pendingReplace := l.pendingReplace || o == OutsideBand)
  }

  /** The rows, the levels to be handled as filled, and whether the margin stop ended the tick. */
  datatype Ticked = Ticked(levels: seq<Level>, filled: seq<nat>, stopped: bool)

  function TickOne(s: Ticked, k: nat, p: real, q: real, fate: nat -> Fate): Ticked
    requires k < |s.levels|
  {
    if s.stopped then s
    else
      match fate(k)
      case NewFill => s.(filled := s.filled + [k])
      case LeaveAlone => s
      case PlaceAgain(o) => Ticked(s.levels[k := PlacedAgain(s.levels[k], p, q, o)], s.filled, o == MarginStop)
  }

  function TickAll(levels: seq<Level>, ids: seq<nat>, p: real, q: real, fate: nat -> Fate): (r: Ticked)
    requires Indices(ids, |levels|)
    ensures |r.levels| == |levels|
  {
    if ids == [] then Ticked(levels, [], false)
    else TickOne(TickAll(levels, ids[..|ids|-1], p, q, fate), ids[|ids|-1], p, q, fate)
  }

  /** `ranked` are the uncovered levels, nearest first; `open` is the number of open orders. */
  function Tick(levels: seq<Level>, ranked: seq<nat>, open: nat, p: real, q: real, fate: nat -> Fate): (r: Ticked)
    requires Indices(ranked, |levels|)
    ensures |r.levels| == |levels|
  {
    if ranked == [] then Ticked(levels, [], false)
    else
      var marked := levels[ranked[0] := Marked(levels[ranked[0]])];
      if |ranked| > 1 && open < MAX_OPEN_ORDERS then TickAll(marked, ranked[1..], p, q, fate)
      else Ticked(marked, [], false)
  }

  // ----- row by row

  predicate Stops(f: Fate) {
    f == PlaceAgain(MarginStop)
  }

  /** The levels placed again: none after a margin stop. */
  function Again(ids: seq<nat>, fate: nat -> Fate): (r: seq<nat>)
    ensures forall k | k in r :: k in ids && fate(k).PlaceAgain?
  {
    if ids == [] then []
    else
      var n := |ids| - 1;
      assert ids == ids[..n] + [ids[n]];
      var r := Again(ids[..n], fate);
      if fate(ids[n]).PlaceAgain? && (forall k | 0 <= k < n :: !Stops(fate(ids[k]))) then r + [ids[n]] else r
  }

  /** The rows placed again are rewritten, and no other. */
  ghost predicate Rewritten(levels: seq<Level>, again: seq<nat>, p: real, q: real, fate: nat -> Fate, after: seq<Level>) {
    && |after| == |levels|
    && (forall k | k in again :: fate(k).PlaceAgain?)
    && forall k | 0 <= k < |levels| ::
         after[k] == if k in again then PlacedAgain(levels[k], p, q, fate(k).o) else levels[k]
  }

  lemma OneMoreRow(
    levels: seq<Level>, again: seq<nat>, p: real, q: real, fate: nat -> Fate, after: seq<Level>, k: nat)
    requires Rewritten(levels, again, p, q, fate, after) && k < |levels| && k !in again && fate(k).PlaceAgain?
    ensures Rewritten(levels, again + [k], p, q, fate, after[k := PlacedAgain(after[k], p, q, fate(k).o)])
  {
  }

  lemma {:induction false} TickAllRows(levels: seq<Level>, ids: seq<nat>, p: real, q: real, fate: nat -> Fate)
    requires Indices(ids, |levels|)
    requires forall j, k | 0 <= j < k < |ids| :: ids[j] != ids[k]
    ensures var r := TickAll(levels, ids, p, q, fate);
      && (r.stopped <==> exists k :: 0 <= k < |ids| && Stops(fate(ids[k])))
      && Rewritten(levels, Again(ids, fate), p, q, fate, r.levels)
  {
    if ids != [] {
      var n := |ids| - 1;
      TickAllRows(levels, ids[..n], p, q, fate);
      assert ids[n] !in ids[..n];
      assert forall k | 0 <= k < n :: ids[..n][k] == ids[k];
      var before := TickAll(levels, ids[..n], p, q, fate);
      if !before.stopped && fate(ids[n]).PlaceAgain? {
        OneMoreRow(levels, Again(ids[..n], fate), p, q, fate, before.levels, ids[n]);
      }
    }
  }

  /** The levels a tick places again. */
  function Placements(ranked: seq<nat>, open: nat, fate: nat -> Fate): seq<nat> {
    if |ranked| > 1 && open < MAX_OPEN_ORDERS then Again(ranked[1..], fate) else []
  }

  lemma TickRows(levels: seq<Level>, ranked: seq<nat>, open: nat, p: real, q: real, fate: nat -> Fate)
    requires ranked != [] && Indices(ranked, |levels|)
    requires forall j, k | 0 <= j < k < |ranked| :: ranked[j] != ranked[k]
    ensures var r, again := Tick(levels, ranked, open, p, q, fate), Placements(ranked, open, fate);
      && ranked[0] !in again && (forall k | k in again :: k < |levels|)
      && forall k | 0 <= k < |levels| ::
           r.levels[k] == if k == ranked[0] then Marked(levels[k])
                          else if k in again then PlacedAgain(levels[k], p, q, fate(k).o) else levels[k]
  {
    if |ranked| > 1 && open < MAX_OPEN_ORDERS {
      var rest := ranked[1..];
      assert forall k | 0 <= k < |rest| :: rest[k] == ranked[k+1];
      TickAllRows(levels[ranked[0] := Marked(levels[ranked[0]])], rest, p, q, fate);
      assert ranked[0] !in rest;
    }
  }

  /** No margin stop before position j. */
  ghost predicate Unstopped(ids: seq<nat>, fate: nat -> Fate, j: nat)
    requires j <= |ids|
  {
    forall i | 0 <= i < j :: !Stops(fate(ids[i]))
  }

  /** The levels reported as filled: those found so before any margin stop. */
  lemma {:induction false} FilledReported(levels: seq<Level>, ids: seq<nat>, p: real, q: real, fate: nat -> Fate, k: nat)
    requires Indices(ids, |levels|)
    ensures var r := TickAll(levels, ids, p, q, fate);
      && (r.stopped <==> exists j :: 0 <= j < |ids| && Stops(fate(ids[j])))
      && (k in r.filled <==> fate(k) == NewFill && exists j :: 0 <= j < |ids| && ids[j] == k && Unstopped(ids, fate, j))
  {
    if ids != [] {
      var n := |ids| - 1;
      FilledReported(levels, ids[..n], p, q, fate, k);
      assert forall j | 0 <= j < n :: ids[..n][j] == ids[j];
      assert forall j | 0 <= j <= n :: Unstopped(ids[..n], fate, j) <==> Unstopped(ids, fate, j);
    }
  }

  /** A margin stop is passed on exactly when a placement raised it, which needs room for orders; and what
      a row placed again looks like, whatever its placement came to. */
  lemma TickOutcome(levels: seq<Level>, ranked: seq<nat>, open: nat, p: real, q: real, fate: nat -> Fate)
    requires ranked != [] && Indices(ranked, |levels|)
    requires forall j, k | 0 <= j < k < |ranked| :: ranked[j] != ranked[k]
    ensures var r := Tick(levels, ranked, open, p, q, fate);
      r.stopped <==> open < 94 && exists j :: 0 < j < |ranked| && fate(ranked[j]) == PlaceAgain(MarginStop)
    ensures forall k | k in Placements(ranked, open, fate) ::
      && k < |levels|
      && var was, row := levels[k], Tick(levels, ranked, open, p, q, fate).levels[k];
         && row.price == was.price && row.quantity == q && !row.isFilled && row.orderId == ShortZero
         && (row.side == Buy <==> was.price < p)
         && (row.pendingReplace <==> was.pendingReplace || fate(k) == PlaceAgain(OutsideBand))
  {
    TickRows(levels, ranked, open, p, q, fate);
    var rest := ranked[1..];
    if |ranked| > 1 && open < MAX_OPEN_ORDERS {
      assert forall k | 0 <= k < |rest| :: rest[k] == ranked[k+1];
      TickAllRows(levels[ranked[0] := Marked(levels[ranked[0]])], rest, p, q, fate);
      if j :| 0 < j < |ranked| && fate(ranked[j]) == PlaceAgain(MarginStop) {
        assert rest[j-1] == ranked[j] && Stops(fate(rest[j-1]));
      }
    }
  }

  /** A tick without uncovered levels changes nothing. */
  lemma NothingUncovered(levels: seq<Level>, open: nat, p: real, q: real, fate: nat -> Fate)
    ensures Tick(levels, [], open, p, q, fate) == Ticked(levels, [], false)
  {
  }

  // ----- when a tick keeps the drift

  function CountedRows(d: Direction, levels: seq<Level>): set<nat> {
    set k | 0 <= k < |levels| && Counted(d, levels[k])
  }

  lemma CountedStep(d: Direction, levels: seq<Level>)
    requires levels != []
    ensures var n := |levels| - 1;
      |CountedRows(d, levels)| == |CountedRows(d, levels[..n])| + if Counted(d, levels[n]) then 1 else 0
  {
    var n := |levels| - 1;
    var before := CountedRows(d, levels[..n]);
    if Counted(d, levels[n]) {
      assert CountedRows(d, levels) == before + {n};
    } else {
      assert CountedRows(d, levels) == before;
    }
  }

  lemma {:induction false} InventoryIsCount(d: Direction, levels: seq<Level>, q: real)
    requires Uniform(levels, q)
    ensures Inventory(d, levels) == Lots(q, |CountedRows(d, levels)|)
  {
    if levels != [] {
      var n := |levels| - 1;
      InventoryIsCount(d, levels[..n], q);
      CountedStep(d, levels);
    }
  }

  lemma {:induction false} LotsGrow(q: real, m: nat, n: nat)
    requires q > 0.0 && m < n
    ensures Lots(q, m) < Lots(q, n)
  {
    if m + 1 < n {
      LotsGrow(q, m, n - 1);
    }
  }

  lemma SameCount(d: Direction, a: seq<Level>, b: seq<Level>, q: real)
    requires Uniform(a, q) && Uniform(b, q) && q > 0.0
    ensures Implied(d, a) == Implied(d, b) <==> |CountedRows(d, a)| == |CountedRows(d, b)|
  {
    InventoryIsCount(d, a, q);
    InventoryIsCount(d, b, q);
    var m, n := |CountedRows(d, a)|, |CountedRows(d, b)|;
    if m < n {
      LotsGrow(q, m, n);
    } else if n < m {
      LotsGrow(q, n, m);
    }
  }

  /** Levels placed again that were not inventory and are now. */
  function Gained(d: Direction, levels: seq<Level>, again: seq<nat>, p: real): set<nat> {
    set k | 0 <= k < |levels| && k in again && !Counted(d, levels[k]) && SideAt(levels[k].price, p) == InventorySide(d)
  }

  /** Levels that were inventory and are no longer: placed again on the other side, or the new gap when
      it was waiting for its order after having been filled. */
  function Lost(d: Direction, levels: seq<Level>, gap: nat, again: seq<nat>, p: real): set<nat> {
    set k | 0 <= k < |levels| && Counted(d, levels[k])
      && (if k == gap then levels[k].state == Filled else k in again && SideAt(levels[k].price, p) != InventorySide(d))
  }

  lemma CountedAfter(d: Direction, levels: seq<Level>, ranked: seq<nat>, open: nat, p: real, q: real, fate: nat -> Fate)
    requires ranked != [] && Indices(ranked, |levels|)
    requires forall j, k | 0 <= j < k < |ranked| :: ranked[j] != ranked[k]
    ensures var again := Placements(ranked, open, fate);
      && CountedRows(d, Tick(levels, ranked, open, p, q, fate).levels)
           == CountedRows(d, levels) - Lost(d, levels, ranked[0], again, p) + Gained(d, levels, again, p)
      && Lost(d, levels, ranked[0], again, p) <= CountedRows(d, levels)
      && Gained(d, levels, again, p) !! CountedRows(d, levels)
  {
    TickRows(levels, ranked, open, p, q, fate);
  }

  /** A tick over equal quantities keeps the implied position exactly when as many levels become
      inventory as cease to be. */
  lemma TickKeepsExactlyWhen(d: Direction, levels: seq<Level>, ranked: seq<nat>, open: nat, p: real, q: real, fate: nat -> Fate)
    requires ranked != [] && Indices(ranked, |levels|) && Uniform(levels, q) && q > 0.0
    requires forall j, k | 0 <= j < k < |ranked| :: ranked[j] != ranked[k]
    ensures var again := Placements(ranked, open, fate);
      Implied(d, Tick(levels, ranked, open, p, q, fate).levels) == Implied(d, levels)
      <==> |Lost(d, levels, ranked[0], again, p)| == |Gained(d, levels, again, p)|
  {
    var again, after := Placements(ranked, open, fate), Tick(levels, ranked, open, p, q, fate).levels;
    TickRows(levels, ranked, open, p, q, fate);
    CountedAfter(d, levels, ranked, open, p, q, fate);
    SwapSize(CountedRows(d, levels), Lost(d, levels, ranked[0], again, p), Gained(d, levels, again, p));
    SameCount(d, after, levels, q);
  }

  // ----- a fill that the tick takes for the gap

  lemma TwoRows(d: Direction, a: seq<Level>, i: nat, li: Level, j: nat, lj: Level)
    requires i < |a| && j < |a| && i != j
    ensures Inventory(d, a[i := li][j := lj])
      == Inventory(d, a) - Weight(d, a[i]) + Weight(d, li) - Weight(d, a[j]) + Weight(d, lj)
  {
    InventoryUpdate(d, a, i, li);
    InventoryUpdate(d, a[i := li], j, lj);
  }

  /** The order next to the gap filled, and the tick finds the filled level nearer to the price than
      the old gap: it takes the filled level for the natural gap and places an order at the old one. */
  ghost predicate Mistaken(levels: seq<Level>, g: nat, i: nat, p: real) {
    && SingleGap(levels, g) && i < |levels| && NextTo(i, g) && levels[i].state == Active
    && SideAt(levels[g].price, p) == Opposite(levels[i].side)
  }

  function OnlyRow(k: nat): nat -> bool {
    j => j == k
  }

  /** The table after that tick, once the order at the old gap shows up in the coverage sync. */
  function AfterMistake(levels: seq<Level>, g: nat, i: nat, p: real, q: real, o: Placement, id: nat): (r: seq<Level>)
    requires g < |levels| && i < |levels|
    ensures |r| == |levels|
  {
    SyncRows(Tick(levels, [i, g], 0, p, q, _ => PlaceAgain(o)).levels, OnlyRow(g), _ => id, _ => SideAt(levels[g].price, p))
  }

  lemma MistakeRows(levels: seq<Level>, g: nat, i: nat, p: real, q: real, o: Placement, id: nat)
    requires g < |levels| && i < |levels| && g != i
    ensures AfterMistake(levels, g, i, p, q, o, id) ==
      levels[i := Marked(levels[i])]
            [g := PlacedAgain(levels[g], p, q, o).(orderId := Live(id), side := SideAt(levels[g].price, p), state := Active)]
  {
    var fate: nat -> Fate := _ => PlaceAgain(o);
    OneUncovered(levels[i := Marked(levels[i])], g, p, q, fate);
    assert [i, g][1..] == [g];
  }

  lemma OneUncovered(levels: seq<Level>, g: nat, p: real, q: real, fate: nat -> Fate)
    requires g < |levels|
    ensures TickAll(levels, [g], p, q, fate) == TickOne(Ticked(levels, [], false), g, p, q, fate)
  {
    assert [g][..0] == [];
  }

  /** This leaves a natural gap, and loses a lot of drift exactly when the filled level was inventory;
      the first fill handled next to that gap gives exactly this lot back. */
  lemma MistakeIsRepaired(d: Direction, levels: seq<Level>, g: nat, i: nat, p: real, q: real, o: Placement, id: nat)
    requires Mistaken(levels, g, i, p) && Uniform(levels, q) && q > 0.0
    ensures var after := AfterMistake(levels, g, i, p, q, o, id);
      && NaturalGap(after, i) && Uniform(after, q)
      && Implied(d, after) - Implied(d, levels) == Traded(levels[i].side, q) + FirstFillShift(d, q, after, i)
      && (FirstFillShift(d, q, after, i) == 0.0 <==> levels[i].side != InventorySide(d))
  {
    MistakeRows(levels, g, i, p, q, o, id);
    TwoRows(d, levels, i, Marked(levels[i]), g,
            PlacedAgain(levels[g], p, q, o).(orderId := Live(id), side := SideAt(levels[g].price, p), state := Active));
  }

  /** From the table before the fill to the one after that next fill: the drift is what it was. */
  lemma NextFillGivesBack(
    d: Direction, cfg: Config, s: State, g: nat, i: nat, p: real, o: Placement, id: nat, e: Event)
    requires Mistaken(s.levels, g, i, p) && Uniform(s.levels, cfg.quantity) && cfg.quantity > 0.0
    requires var q := cfg.quantity;
      var mid := State(AfterMistake(s.levels, g, i, p, q, o, id), s.position + Traded(s.levels[i].side, q));
      e.Fill? && Allowed(cfg, mid, i, e)
    ensures var q := cfg.quantity;
      var mid := State(AfterMistake(s.levels, g, i, p, q, o, id), s.position + Traded(s.levels[i].side, q));
      SingleGap(Step(cfg, mid, e).levels, e.i) && Drift(d, Step(cfg, mid, e)) == Drift(d, s)
  {
    var q := cfg.quantity;
    var mid := State(AfterMistake(s.levels, g, i, p, q, o, id), s.position + Traded(s.levels[i].side, q));
    MistakeIsRepaired(d, s.levels, g, i, p, q, o, id);
    StepKeeps(d, cfg, mid, i, e);
  }
}
