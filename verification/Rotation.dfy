/**
 Virtual grids: sliding the window of active levels after the price.

 Only the M levels nearest to the price keep an order on the exchange. One rotation cancels
 at most five orders that fell out of the window and then places at most five that came in.
 `Rotated` is one rotation as a function; the engine method refines it.
 */
module Rotation {
  import opened Collections
  import opened Nearest
  import opened GridLevels
  import opened GridFill

  const MAX_OPS_PER_TICK: nat := 5

  predicate HasOrder(l: Level) {
    l.orderId.Live? || l.orderId.LongZero?
  }

  function Rotatable(levels: seq<Level>): seq<nat> {
    OpenIds(levels, |levels|, {})
  }

  /** The m rows that should be active at price p. */
  function Wanted(levels: seq<Level>, p: real, m: nat): set<nat> {
    Top(Prices(levels), p, Rotatable(levels), m)
  }

  /** The ids of `ranked` that lie in s, in ranked order. */
  function Select(ranked: seq<nat>, s: set<nat>): (r: seq<nat>)
    ensures forall x :: x in r <==> x in ranked && x in s
    ensures (forall j, k | 0 <= j < k < |ranked| :: ranked[j] != ranked[k]) ==>
              forall j, k | 0 <= j < k < |r| :: r[j] != r[k]
    ensures |r| <= |ranked|
  {
    if ranked == [] then []
    else
      var last := ranked[|ranked|-1];
      var r := Select(ranked[..|ranked|-1], s);
      assert ranked == ranked[..|ranked|-1] + [last];
      if last in s then r + [last] else r
  }

  predicate Indices(ids: seq<nat>, n: nat) {
    forall k | 0 <= k < |ids| :: ids[k] < n
  }

  function ToVirtualize(levels: seq<Level>, p: real, m: nat): (r: seq<nat>)
    ensures Indices(r, |levels|)
  {
    var r := Select(ByDistance(Prices(levels), p, Rotatable(levels)),
                    set k | 0 <= k < |levels| && k !in Wanted(levels, p, m) && levels[k].state == Active && HasOrder(levels[k]));
    assert forall k | 0 <= k < |r| :: r[k] in r;
    r
  }

  function ToActivate(levels: seq<Level>, p: real, m: nat): (r: seq<nat>)
    ensures Indices(r, |levels|)
  {
    var r := Select(ByDistance(Prices(levels), p, Rotatable(levels)),
                    set k | 0 <= k < |levels| && k in Wanted(levels, p, m) && levels[k].state == Virtual);
    assert forall k | 0 <= k < |r| :: r[k] in r;
    r
  }

  function AtMost(ids: seq<nat>, n: nat): (r: seq<nat>)
    ensures |r| <= n && r <= ids
    ensures r == [] ==> ids == [] || n == 0
  {
    if |ids| <= n then ids else ids[..n]
  }

  function Parked(l: Level): Level {
    l.(state := Virtual, orderId := NoId)
  }

  function Activated(l: Level, p: real, q: real): Level {
    l.(state := Active, orderId := ShortZero, side := if l.price < p then Buy else Sell, quantity := q, isFilled := false)
  }

  function VirtualizeAll(levels: seq<Level>, ids: seq<nat>): (r: seq<Level>)
    requires Indices(ids, |levels|)
    ensures |r| == |levels|
  {
    if ids == [] then levels
    else
      var n := |ids| - 1;
      var r := VirtualizeAll(levels, ids[..n]);
      r[ids[n] := Parked(r[ids[n]])]
  }

  /** The rows, how many orders went live, and whether the margin stop ended the rotation. */
  datatype Placed = Placed(levels: seq<Level>, orders: nat, stopped: bool)

  /** Activate one row: an error other than the margin stop parks it again. */
  function ActivateOne(s: Placed, k: nat, p: real, q: real, place: nat -> Placement): Placed
    requires k < |s.levels|
  {
    var row := Activated(s.levels[k], p, q);
    if s.stopped then s
    else if Returns(place(k)) then
      var pending := row.(pendingReplace := row.pendingReplace || place(k) == OutsideBand);
      Placed(s.levels[k := pending], if place(k) == Accepted then s.orders + 1 else s.orders, false)
    else Placed(s.levels[k := Parked(row)], s.orders, place(k) == MarginStop)
  }

  function ActivateAll(levels: seq<Level>, ids: seq<nat>, p: real, q: real, place: nat -> Placement): (r: Placed)
    requires Indices(ids, |levels|)
    ensures |r.levels| == |levels|
    ensures r.orders <= |ids|
  {
    if ids == [] then Placed(levels, 0, false)
    else
      var n := |ids| - 1;
      ActivateOne(ActivateAll(levels, ids[..n], p, q, place), ids[n], p, q, place)
  }

  /** How many of the cancels got through to the exchange; the rows are parked either way. */
  function Cancelled(ids: seq<nat>, cancelOk: nat -> bool): (r: nat)
    ensures r <= |ids|
  {
    if ids == [] then 0
    else Cancelled(ids[..|ids|-1], cancelOk) + if cancelOk(ids[|ids|-1]) then 1 else 0
  }

  function Headroom(m: nat, open: nat, virtualized: nat): nat {
    if m + virtualized > open then m + virtualized - open else 0
  }

  function Cancels(cfg: Config, levels: seq<Level>, p: real): (r: seq<nat>)
    ensures Indices(r, |levels|) && |r| <= MAX_OPS_PER_TICK
  {
    AtMost(ToVirtualize(levels, p, cfg.window), MAX_OPS_PER_TICK)
  }

  function Activations(cfg: Config, levels: seq<Level>, p: real, open: nat): (r: seq<nat>)
    ensures Indices(r, |levels|)
    ensures |r| <= MAX_OPS_PER_TICK && |r| <= Headroom(cfg.window, open, |Cancels(cfg, levels, p)|)
  {
    var headroom := Headroom(cfg.window, open, |Cancels(cfg, levels, p)|);
    AtMost(ToActivate(levels, p, cfg.window), if headroom < MAX_OPS_PER_TICK then headroom else MAX_OPS_PER_TICK)
  }

  function Rotated(cfg: Config, levels: seq<Level>, p: real, open: nat, place: nat -> Placement): (r: Placed)
    ensures |r.levels| == |levels|
  {
    ActivateAll(VirtualizeAll(levels, Cancels(cfg, levels, p)), Activations(cfg, levels, p, open), p, cfg.quantity, place)
  }

  /** Orders resting on the exchange after one rotation that started from `open` of them. */
  function OpenAfter(
    cfg: Config, levels: seq<Level>, p: real, open: nat, cancelOk: nat -> bool, place: nat -> Placement): int
  {
    open - Cancelled(Cancels(cfg, levels, p), cancelOk) + Rotated(cfg, levels, p, open, place).orders
  }

  function Failed(cfg: Config, levels: seq<Level>, p: real, cancelOk: nat -> bool): nat {
    |Cancels(cfg, levels, p)| - Cancelled(Cancels(cfg, levels, p), cancelOk)
  }

  // ----- the order cap

  /** Whatever the placements do, a rotation ends with at most max(M, before) orders plus the
      cancels that failed; with no failed cancel the cap itself holds. */
  lemma CapKept(cfg: Config, levels: seq<Level>, p: real, open: nat, cancelOk: nat -> bool, place: nat -> Placement)
    ensures var cap := if open > cfg.window then open else cfg.window;
      OpenAfter(cfg, levels, p, open, cancelOk, place) <= cap + Failed(cfg, levels, p, cancelOk)
  {
    assert Rotated(cfg, levels, p, open, place).orders <= |Activations(cfg, levels, p, open)|;
  }

  function Spare(m: nat, open: nat): nat {
    if m > open then m - open else 0
  }

  function AcceptAll(k: nat): Placement {
    Accepted
  }

  lemma MostOrders(cfg: Config, levels: seq<Level>, p: real, open: nat)
    ensures Rotated(cfg, levels, p, open, AcceptAll).orders == |Activations(cfg, levels, p, open)|
  {
    RotatedRows(cfg, levels, p, open, AcceptAll);
  }

  lemma OrdersBounded(cfg: Config, levels: seq<Level>, p: real, open: nat, place: nat -> Placement)
    ensures Rotated(cfg, levels, p, open, place).orders <= |Activations(cfg, levels, p, open)|
  {
  }

  /** The cap holds whatever the placements do exactly when the planned activations and the
      failed cancels fit into the planned cancels and the spare room. */
  lemma CapExactly(cfg: Config, levels: seq<Level>, p: real, open: nat, cancelOk: nat -> bool)
    ensures var cap := if open > cfg.window then open else cfg.window;
      (forall place: nat -> Placement :: OpenAfter(cfg, levels, p, open, cancelOk, place) <= cap)
      <==> |Activations(cfg, levels, p, open)| + Failed(cfg, levels, p, cancelOk)
             <= |Cancels(cfg, levels, p)| + Spare(cfg.window, open)
  {
    var cap := if open > cfg.window then open else cfg.window;
    WorstCase(cfg, levels, p, open, cancelOk);
    var worst := OpenAfter(cfg, levels, p, open, cancelOk, AcceptAll);
    if worst <= cap {
      forall place: nat -> Placement ensures OpenAfter(cfg, levels, p, open, cancelOk, place) <= cap {
        NoWorse(cfg, levels, p, open, cancelOk, place);
      }
    }
  }

  /** With every placement accepted a rotation leaves the most orders open. */
  lemma WorstCase(cfg: Config, levels: seq<Level>, p: real, open: nat, cancelOk: nat -> bool)
    ensures OpenAfter(cfg, levels, p, open, cancelOk, AcceptAll)
      == open - |Cancels(cfg, levels, p)| + Failed(cfg, levels, p, cancelOk) + |Activations(cfg, levels, p, open)|
  {
    MostOrders(cfg, levels, p, open);
  }

  lemma NoWorse(cfg: Config, levels: seq<Level>, p: real, open: nat, cancelOk: nat -> bool, place: nat -> Placement)
    ensures OpenAfter(cfg, levels, p, open, cancelOk, place) <= OpenAfter(cfg, levels, p, open, cancelOk, AcceptAll)
  {
    MostOrders(cfg, levels, p, open);
    OrdersBounded(cfg, levels, p, open, place);
  }

  /** A cancel that fails parks its row all the same, so the next activation overfills a window
      of one. */
  lemma FailedCancelOverfills()
    ensures exists cfg: Config, levels: seq<Level> ::
      && cfg.window == 1 && |ActiveRows(levels)| == 1
      && OpenAfter(cfg, levels, 9.0, 1, _ => false, _ => Accepted) == 2
  {
    var cfg := Config(1.0, true, 1);
    var far := Level(1.0, Buy, 1.0, false, Active, Live(7), false);
    var near := Level(9.0, Buy, 1.0, false, Virtual, NoId, false);
    var levels := [far, near];
    assert ActiveRows(levels) == {0};
    var out, in_ := Cancels(cfg, levels, 9.0), Activations(cfg, levels, 9.0, 1);
    NearOnly(levels, 9.0);
    OnlyChoices(cfg, levels, 9.0);
    var accept: nat -> Placement := _ => Accepted;
    RotatedRows(cfg, levels, 9.0, 1, accept);
    assert Cancelled(out, _ => false) == 0;
  }

  lemma NearOnly(levels: seq<Level>, p: real)
    requires |levels| == 2 && levels[0].state != Filled && levels[1].state != Filled
    requires Closer(Prices(levels), p, 1, 0)
    ensures Wanted(levels, p, 1) == {1}
  {
    var want := Wanted(levels, p, 1);
    TopIsNearest(Prices(levels), p, Rotatable(levels), 1);
    assert 0 in Rotatable(levels) && 1 in Rotatable(levels);
    var w :| w in want;
    assert w in Rotatable(levels);
    OneElement(want, 1);
  }

  lemma OnlyChoices(cfg: Config, levels: seq<Level>, p: real)
    requires cfg.window == 1 && |levels| == 2
    requires levels[0].state == Active && HasOrder(levels[0]) && levels[1].state == Virtual
    requires Wanted(levels, p, 1) == {1}
    ensures Cancels(cfg, levels, p) == [0] && Activations(cfg, levels, p, 1) == [1]
  {
    RankedIds(levels, p);
    assert 0 in Rotatable(levels) && 1 in Rotatable(levels);
    assert 0 in ToVirtualize(levels, p, 1) && 1 in ToActivate(levels, p, 1);
    TouchedRows(cfg, levels, p, 1);
    OneChoice(Cancels(cfg, levels, p), 0);
    OneChoice(Activations(cfg, levels, p, 1), 1);
  }

  lemma OneChoice(ids: seq<nat>, x: nat)
    requires ids != [] && forall k | k in ids :: k == x
    requires forall j, k | 0 <= j < k < |ids| :: ids[j] != ids[k]
    ensures ids == [x]
  {
    assert forall k | 0 <= k < |ids| :: ids[k] in ids;
    ElementsSize(ids);
    assert Elements(ids) == {x};
  }

  lemma OneElement(s: set<nat>, x: nat)
    requires |s| == 1 && x in s
    ensures s == {x}
  {
    assert |s - {x}| == 0;
  }

  // ----- convergence at a fixed price

  ghost predicate SameShape(a: seq<Level>, b: seq<Level>) {
    && |a| == |b|
    && forall k | 0 <= k < |a| :: a[k].price == b[k].price && (a[k].state == Filled <==> b[k].state == Filled)
  }

  lemma {:induction false} SameOpenIds(a: seq<Level>, b: seq<Level>, n: nat)
    requires SameShape(a, b) && n <= |a|
    ensures OpenIds(a, n, {}) == OpenIds(b, n, {})
  {
    if n > 0 {
      SameOpenIds(a, b, n - 1);
    }
  }

  lemma SameWanted(a: seq<Level>, b: seq<Level>, p: real, m: nat)
    requires SameShape(a, b)
    ensures Wanted(a, p, m) == Wanted(b, p, m)
  {
    SameOpenIds(a, b, |a|);
    assert Prices(a) == Prices(b);
  }

  function ActiveRows(levels: seq<Level>): set<nat> {
    set k | 0 <= k < |levels| && levels[k].state == Active
  }

  /** Rows that should be active and are virtual, or are active and should not be. */
  function Misplaced(levels: seq<Level>, p: real, m: nat): set<nat> {
    set k | 0 <= k < |levels| && levels[k].state != Filled
              && (levels[k].state == Active) != (k in Wanted(levels, p, m))
  }

  /** Every active row carries the id of its order. */
  ghost predicate Synced(levels: seq<Level>) {
    forall k | 0 <= k < |levels| && levels[k].state == Active :: HasOrder(levels[k])
  }

  lemma {:induction false} VirtualizeAllRows(levels: seq<Level>, ids: seq<nat>)
    requires Indices(ids, |levels|)
    requires forall k | 0 <= k < |ids| :: levels[ids[k]].state != Filled
    ensures var r := VirtualizeAll(levels, ids);
      && SameShape(levels, r)
      && forall k | 0 <= k < |levels| :: r[k] == if k in ids then Parked(levels[k]) else levels[k]
  {
    if ids != [] {
      var n := |ids| - 1;
      VirtualizeAllRows(levels, ids[..n]);
      assert ids == ids[..n] + [ids[n]];
    }
  }

  lemma {:induction false} ActivateAllRows(levels: seq<Level>, ids: seq<nat>, p: real, q: real, place: nat -> Placement)
    requires Indices(ids, |levels|)
    requires forall j, k | 0 <= j < k < |ids| :: ids[j] != ids[k]
    requires forall k | 0 <= k < |ids| :: levels[ids[k]].state != Filled && place(ids[k]) == Accepted
    ensures var r := ActivateAll(levels, ids, p, q, place);
      && !r.stopped && r.orders == |ids| && SameShape(levels, r.levels)
      && forall k | 0 <= k < |levels| :: r.levels[k] == if k in ids then Activated(levels[k], p, q) else levels[k]
  {
    if ids != [] {
      var n := |ids| - 1;
      ActivateAllRows(levels, ids[..n], p, q, place);
      assert ids == ids[..n] + [ids[n]];
      assert ids[n] !in ids[..n];
    }
  }

  lemma RankedIds(levels: seq<Level>, p: real)
    ensures var r := ByDistance(Prices(levels), p, Rotatable(levels));
      && (forall j, k | 0 <= j < k < |r| :: r[j] != r[k])
      && (forall x :: x in r <==> x in Rotatable(levels))
  {
    ByDistanceRanks(Prices(levels), p, Rotatable(levels));
    SameElements(ByDistance(Prices(levels), p, Rotatable(levels)), Rotatable(levels));
  }

  function Elements(ids: seq<nat>): set<nat> {
    set k | 0 <= k < |ids| :: ids[k]
  }

  lemma ElementsSize(ids: seq<nat>)
    requires forall j, k | 0 <= j < k < |ids| :: ids[j] != ids[k]
    ensures |Elements(ids)| == |ids|
  {
    FirstsSize(ids, |ids|);
    assert Elements(ids) == Firsts(ids, |ids|);
  }

  ghost predicate AllAccepted(place: nat -> Placement) {
    forall k: nat :: place(k) == Accepted
  }

  /** The rows one rotation touches: cancelled rows were active and unwanted, activated rows
      were virtual and wanted, and no row is touched twice. */
  lemma TouchedRows(cfg: Config, levels: seq<Level>, p: real, open: nat)
    ensures var out, in_ := Cancels(cfg, levels, p), Activations(cfg, levels, p, open);
      var want := Wanted(levels, p, cfg.window);
      && (forall k | k in out :: k !in want && levels[k].state == Active)
      && (forall k | k in in_ :: k in want && levels[k].state == Virtual)
      && (forall j, k | 0 <= j < k < |out| :: out[j] != out[k])
      && (forall j, k | 0 <= j < k < |in_| :: in_[j] != in_[k])
  {
    RankedIds(levels, p);
    var out, in_ := Cancels(cfg, levels, p), Activations(cfg, levels, p, open);
    assert forall k | k in out :: k in ToVirtualize(levels, p, cfg.window);
    assert forall k | k in in_ :: k in ToActivate(levels, p, cfg.window);
  }

  /** Row by row, what a rotation with every call succeeding leaves behind. */
  lemma RotatedRows(cfg: Config, levels: seq<Level>, p: real, open: nat, place: nat -> Placement)
    requires AllAccepted(place)
    ensures var out, in_ := Cancels(cfg, levels, p), Activations(cfg, levels, p, open);
      var after := Rotated(cfg, levels, p, open, place);
      && !after.stopped && after.orders == |in_| && SameShape(levels, after.levels)
      && forall k | 0 <= k < |levels| ::
           after.levels[k] == if k in in_ then Activated(levels[k], p, cfg.quantity)
                              else if k in out then Parked(levels[k]) else levels[k]
  {
    TouchedRows(cfg, levels, p, open);
    var out, in_ := Cancels(cfg, levels, p), Activations(cfg, levels, p, open);
    var mid := VirtualizeAll(levels, out);
    assert forall k | 0 <= k < |out| :: out[k] in out;
    VirtualizeAllRows(levels, out);
    assert forall k | 0 <= k < |in_| :: in_[k] in in_;
    ActivateAllRows(mid, in_, p, cfg.quantity, place);
    forall k | 0 <= k < |levels| && k in in_ ensures k !in out {
      assert levels[k].state == Virtual;
    }
  }

  /** One rotation with every call succeeding: exactly the cancelled and the activated rows
      stop being misplaced, and the order count keeps matching the active rows. */
  lemma RotationStep(cfg: Config, levels: seq<Level>, p: real, place: nat -> Placement)
    requires AllAccepted(place)
    ensures var open := |ActiveRows(levels)|;
      var after := Rotated(cfg, levels, p, open, place);
      && SameShape(levels, after.levels)
      && |ActiveRows(after.levels)| == OpenAfter(cfg, levels, p, open, _ => true, place)
      && Misplaced(after.levels, p, cfg.window)
           == Misplaced(levels, p, cfg.window) - Elements(Cancels(cfg, levels, p)) - Elements(Activations(cfg, levels, p, open))
  {
    var open := |ActiveRows(levels)|;
    var out, in_ := Cancels(cfg, levels, p), Activations(cfg, levels, p, open);
    var after := Rotated(cfg, levels, p, open, place);
    TouchedRows(cfg, levels, p, open);
    RotatedRows(cfg, levels, p, open, place);
    SameWanted(levels, after.levels, p, cfg.window);
    CountAfter(levels, after.levels, out, in_);
    AllCancelled(out);
    MisplacedAfter(levels, after.levels, out, in_, p, cfg.window);
  }

  lemma ActiveRowsAfter(levels: seq<Level>, after: seq<Level>, out: seq<nat>, in_: seq<nat>)
    requires |levels| == |after| && Indices(out, |levels|) && Indices(in_, |levels|)
    requires forall k | k in out :: levels[k].state == Active
    requires forall k | k in in_ :: levels[k].state == Virtual
    requires forall k | 0 <= k < |levels| ::
      after[k].state == if k in in_ then Active else if k in out then Virtual else levels[k].state
    ensures ActiveRows(after) == ActiveRows(levels) - Elements(out) + Elements(in_)
    ensures Elements(out) <= ActiveRows(levels) && Elements(in_) !! ActiveRows(levels)
  {
    assert forall k :: k in Elements(out) <==> k in out;
    assert forall k :: k in Elements(in_) <==> k in in_;
  }

  lemma SwapSize(rows: set<nat>, out: set<nat>, in_: set<nat>)
    requires out <= rows && in_ !! rows
    ensures |rows - out + in_| == |rows| - |out| + |in_|
  {
    assert rows == (rows - out) + out;
  }

  lemma CountAfter(levels: seq<Level>, after: seq<Level>, out: seq<nat>, in_: seq<nat>)
    requires |levels| == |after| && Indices(out, |levels|) && Indices(in_, |levels|)
    requires forall k | k in out :: levels[k].state == Active
    requires forall k | k in in_ :: levels[k].state == Virtual
    requires forall j, k | 0 <= j < k < |out| :: out[j] != out[k]
    requires forall j, k | 0 <= j < k < |in_| :: in_[j] != in_[k]
    requires forall k | 0 <= k < |levels| ::
      after[k].state == if k in in_ then Active else if k in out then Virtual else levels[k].state
    ensures |ActiveRows(after)| == |ActiveRows(levels)| - |out| + |in_|
  {
    ElementsSize(out);
    ElementsSize(in_);
    ActiveRowsAfter(levels, after, out, in_);
    SwapSize(ActiveRows(levels), Elements(out), Elements(in_));
  }

  lemma MisplacedAfter(levels: seq<Level>, after: seq<Level>, out: seq<nat>, in_: seq<nat>, p: real, m: nat)
    requires |levels| == |after| && Indices(out, |levels|) && Indices(in_, |levels|)
    requires Wanted(after, p, m) == Wanted(levels, p, m)
    requires forall k | k in out :: k !in Wanted(levels, p, m) && levels[k].state == Active
    requires forall k | k in in_ :: k in Wanted(levels, p, m) && levels[k].state == Virtual
    requires forall k | 0 <= k < |levels| ::
      after[k].state == if k in in_ then Active else if k in out then Virtual else levels[k].state
    ensures Misplaced(after, p, m) == Misplaced(levels, p, m) - Elements(out) - Elements(in_)
  {
    forall k | 0 <= k < |levels|
      ensures k in Misplaced(after, p, m) <==> k in Misplaced(levels, p, m) && k !in Elements(out) && k !in Elements(in_)
    {
      assert k in Elements(out) <==> k in out;
      assert k in Elements(in_) <==> k in in_;
    }
  }

  lemma {:induction false} AllCancelled(ids: seq<nat>)
    ensures Cancelled(ids, _ => true) == |ids|
  {
    if ids != [] {
      AllCancelled(ids[..|ids|-1]);
    }
  }

  /** With nothing to cancel, every active row is wanted, so a misplaced row is one to activate,
      and it leaves room under the window. */
  lemma RoomToActivate(cfg: Config, levels: seq<Level>, p: real)
    requires Synced(levels) && Misplaced(levels, p, cfg.window) != {} && ToVirtualize(levels, p, cfg.window) == []
    ensures |ActiveRows(levels)| < cfg.window
    ensures ToActivate(levels, p, cfg.window) != []
  {
    var want := Wanted(levels, p, cfg.window);
    RankedIds(levels, p);
    TopIsNearest(Prices(levels), p, Rotatable(levels), cfg.window);
    forall k | k in ActiveRows(levels) ensures k in want {
      assert k in Rotatable(levels);
      assert k !in ToVirtualize(levels, p, cfg.window);
    }
    var k :| k in Misplaced(levels, p, cfg.window);
    assert k in Rotatable(levels) && k in want && levels[k].state == Virtual;
    assert k in ToActivate(levels, p, cfg.window);
    assert ActiveRows(levels) <= want - {k};
    SubsetSize(ActiveRows(levels), want - {k});
  }

  lemma FirstOf(ids: seq<nat>, n: nat)
    requires AtMost(ids, n) != []
    ensures AtMost(ids, n)[0] in ids && AtMost(ids, n)[0] in Elements(AtMost(ids, n))
  {
  }

  /** While a row is misplaced, a rotation repairs at least one. */
  lemma RotationProgress(cfg: Config, levels: seq<Level>, p: real)
    requires Synced(levels) && Misplaced(levels, p, cfg.window) != {}
    ensures var open := |ActiveRows(levels)|;
      exists k :: k in Misplaced(levels, p, cfg.window)
        && (k in Elements(Cancels(cfg, levels, p)) || k in Elements(Activations(cfg, levels, p, open)))
  {
    var open := |ActiveRows(levels)|;
    RankedIds(levels, p);
    var out, in_ := Cancels(cfg, levels, p), Activations(cfg, levels, p, open);
    if out != [] {
      FirstOf(ToVirtualize(levels, p, cfg.window), MAX_OPS_PER_TICK);
      assert out[0] in Elements(out) && out[0] in Misplaced(levels, p, cfg.window);
    } else {
      RoomToActivate(cfg, levels, p);
      assert in_ != [];
      assert in_[0] in ToActivate(levels, p, cfg.window);
      assert in_[0] in Elements(in_) && in_[0] in Misplaced(levels, p, cfg.window);
    }
  }

  lemma {:induction false} SubsetSize(a: set<nat>, b: set<nat>)
    requires a <= b
    ensures |a| <= |b|
    decreases a
  {
    if a != {} {
      var x :| x in a;
      SubsetSize(a - {x}, b - {x});
    }
  }

  /** Between two ticks the monitor writes the order ids of the active rows back. */
  ghost predicate SyncedFrom(mid: seq<Level>, next: seq<Level>) {
    && |mid| == |next|
    && (forall k | 0 <= k < |mid| :: mid[k].price == next[k].price && mid[k].state == next[k].state)
    && Synced(next)
  }

  ghost predicate Tick(cfg: Config, a: seq<Level>, b: seq<Level>, p: real, place: nat -> Placement) {
    Synced(a) && SyncedFrom(Rotated(cfg, a, p, |ActiveRows(a)|, place).levels, b)
  }

  /** A run of ticks: each table is one tick after the one before it. */
  ghost predicate TickRun(cfg: Config, run: seq<seq<Level>>, p: real, place: nat -> Placement) {
    var n := |run| - 1;
    n > 0 ==> TickRun(cfg, run[..n], p, place) && Tick(cfg, run[n-1], run[n], p, place)
  }

  function Disorder(levels: seq<Level>, p: real, m: nat): nat {
    |Misplaced(levels, p, m)|
  }

  /** Misplaced rows are told by price, state and window alone. */
  lemma SameMisplaced(a: seq<Level>, b: seq<Level>, p: real, m: nat)
    requires |a| == |b|
    requires forall k | 0 <= k < |a| :: a[k].price == b[k].price && a[k].state == b[k].state
    ensures SameShape(a, b) && Misplaced(a, p, m) == Misplaced(b, p, m)
  {
    SameWanted(a, b, p, m);
  }

  lemma TickShrinks(cfg: Config, a: seq<Level>, b: seq<Level>, p: real, place: nat -> Placement)
    requires Tick(cfg, a, b, p, place) && AllAccepted(place)
    ensures SameShape(a, b)
    ensures Disorder(a, p, cfg.window) == 0 ==> Disorder(b, p, cfg.window) == 0
    ensures Disorder(a, p, cfg.window) > 0 ==> Disorder(b, p, cfg.window) < Disorder(a, p, cfg.window)
  {
    RotationStep(cfg, a, p, place);
    SameMisplaced(Rotated(cfg, a, p, |ActiveRows(a)|, place).levels, b, p, cfg.window);
    var before, after := Misplaced(a, p, cfg.window), Misplaced(b, p, cfg.window);
    if before != {} {
      RotationProgress(cfg, a, p);
      var k :| k in before
        && (k in Elements(Cancels(cfg, a, p)) || k in Elements(Activations(cfg, a, p, |ActiveRows(a)|)));
      SubsetSize(after, before - {k});
    }
  }

  lemma Settled(levels: seq<Level>, p: real, m: nat)
    ensures Misplaced(levels, p, m) == {} <==> ActiveRows(levels) == Wanted(levels, p, m)
  {
    TopIsNearest(Prices(levels), p, Rotatable(levels), m);
    var active, want := ActiveRows(levels), Wanted(levels, p, m);
    assert forall k | k in want :: k in Rotatable(levels);
    if Misplaced(levels, p, m) == {} {
      forall k ensures k in want <==> k in active {
        assert k !in Misplaced(levels, p, m);
      }
    }
  }

  /** What is left of the disorder when every tick repairs one level, down to none. */
  function LeftAfter(disorder: nat, ticks: nat): nat {
    if disorder > ticks then disorder - ticks else 0
  }

  lemma Transitive(a: seq<Level>, b: seq<Level>, c: seq<Level>)
    requires SameShape(a, b) && SameShape(b, c)
    ensures SameShape(a, c)
  {
  }

  /** One tick takes at least one off the disorder, down to none. */
  lemma TickFalls(cfg: Config, a: seq<Level>, b: seq<Level>, p: real, place: nat -> Placement, start: nat, ticks: nat)
    requires Tick(cfg, a, b, p, place) && AllAccepted(place)
    requires Disorder(a, p, cfg.window) <= LeftAfter(start, ticks)
    ensures SameShape(a, b)
    ensures Disorder(b, p, cfg.window) <= LeftAfter(start, ticks + 1)
  {
    TickShrinks(cfg, a, b, p, place);
  }

  /** With the price fixed and every call succeeding, the number of misplaced rows falls on
      every tick until none is left. */
  lemma {:induction false} MisplacedFalls(cfg: Config, run: seq<seq<Level>>, p: real, place: nat -> Placement)
    requires run != [] && TickRun(cfg, run, p, place) && AllAccepted(place)
    ensures SameShape(run[0], run[|run|-1])
    ensures Disorder(run[|run|-1], p, cfg.window) <= LeftAfter(Disorder(run[0], p, cfg.window), |run| - 1)
    decreases |run|
  {
    var n := |run| - 1;
    if n > 0 {
      MisplacedFalls(cfg, run[..n], p, place);
      TickFalls(cfg, run[n-1], run[n], p, place, Disorder(run[0], p, cfg.window), n - 1);
      Transitive(run[0], run[n-1], run[n]);
    }
  }

  /** As many ticks as there were misplaced rows leave exactly the M nearest rows active. */
  lemma Converges(cfg: Config, run: seq<seq<Level>>, p: real, place: nat -> Placement)
    requires run != [] && TickRun(cfg, run, p, place) && AllAccepted(place)
    requires |run| > Disorder(run[0], p, cfg.window)
    ensures ActiveRows(run[|run|-1]) == Wanted(run[0], p, cfg.window)
  {
    MisplacedFalls(cfg, run, p, place);
    Settled(run[|run|-1], p, cfg.window);
    SameWanted(run[0], run[|run|-1], p, cfg.window);
  }
}
