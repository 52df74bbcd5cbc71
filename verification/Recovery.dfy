/**
 A list of recovered fills, handled one after another on freshly read rows. The position has already
 moved by all of them; the rows follow fill by fill.
 */
module Recovery {
  import opened GridLevels
  import opened GridFill
  import opened Numbers

  /** The rows, the remembered ids, and whether the margin stop ended the recovery. */
  datatype Recovered = Recovered(levels: seq<Level>, seen: seq<nat>, stopped: bool)

  /** The row a recovered fill is handled as, or -1: it is known, unmatched, or its row is covered. */
  function Target(s: Recovered, f: RecoveredFill, live: seq<real>, tol: real): (m: int)
    ensures m < |s.levels|
  {
    var m := BestMatch(s.levels, |s.levels|, SideOf(f), f.price, tol);
    if s.stopped || f.id in s.seen || m < 0 || Covered(live, s.levels[m].price, tol) then -1 else m
  }

  /** Row k waits for this fill: it is open, on the fill's side and within the tolerance of its price. */
  ghost predicate Waits(levels: seq<Level>, k: nat, f: RecoveredFill, tol: real) {
    && k < |levels| && !levels[k].isFilled
    && (levels[k].side == Buy <==> f.isBuyer)
    && -tol < levels[k].price - f.price < tol
  }

  ghost predicate Bare(live: seq<real>, price: real, tol: real) {
    forall p | p in live :: p - price >= tol || price - p >= tol
  }

  /** A recovered fill is handled as the nearest row that waits for it, the first of them on a tie; it is
      not handled after a margin stop, when its id is known, when no row waits for it, or when an order is
      still open at that row. */
  lemma TargetIsItsRow(s: Recovered, f: RecoveredFill, live: seq<real>, tol: real)
    ensures var m := Target(s, f, live, tol);
      if m < 0 then
        || s.stopped || f.id in s.seen
        || (forall k: nat :: !Waits(s.levels, k, f, tol))
        || (exists k: nat :: Waits(s.levels, k, f, tol) && !Bare(live, s.levels[k].price, tol))
      else
        && !s.stopped && f.id !in s.seen
        && Waits(s.levels, m, f, tol) && Bare(live, s.levels[m].price, tol)
        && forall k: nat | Waits(s.levels, k, f, tol) ::
             && Abs(s.levels[m].price - f.price) <= Abs(s.levels[k].price - f.price)
             && (k < m ==> Abs(s.levels[m].price - f.price) < Abs(s.levels[k].price - f.price))
  {
    BestMatchIsNearest(s.levels, |s.levels|, SideOf(f), f.price, tol);
    forall k: nat ensures Waits(s.levels, k, f, tol) <==> Candidate(s.levels, k, SideOf(f), f.price, tol) {
    }
    var m := BestMatch(s.levels, |s.levels|, SideOf(f), f.price, tol);
    if m >= 0 {
      BareExactlyWhen(live, s.levels[m].price, tol);
    }
  }

  lemma BareExactlyWhen(live: seq<real>, price: real, tol: real)
    ensures Bare(live, price, tol) <==> !Covered(live, price, tol)
  {
    if !Bare(live, price, tol) {
      var p :| p in live && !(p - price >= tol || price - p >= tol);
      assert Abs(p - price) < tol;
    }
  }

  function EffectAt(cfg: Config, s: Recovered, f: RecoveredFill, m: nat, price: real, o: Placement): Effect {
    EffectOf(cfg, SideOf(f), m, price, s.levels, o)
  }

  function RecoverOne(
    cfg: Config, s: Recovered, f: RecoveredFill, price: real, live: seq<real>, tol: real, o: Placement): (r: Recovered)
    ensures |r.levels| == |s.levels|
  {
    var m := Target(s, f, live, tol);
    if m < 0 then s
    else
      var e := EffectAt(cfg, s, f, m, price, o);
      Recovered(Handled(cfg, SideOf(f), m, price, s.levels, s.levels, o), Remember(s.seen, f.id),
                o == MarginStop && e == Abandoned)
  }

  /** One fill ends the recovery exactly when it is handled and its counter-order was due at once and ran
      into the margin stop; it is remembered exactly when it is handled. */
  lemma StopsExactlyWhen(
    cfg: Config, s: Recovered, f: RecoveredFill, price: real, live: seq<real>, tol: real, o: Placement, c: nat)
    requires !s.stopped && Target(s, f, live, tol) >= 0
    requires Across(s.levels, Target(s, f, live, tol), c)
    ensures var m := Target(s, f, live, tol);
      var r := RecoverOne(cfg, s, f, price, live, tol, o);
      && f.id in r.seen
      && (r.stopped <==>
            && o == MarginStop && !HasOrder(s.levels[c])
            && (!cfg.virtualEnabled || (s.levels[c].state != Filled && |Nearer(s.levels, m, c, price)| < cfg.window)))
  {
    hide Handled, Remember, Nearer, BestMatch, Covered, EffectOf;
    var m := Target(s, f, live, tol);
    BestMatchIsNearest(s.levels, |s.levels|, SideOf(f), f.price, tol);
    RaisedExactlyWhen(cfg, m, c, price, s.levels, o);
  }

  lemma RaisedExactlyWhen(cfg: Config, i: nat, c: nat, price: real, levels: seq<Level>, o: Placement)
    requires Across(levels, i, c)
    ensures o == MarginStop && EffectOf(cfg, levels[i].side, i, price, levels, o) == Abandoned <==>
      && o == MarginStop && !HasOrder(levels[c])
      && (!cfg.virtualEnabled || (levels[c].state != Filled && |Nearer(levels, i, c, price)| < cfg.window))
  {
    hide InsideWindow, Nearer;
    InsideExactlyWhen(levels, i, c, price, cfg.window);
  }

  /** `place` is what placing the counter-order of the k-th fill comes to. */
  function RecoverAll(
    cfg: Config, s: Recovered, fills: seq<RecoveredFill>, price: real, live: seq<real>, tol: real, place: nat -> Placement)
    : (r: Recovered)
    ensures |r.levels| == |s.levels|
  {
    if fills == [] then s
    else
      var n := |fills| - 1;
      RecoverOne(cfg, RecoverAll(cfg, s, fills[..n], price, live, tol, place), fills[n], price, live, tol, place(n))
  }

  // ----- lots

  /** The lots by which handling a fill leaves the inventory rows off: a counter row that was counted
      already gets no second lot, and without a counter-order the filled row's lot is not moved. */
  function Off(d: Direction, e: Effect, side: Side, i: nat, levels: seq<Level>): int
    requires i < |levels| && (e == NoCounter || 0 <= CounterIndex(side, i) < |levels|)
  {
    var unmoved := if side == InventorySide(d) then 1 else -1;
    match e
    case Parked | Ordered(_) => if Counted(d, levels[CounterIndex(side, i)]) then -1 else 0
    case AlreadyOrdered => if side == InventorySide(d) && levels[i].state == Filled then 0 else unmoved
    case NoCounter | RetryLater | Abandoned => unmoved
  }

  lemma FewLots(n: int, x: real)
    requires -1 <= n <= 1
    ensures Times(n as real, x) == if n == 0 then 0.0 else if n == 1 then x else -x
  {
  }

  lemma UniformKept(e: Effect, q: real, i: nat, levels: seq<Level>)
    requires i < |levels| && Uniform(levels, q)
    requires e == NoCounter || 0 <= CounterIndex(levels[i].side, i) < |levels|
    ensures Uniform(Apply(e, q, levels[i].side, i, levels), q)
  {
  }

  lemma InventoryOff(d: Direction, e: Effect, q: real, i: nat, levels: seq<Level>)
    requires i < |levels| && !levels[i].isFilled && Uniform(levels, q)
    requires e == NoCounter || 0 <= CounterIndex(levels[i].side, i) < |levels|
    ensures var side := levels[i].side;
      var off := Off(d, e, side, i, levels);
      Inventory(d, Apply(e, q, side, i, levels)) - Inventory(d, levels)
        == (if side == InventorySide(d) then -q else q) + (if off == 0 then 0.0 else if off == 1 then q else -q)
  {
    var side := levels[i].side;
    var after := Apply(e, q, side, i, levels);
    if e != NoCounter {
      var c := CounterIndex(side, i);
      if e == AlreadyOrdered {
        InventoryUpdate(d, levels, i, after[i]);
      } else if e == RetryLater {
        InventoryUpdate(d, levels, c, after[c]);
      } else if e != Abandoned {
        assert after == levels[c := after[c]][i := after[i]];
        TwoUpdates(d, levels, c, i, after[c], after[i]);
      }
    }
  }

  /** The handling of one fill moves the implied position by what was traded and the lots it is off. */
  lemma EffectOff(d: Direction, e: Effect, q: real, i: nat, levels: seq<Level>)
    requires i < |levels| && !levels[i].isFilled && Uniform(levels, q)
    requires e == NoCounter || 0 <= CounterIndex(levels[i].side, i) < |levels|
    ensures var side := levels[i].side;
      Implied(d, Apply(e, q, side, i, levels)) - Implied(d, levels)
        == Traded(side, q) + Times(Off(d, e, side, i, levels) as real, OneLot(d, q))
  {
    hide Apply, Inventory, Times;
    InventoryOff(d, e, q, i, levels);
    FewLots(Off(d, e, levels[i].side, i, levels), OneLot(d, q));
  }

  /** It is off by nothing exactly when it is balanced. */
  lemma OffByNothing(d: Direction, e: Effect, side: Side, i: nat, levels: seq<Level>)
    requires i < |levels| && (e == NoCounter || 0 <= CounterIndex(side, i) < |levels|)
    ensures Off(d, e, side, i, levels) == 0 <==> Balanced(d, e, side, i, levels)
  {
  }

  /** What a fill of the list moved: nothing if it is one that was handled before. */
  function TradedBy(s: Recovered, f: RecoveredFill, q: real): real {
    if !s.stopped && f.id in s.seen then 0.0 else Traded(SideOf(f), q)
  }

  /** The lots by which one fill of the list leaves the rows off; an unmatched or covered one, and one
      behind the margin stop, is not moved at all. */
  function OffBy(
    d: Direction, cfg: Config, s: Recovered, f: RecoveredFill, price: real, live: seq<real>, tol: real, o: Placement): int
  {
    var m := Target(s, f, live, tol);
    if m >= 0 then Off(d, EffectAt(cfg, s, f, m, price, o), SideOf(f), m, s.levels)
    else if !s.stopped && f.id in s.seen then 0
    else if SideOf(f) == InventorySide(d) then 1 else -1
  }

  lemma OneRecovered(
    d: Direction, cfg: Config, s: Recovered, f: RecoveredFill, price: real, live: seq<real>, tol: real, o: Placement)
    requires Uniform(s.levels, cfg.quantity)
    ensures var r := RecoverOne(cfg, s, f, price, live, tol, o);
      && Uniform(r.levels, cfg.quantity)
      && Implied(d, r.levels) - Implied(d, s.levels)
           == TradedBy(s, f, cfg.quantity) + Times(OffBy(d, cfg, s, f, price, live, tol, o) as real, OneLot(d, cfg.quantity))
  {
    var m := Target(s, f, live, tol);
    if m >= 0 {
      BestMatchIsNearest(s.levels, |s.levels|, SideOf(f), f.price, tol);
      EffectOff(d, EffectAt(cfg, s, f, m, price, o), cfg.quantity, m, s.levels);
      UniformKept(EffectAt(cfg, s, f, m, price, o), cfg.quantity, m, s.levels);
    } else {
      FewLots(OffBy(d, cfg, s, f, price, live, tol, o), OneLot(d, cfg.quantity));
    }
  }

  // ----- the whole list

  function TradedByAll(
    cfg: Config, s: Recovered, fills: seq<RecoveredFill>, price: real, live: seq<real>, tol: real, place: nat -> Placement)
    : real
  {
    if fills == [] then 0.0
    else
      var n := |fills| - 1;
      TradedByAll(cfg, s, fills[..n], price, live, tol, place)
        + TradedBy(RecoverAll(cfg, s, fills[..n], price, live, tol, place), fills[n], cfg.quantity)
  }

  function OffByAll(
    d: Direction, cfg: Config, s: Recovered, fills: seq<RecoveredFill>, price: real, live: seq<real>, tol: real,
    place: nat -> Placement): int
  {
    if fills == [] then 0
    else
      var n := |fills| - 1;
      OffByAll(d, cfg, s, fills[..n], price, live, tol, place)
        + OffBy(d, cfg, RecoverAll(cfg, s, fills[..n], price, live, tol, place), fills[n], price, live, tol, place(n))
  }

  lemma LotsAdd(x: int, y: int, lot: real)
    ensures Times((x + y) as real, lot) == Times(x as real, lot) + Times(y as real, lot)
  {
  }

  lemma {:induction false} AllRecovered(
    d: Direction, cfg: Config, s: Recovered, fills: seq<RecoveredFill>, price: real, live: seq<real>, tol: real,
    place: nat -> Placement)
    requires Uniform(s.levels, cfg.quantity)
    ensures var r := RecoverAll(cfg, s, fills, price, live, tol, place);
      && Uniform(r.levels, cfg.quantity)
      && Implied(d, r.levels) - Implied(d, s.levels)
           == TradedByAll(cfg, s, fills, price, live, tol, place)
              + Times(OffByAll(d, cfg, s, fills, price, live, tol, place) as real, OneLot(d, cfg.quantity))
  {
    if fills == [] {
      assert Times(0.0, OneLot(d, cfg.quantity)) == 0.0;
    } else {
      var n := |fills| - 1;
      AllRecovered(d, cfg, s, fills[..n], price, live, tol, place);
      var before := RecoverAll(cfg, s, fills[..n], price, live, tol, place);
      OneRecovered(d, cfg, before, fills[n], price, live, tol, place(n));
      LotsAdd(OffByAll(d, cfg, s, fills[..n], price, live, tol, place),
              OffBy(d, cfg, before, fills[n], price, live, tol, place(n)), OneLot(d, cfg.quantity));
    }
  }

  lemma NoLots(n: int, q: real, d: Direction)
    requires q > 0.0
    ensures Times(n as real, OneLot(d, q)) == 0.0 <==> n == 0
  {
  }

  /** A recovered list of whole-level fills brings the drift back exactly when as many of its fills leave
      a lot too many as leave one too few: live minus implied position is what it was before the first
      of them was traded. */
  lemma DriftBackExactlyWhen(
    d: Direction, cfg: Config, s: Recovered, position: real, fills: seq<RecoveredFill>, price: real, live: seq<real>,
    tol: real, place: nat -> Placement)
    requires Uniform(s.levels, cfg.quantity) && cfg.quantity > 0.0
    ensures var r := RecoverAll(cfg, s, fills, price, live, tol, place);
      var now := position + TradedByAll(cfg, s, fills, price, live, tol, place);
      now - Implied(d, r.levels) == position - Implied(d, s.levels)
      <==> OffByAll(d, cfg, s, fills, price, live, tol, place) == 0
  {
    AllRecovered(d, cfg, s, fills, price, live, tol, place);
    NoLots(OffByAll(d, cfg, s, fills, price, live, tol, place), cfg.quantity, d);
  }
}
