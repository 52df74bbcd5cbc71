/**
 Matching the exchange's orders to grid levels by price, and killing duplicate and orphan
 orders. Order and level prices are whole cents; the grid step is a real number of cents.
 */
module Coverage {
  import opened Numbers
  import opened Options

  /** min(0.05, step / 3), in cents. */
  function Tolerance(step: real): real {
    Min(5.0, step / 3.0)
  }

  function LevelCents(lower: real, step: real, i: nat): int {
    (lower + Times(i as real, step) + 0.5).Floor
  }

  function Gap(a: int, b: int): int {
    if a >= b then a - b else b - a
  }

  predicate Near(order: int, level: int, tol: real) {
    (Gap(order, level) as real) < tol
  }

  /** An order covers a level exactly when it is less than five cents and less than a third of a step
      away, on either side. */
  lemma NearExactlyWhen(order: int, level: int, step: real)
    ensures Near(order, level, Tolerance(step)) <==>
      && -5 < order - level < 5
      && -step < 3.0 * ((order - level) as real) < step
  {
  }

  /** A level's price is its place on the grid to the nearest cent, so an order at that place covers it. */
  lemma LevelOnGrid(lower: real, step: real, i: nat)
    requires step > 0.0
    ensures var x := lower + Times(i as real, step);
      -0.5 < LevelCents(lower, step, i) as real - x <= 0.5
    ensures Near(LevelCents(lower, step, i), LevelCents(lower, step, i), Tolerance(step))
  {
    var x := lower + Times(i as real, step) + 0.5;
    assert x.Floor as real <= x < x.Floor as real + 1.0;
  }

  lemma FloorsApart(x: real, y: real, step: real)
    requires step >= 1.0 && y >= x + step
    ensures (y.Floor - x.Floor) as real > step - 1.0 && y.Floor > x.Floor
  {
    assert x.Floor as real <= x && y < y.Floor as real + 1.0;
    assert (y.Floor - x.Floor) as real == y.Floor as real - x.Floor as real;
  }

  lemma StepsApart(lower: real, step: real, i: nat, j: nat)
    requires i < j && step >= 1.0
    ensures (LevelCents(lower, step, j) - LevelCents(lower, step, i)) as real > step - 1.0
    ensures LevelCents(lower, step, i) < LevelCents(lower, step, j)
  {
    MoreSteps(i, j, step);
    FloorsApart(lower + Times(i as real, step) + 0.5, lower + Times(j as real, step) + 0.5, step);
  }

  lemma MoreSteps(i: nat, j: nat, step: real)
    requires i < j && step >= 1.0
    ensures Times(j as real, step) >= Times(i as real, step) + step
  {
    assert (j - i) as real >= 1.0;
    assert ((j - i) as real) * step >= step;
    assert ((j - i) as real) * step == (j as real) * step - (i as real) * step;
  }

  /** With a step of at least a cent no order price is within the tolerance of two levels. */
  lemma NoOrderNearTwoLevels(lower: real, step: real, i: nat, j: nat, order: int)
    requires step >= 1.0 && i < j
    ensures !(Near(order, LevelCents(lower, step, i), Tolerance(step)) && Near(order, LevelCents(lower, step, j), Tolerance(step)))
  {
    StepsApart(lower, step, i, j);
    var a, b := LevelCents(lower, step, i), LevelCents(lower, step, j);
    assert Gap(order, a) + Gap(order, b) >= b - a;
    TooFarForBoth(Gap(order, a), Gap(order, b), b - a, step);
  }

  lemma TooFarForBoth(da: int, db: int, gap: int, step: real)
    requires 0 <= da && 0 <= db && da + db >= gap >= 1 && gap as real > step - 1.0 && step >= 1.0
    ensures da as real >= Tolerance(step) || db as real >= Tolerance(step)
  {
    if step <= 3.0 {
      assert da >= 1 || db >= 1;
    } else {
      assert da as real + db as real >= gap as real;
    }
  }

  // ----- the coverage pass

  ghost predicate NoAliases(levels: seq<int>, orders: seq<int>, tol: real) {
    forall i, j, k | 0 <= i < j < |levels| && 0 <= k < |orders| ::
      !(Near(orders[k], levels[i], tol) && Near(orders[k], levels[j], tol))
  }

  function Remove(s: seq<int>, k: nat): seq<int>
    requires k < |s|
  {
    s[..k] + s[k+1..]
  }

  /** The first price of the set that is near the level, or the size of the set. */
  function FirstNear(left: seq<int>, level: int, tol: real): (k: nat)
    ensures k <= |left|
    ensures k < |left| ==> Near(left[k], level, tol)
    ensures forall j | 0 <= j < k :: !Near(left[j], level, tol)
  {
    if left == [] || Near(left[0], level, tol) then 0 else FirstNear(left[1..], level, tol) + 1
  }

  function Pick(left: seq<int>, level: int, tol: real): Option<int> {
    var k := FirstNear(left, level, tol);
    if k < |left| then Some(left[k]) else None
  }

  lemma FirstIsUnique(left: seq<int>, level: int, tol: real, k: nat)
    requires k <= |left| && (k < |left| ==> Near(left[k], level, tol))
    requires forall j | 0 <= j < k :: !Near(left[j], level, tol)
    ensures FirstNear(left, level, tol) == k
  {
  }

  lemma RemoveKeepsPick(left: seq<int>, k: nat, level: int, tol: real)
    requires k < |left| && !Near(left[k], level, tol)
    ensures Pick(Remove(left, k), level, tol) == Pick(left, level, tol)
  {
    var r, i := Remove(left, k), FirstNear(left, level, tol);
    var j := if i < k then i else i - 1;
    assert forall m | 0 <= m < |r| :: r[m] == left[if m < k then m else m + 1];
    FirstIsUnique(r, level, tol, j);
  }

  /** What each level took, and the prices still in the set. */
  datatype Cover = Cover(matched: seq<Option<int>>, left: seq<int>)

  function CoverOne(s: Cover, level: int, skip: bool, tol: real): Cover {
    var k := FirstNear(s.left, level, tol);
    if skip || k == |s.left| then s.(matched := s.matched + [None])
    else Cover(s.matched + [Some(s.left[k])], Remove(s.left, k))
  }

  function CoverAll(levels: seq<int>, skipped: seq<bool>, orders: seq<int>, tol: real): (r: Cover)
    requires |skipped| == |levels|
    ensures |r.matched| == |levels|
  {
    if levels == [] then Cover([], orders)
    else
      var n := |levels| - 1;
      CoverOne(CoverAll(levels[..n], skipped[..n], orders, tol), levels[n], skipped[n], tol)
  }

  function Taken(matched: seq<Option<int>>): multiset<int> {
    if matched == [] then multiset{}
    else Taken(matched[..|matched|-1]) + match matched[|matched|-1] case Some(p) => multiset{p} case None => multiset{}
  }

  lemma OneTaken(s: Cover, level: int, skip: bool, tol: real)
    ensures var r := CoverOne(s, level, skip, tol);
      Taken(r.matched) + multiset(r.left) == Taken(s.matched) + multiset(s.left)
  {
    var k := FirstNear(s.left, level, tol);
    var r := CoverOne(s, level, skip, tol);
    assert r.matched[..|s.matched|] == s.matched;
    if !skip && k < |s.left| {
      assert s.left == s.left[..k] + [s.left[k]] + s.left[k+1..];
      assert multiset(s.left) == multiset(Remove(s.left, k)) + multiset{s.left[k]};
    }
  }

  lemma {:induction false} EachPriceOnce(levels: seq<int>, skipped: seq<bool>, orders: seq<int>, tol: real)
    requires |skipped| == |levels|
    ensures var r := CoverAll(levels, skipped, orders, tol); Taken(r.matched) + multiset(r.left) == multiset(orders)
  {
    if levels != [] {
      var n := |levels| - 1;
      EachPriceOnce(levels[..n], skipped[..n], orders, tol);
      OneTaken(CoverAll(levels[..n], skipped[..n], orders, tol), levels[n], skipped[n], tol);
    }
  }

  lemma {:induction false} OnlyNear(levels: seq<int>, skipped: seq<bool>, orders: seq<int>, tol: real)
    requires |skipped| == |levels|
    ensures var m := CoverAll(levels, skipped, orders, tol).matched;
      forall i | 0 <= i < |levels| && m[i].Some? :: !skipped[i] && Near(m[i].value, levels[i], tol)
  {
    if levels != [] {
      var n := |levels| - 1;
      OnlyNear(levels[..n], skipped[..n], orders, tol);
    }
  }

  /** Every price is taken once or left in the set, and a level only takes a price near it. */
  lemma CoverMeaning(levels: seq<int>, skipped: seq<bool>, orders: seq<int>, tol: real)
    requires |skipped| == |levels|
    ensures var r := CoverAll(levels, skipped, orders, tol);
      && Taken(r.matched) + multiset(r.left) == multiset(orders)
      && forall i | 0 <= i < |levels| && r.matched[i].Some? :: !skipped[i] && Near(r.matched[i].value, levels[i], tol)
  {
    EachPriceOnce(levels, skipped, orders, tol);
    OnlyNear(levels, skipped, orders, tol);
  }

  /** The levels take nothing that is near another level. */
  ghost predicate Apart(levels: seq<int>, orders: seq<int>, level: int, tol: real) {
    forall i, k | 0 <= i < |levels| && 0 <= k < |orders| ::
      !(Near(orders[k], levels[i], tol) && Near(orders[k], level, tol))
  }

  lemma {:induction false} LeavesToOthers(levels: seq<int>, skipped: seq<bool>, orders: seq<int>, tol: real, level: int)
    requires |skipped| == |levels| && Apart(levels, orders, level, tol)
    ensures Pick(CoverAll(levels, skipped, orders, tol).left, level, tol) == Pick(orders, level, tol)
  {
    if levels != [] {
      var n := |levels| - 1;
      LeavesToOthers(levels[..n], skipped[..n], orders, tol, level);
      EachPriceOnce(levels[..n], skipped[..n], orders, tol);
      var left := CoverAll(levels[..n], skipped[..n], orders, tol).left;
      var k := FirstNear(left, levels[n], tol);
      if !skipped[n] && k < |left| {
        assert left[k] in multiset(orders);
        var j :| 0 <= j < |orders| && orders[j] == left[k];
        assert !(Near(orders[j], levels[n], tol) && Near(orders[j], level, tol));
        RemoveKeepsPick(left, k, level, tol);
      }
    }
  }

  /** Without aliases every level that is not skipped takes the first price near it, as if it were
      the only level. */
  lemma {:induction false} TakesItsFirst(levels: seq<int>, skipped: seq<bool>, orders: seq<int>, tol: real)
    requires |skipped| == |levels| && NoAliases(levels, orders, tol)
    ensures forall i | 0 <= i < |levels| ::
      CoverAll(levels, skipped, orders, tol).matched[i] == if skipped[i] then None else Pick(orders, levels[i], tol)
  {
    if levels != [] {
      var n := |levels| - 1;
      TakesItsFirst(levels[..n], skipped[..n], orders, tol);
      assert Apart(levels[..n], orders, levels[n], tol);
      LeavesToOthers(levels[..n], skipped[..n], orders, tol, levels[n]);
    }
  }

  /** The monitor's pass: each level that is not skipped takes the first near price out of the
      set. No price is taken twice; without aliases the order of the levels does not matter. */
  method CoverLevels(levels: seq<int>, skipped: seq<bool>, orders: seq<int>, tol: real) returns (matched: seq<Option<int>>)
    requires |skipped| == |levels|
    ensures matched == CoverAll(levels, skipped, orders, tol).matched
    ensures Taken(matched) <= multiset(orders)
    ensures forall i | 0 <= i < |levels| && matched[i].Some? :: !skipped[i] && Near(matched[i].value, levels[i], tol)
    ensures NoAliases(levels, orders, tol) ==>
      forall i | 0 <= i < |levels| :: matched[i] == if skipped[i] then None else Pick(orders, levels[i], tol)
  {
    matched := [];
    var left := orders;
    for i := 0 to |levels|
      invariant Cover(matched, left) == CoverAll(levels[..i], skipped[..i], orders, tol)
    {
      assert levels[..i+1][..i] == levels[..i] && skipped[..i+1][..i] == skipped[..i];
      var hit: Option<int> := None;
      if !skipped[i] {
        var k := ScanNear(left, levels[i], tol);
        if k < |left| {
          hit := Some(left[k]);
          left := Remove(left, k);
        }
      }
      matched := matched + [hit];
    }
    assert levels[..|levels|] == levels && skipped[..|levels|] == skipped;
    CoverMeaning(levels, skipped, orders, tol);
    if NoAliases(levels, orders, tol) {
      TakesItsFirst(levels, skipped, orders, tol);
    }
  }

  method ScanNear(orders: seq<int>, level: int, tol: real) returns (k: nat)
    ensures k == FirstNear(orders, level, tol)
  {
    k := 0;
    while k < |orders| && !Near(orders[k], level, tol)
      invariant 0 <= k <= |orders|
      invariant forall j | 0 <= j < k :: !Near(orders[j], level, tol)
    {
      k := k + 1;
    }
    FirstIsUnique(orders, level, tol, k);
  }

  /** The bot's own grid has no aliases at its own tolerance. */
  lemma GridHasNoAliases(lower: real, step: real, levels: seq<int>, orders: seq<int>)
    requires step >= 1.0
    requires forall i | 0 <= i < |levels| :: levels[i] == LevelCents(lower, step, i)
    ensures NoAliases(levels, orders, Tolerance(step))
  {
    forall i, j, k | 0 <= i < j < |levels| && 0 <= k < |orders|
      ensures !(Near(orders[k], levels[i], Tolerance(step)) && Near(orders[k], levels[j], Tolerance(step)))
    {
      NoOrderNearTwoLevels(lower, step, i, j, orders[k]);
    }
  }

  // ----- the open orders

  /** An open order; one without a limit price covers nothing and is never touched. */
  datatype Order = Order(id: nat, price: Option<int>, isBuy: bool)

  /** The prices of the book, each once, in order of first appearance. */
  function PriceSet(orders: seq<Order>): seq<int> {
    if orders == [] then []
    else
      var r, last := PriceSet(orders[..|orders|-1]), orders[|orders|-1];
      if last.price.Some? && last.price.value !in r then r + [last.price.value] else r
  }

  /** The order remembered for each price: the last one there. */
  function OrderMap(orders: seq<Order>): map<int, Order> {
    if orders == [] then map[]
    else
      var r, last := OrderMap(orders[..|orders|-1]), orders[|orders|-1];
      if last.price.Some? then r[last.price.value := last] else r
  }

  lemma {:induction false} BookMeaning(orders: seq<Order>)
    ensures forall j, k | 0 <= j < k < |PriceSet(orders)| :: PriceSet(orders)[j] != PriceSet(orders)[k]
    ensures forall p :: p in PriceSet(orders) <==> p in OrderMap(orders)
    ensures forall p | p in OrderMap(orders) :: OrderMap(orders)[p] in orders && OrderMap(orders)[p].price == Some(p)
  {
    if orders != [] {
      BookMeaning(orders[..|orders|-1]);
    }
  }

  /** The order book as the monitor reads it. */
  method ReadBook(orders: seq<Order>) returns (prices: seq<int>, orderAt: map<int, Order>)
    ensures prices == PriceSet(orders) && orderAt == OrderMap(orders)
  {
    prices, orderAt := [], map[];
    for k := 0 to |orders|
      invariant prices == PriceSet(orders[..k]) && orderAt == OrderMap(orders[..k])
    {
      assert orders[..k+1][..k] == orders[..k];
      match orders[k].price {
        case None =>
        case Some(p) =>
          if p !in prices {
            prices := prices + [p];
          }
          orderAt := orderAt[p := orders[k]];
      }
    }
    assert orders[..|orders|] == orders;
  }

  // ----- duplicates and orphans

  predicate SeenBefore(orders: seq<Order>, k: nat, p: int)
    requires k <= |orders|
  {
    exists j :: 0 <= j < k && orders[j].price == Some(p)
  }

  /** No earlier order has its price. */
  predicate IsFirst(orders: seq<Order>, k: nat) {
    k < |orders| && orders[k].price.Some? && !SeenBefore(orders, k, orders[k].price.value)
  }

  lemma SeenStep(orders: seq<Order>, k: nat, p: int)
    requires k < |orders|
    ensures SeenBefore(orders, k + 1, p) <==> SeenBefore(orders, k, p) || orders[k].price == Some(p)
  {
  }

  predicate Wanted(orders: seq<Order>, expected: seq<int>, k: nat) {
    k < |orders| && (orders[k].price.None? || (IsFirst(orders, k) && orders[k].price.value in expected))
  }

  predicate Orphan(orders: seq<Order>, expected: seq<int>, k: nat) {
    IsFirst(orders, k) && orders[k].price.value !in expected
  }

  function Survivors(orders: seq<Order>, expected: seq<int>, cancelOk: nat -> bool): set<nat> {
    set k | 0 <= k < |orders| && (Wanted(orders, expected, k) || !cancelOk(k))
  }

  /** Step 1: keep the first order at each price and cancel the others. */
  method KillDuplicates(orders: seq<Order>, cancelOk: nat -> bool) returns (alive: seq<bool>, firsts: seq<nat>)
    ensures |alive| == |orders|
    ensures forall k | 0 <= k < |orders| :: alive[k] <==> orders[k].price.None? || IsFirst(orders, k) || !cancelOk(k)
    ensures forall k :: k in firsts <==> IsFirst(orders, k)
  {
    alive, firsts := [], [];
    var seen: set<int> := {};
    for k := 0 to |orders|
      invariant |alive| == k
      invariant forall p :: p in seen <==> SeenBefore(orders, k, p)
      invariant forall j :: j in firsts <==> 0 <= j < k && IsFirst(orders, j)
      invariant forall j | 0 <= j < k :: alive[j] <==> orders[j].price.None? || IsFirst(orders, j) || !cancelOk(j)
    {
      forall p ensures SeenBefore(orders, k + 1, p) <==> SeenBefore(orders, k, p) || orders[k].price == Some(p) {
        SeenStep(orders, k, p);
      }
      var keep := true;
      if orders[k].price.Some? {
        var p := orders[k].price.value;
        if p in seen {
          keep := !cancelOk(k);
        } else {
          firsts := firsts + [k];
          seen := seen + {p};
        }
      }
      alive := alive + [keep];
    }
  }

  /** Step 2: cancel the kept orders at prices no expected level has. */
  method KillOrphans(orders: seq<Order>, expected: seq<int>, cancelOk: nat -> bool, firsts: seq<nat>, before: seq<bool>)
    returns (alive: seq<bool>)
    requires |before| == |orders| && forall k :: k in firsts <==> IsFirst(orders, k)
    ensures |alive| == |orders|
    ensures forall k | 0 <= k < |orders| ::
      alive[k] <==> before[k] && !(Orphan(orders, expected, k) && cancelOk(k))
  {
    alive := before;
    for n := 0 to |firsts|
      invariant |alive| == |orders|
      invariant forall k | 0 <= k < |orders| ::
        alive[k] <==> before[k] && !(k in firsts[..n] && Orphan(orders, expected, k) && cancelOk(k))
    {
      var k := firsts[n];
      assert k in firsts;
      assert firsts[..n+1] == firsts[..n] + [k];
      if orders[k].price.value !in expected && cancelOk(k) {
        alive := alive[k := false];
      }
    }
    assert firsts[..|firsts|] == firsts;
  }

  /** Runs only with more orders than expected levels. What is still open afterwards: the wanted
      orders, and those whose cancel failed. */
  method KillDuplicatesAndOrphans(orders: seq<Order>, expected: seq<int>, cancelOk: nat -> bool)
    returns (alive: seq<bool>)
    ensures |alive| == |orders|
    ensures forall k | 0 <= k < |orders| ::
      alive[k] <==> |orders| <= |expected| || k in Survivors(orders, expected, cancelOk)
  {
    if |orders| <= |expected| {
      return seq(|orders|, _ => true);
    }
    var first, firsts := KillDuplicates(orders, cancelOk);
    alive := KillOrphans(orders, expected, cancelOk, firsts, first);
  }

  /** When every order has a price and every cancel works, what survives has distinct prices, all
      of expected levels, so there are at most as many orders as expected levels. */
  lemma SurvivorsFit(orders: seq<Order>, expected: seq<int>)
    requires forall k | 0 <= k < |orders| :: orders[k].price.Some?
    ensures var s := Survivors(orders, expected, _ => true);
      && (forall j, k | j in s && k in s && j != k :: orders[j].price != orders[k].price)
      && (forall k | k in s :: orders[k].price.value in expected)
      && |s| <= |expected|
  {
    var s := Survivors(orders, expected, _ => true);
    forall j, k | j in s && k in s && j < k ensures orders[j].price != orders[k].price {
      assert IsFirst(orders, k);
    }
    Injects(orders, s, expected);
  }

  /** The first order at an expected price always survives. */
  lemma FirstExpectedSurvives(orders: seq<Order>, expected: seq<int>, cancelOk: nat -> bool, k: nat)
    requires k < |orders| && orders[k].price.Some? && orders[k].price.value in expected
    ensures exists j :: j in Survivors(orders, expected, cancelOk) && j <= k && orders[j].price == orders[k].price
  {
    var j := k;
    while exists i :: 0 <= i < j && orders[i].price == orders[k].price
      invariant 0 <= j <= k && orders[j].price == orders[k].price
      decreases j
    {
      var i :| 0 <= i < j && orders[i].price == orders[k].price;
      j := i;
    }
    assert IsFirst(orders, j);
    assert Wanted(orders, expected, j);
  }

  lemma {:induction false} Injects(orders: seq<Order>, s: set<nat>, expected: seq<int>)
    requires forall k | k in s :: k < |orders| && orders[k].price.Some? && orders[k].price.value in expected
    requires forall j, k | j in s && k in s && j != k :: orders[j].price != orders[k].price
    ensures |s| <= |expected|
    decreases |expected|
  {
    if expected == [] {
      assert s == {};
    } else {
      var n := |expected| - 1;
      var p := expected[n];
      assert expected == expected[..n] + [p];
      if k :| k in s && orders[k].price.value == p {
        Injects(orders, s - {k}, expected[..n]);
      } else {
        Injects(orders, s, expected[..n]);
      }
    }
  }
}
