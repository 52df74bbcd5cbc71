/**
 What pairing earns, stated on the prices and sizes of the fills: the books of a run balance, and
 with a positive spacing every pair and so the whole run earns.
 */
module PairProfit {
  import opened Pairing
  import opened Numbers

  /** What the paired sells brought in. */
  function Proceeds(pairs: seq<Pair>): real {
    if pairs == [] then 0.0
    else
      var p := pairs[|pairs|-1];
      Proceeds(pairs[..|pairs|-1]) + Times(p.sell.price, p.sell.size)
  }

  /** What the same units had cost at the prices of the paired buys. */
  function Costs(pairs: seq<Pair>): real {
    if pairs == [] then 0.0
    else
      var p := pairs[|pairs|-1];
      Costs(pairs[..|pairs|-1]) + Times(p.buy.price, p.sell.size)
  }

  lemma {:induction false} SumsOfSoundPairs(fills: seq<Fill>, w: Bounds, pairs: seq<Pair>)
    requires PairsOk(fills, w, pairs)
    ensures Gross(pairs) == Proceeds(pairs) - Costs(pairs)
  {
    if pairs != [] {
      var n := |pairs| - 1;
      SumsOfSoundPairs(fills, w, pairs[..n]);
      assert PairOk(fills, w, pairs[n]);
      SpreadSplits(pairs[n].sell.price, pairs[n].buy.price, pairs[n].sell.size);
    }
  }

  lemma SpreadSplits(sell: real, buy: real, size: real)
    ensures (sell - buy) * size == Times(sell, size) - Times(buy, size)
  {
  }

  /** The gross profit is what the paired sells brought in less what their units had cost at the
      prices of the buys they were paired with. */
  lemma GrossIsProceedsLessCosts(fills: seq<Fill>, w: Bounds)
    ensures var pairs := Match(fills, w).pairs; Gross(pairs) == Proceeds(pairs) - Costs(pairs)
  {
    PairsAreSound(fills, w);
    SumsOfSoundPairs(fills, w, Match(fills, w).pairs);
  }

  lemma SpreadTimesSize(spread: real, size: real, lo: real, hi: real)
    requires lo < spread < hi && size > 0.0
    ensures Times(lo, size) < spread * size < Times(hi, size)
  {
  }

  /** Each row stores a profit strictly between the two bounds on the spread, times its size. */
  lemma EachProfitWithin(fills: seq<Fill>, w: Bounds, k: nat)
    requires k < |Match(fills, w).pairs| && Match(fills, w).pairs[k].sell.size > 0.0
    ensures var p := Match(fills, w).pairs[k];
      Times(w.lo, p.sell.size) < p.profit < Times(w.hi, p.sell.size)
  {
    hide Match, Before, PendingOk;
    var p := Match(fills, w).pairs[k];
    PairsAreSound(fills, w);
    assert PairOk(fills, w, p);
    SpreadTimesSize(p.sell.price - p.buy.price, p.sell.size, w.lo, w.hi);
  }

  ghost predicate PositiveSizes(fills: seq<Fill>) {
    forall k | 0 <= k < |fills| :: fills[k].size > 0.0
  }

  lemma SellIsAFill(fills: seq<Fill>, w: Bounds, k: nat)
    requires k < |Match(fills, w).pairs| && PositiveSizes(fills)
    ensures Match(fills, w).pairs[k].sell.size > 0.0
  {
    PairsAreSound(fills, w);
    assert PairOk(fills, w, Match(fills, w).pairs[k]);
  }

  lemma {:induction false} GrossOfEarners(pairs: seq<Pair>)
    requires forall k | 0 <= k < |pairs| :: pairs[k].profit > 0.0
    ensures Gross(pairs) >= 0.0 && (pairs != [] ==> Gross(pairs) > 0.0)
  {
    if pairs != [] {
      GrossOfEarners(pairs[..|pairs|-1]);
    }
  }

  /** On a grid with lower < upper and fills of positive size every pair earns, and the net profit is
      above minus the fees as soon as there is a pair. */
  lemma EveryPairEarns(fills: seq<Fill>, lower: real, upper: real, numGrids: nat)
    requires numGrids > 0 && lower < upper && PositiveSizes(fills)
    ensures var pairs := Match(fills, BoundsOf(lower, upper, numGrids)).pairs;
      && (forall k | 0 <= k < |pairs| :: pairs[k].profit > 0.0)
      && (pairs != [] ==> Gross(pairs) - Fees(fills) > -Fees(fills))
  {
    var w := BoundsOf(lower, upper, numGrids);
    var pairs := Match(fills, w).pairs;
    SpacingPositive(lower, upper, numGrids);
    forall k | 0 <= k < |pairs| ensures pairs[k].profit > 0.0 {
      SellIsAFill(fills, w, k);
      EachProfitWithin(fills, w, k);
      assert Times(w.lo, pairs[k].sell.size) > 0.0;
    }
    GrossOfEarners(pairs);
  }

  lemma SpacingPositive(lower: real, upper: real, numGrids: nat)
    requires numGrids > 0 && lower < upper
    ensures (upper - lower) / (numGrids as real) > 0.0
  {
  }

  /** A buy fits a sell exactly when the spread is more than half a spacing and less than three. */
  lemma FitsExactlyWhen(b: Fill, price: real, lower: real, upper: real, numGrids: nat)
    requires numGrids > 0
    ensures var spacing := (upper - lower) / (numGrids as real);
      Fits(b, price, BoundsOf(lower, upper, numGrids)) <==>
        spacing < 2.0 * (price - b.price) && price - b.price < 3.0 * spacing
  {
  }

  /** On such a grid a sell k whole spacings above a buy is near enough for a pair exactly when k is 1
      or 2: a neighbour or the one after it, whatever the price of the instrument. */
  lemma NeighboursFit(b: Fill, k: int, lower: real, upper: real, numGrids: nat)
    requires numGrids > 0 && lower < upper
    ensures var spacing := (upper - lower) / (numGrids as real);
      Fits(b, b.price + Times(k as real, spacing), BoundsOf(lower, upper, numGrids)) <==> k == 1 || k == 2
  {
    var spacing := (upper - lower) / (numGrids as real);
    SpacingPositive(lower, upper, numGrids);
    StepsWithin(k, spacing);
  }

  lemma StepsWithin(k: int, spacing: real)
    requires spacing > 0.0
    ensures spacing * 0.5 < Times(k as real, spacing) < spacing * 3.0 <==> 1 <= k <= 2
  {
    if k <= 0 {
      assert Times(k as real, spacing) <= 0.0;
    } else if k >= 3 {
      assert (k as real - 3.0) * spacing >= 0.0;
    }
  }

  /** A buy costs its fee at once; a sell costs its fee and earns the spread of its pair. */
  lemma NetOfOneMore(fills: seq<Fill>, f: Fill, w: Bounds)
    ensures var before, after := Match(fills, w).pairs, Match(fills + [f], w).pairs;
      Gross(after) - Fees(fills + [f]) == Gross(before) - Fees(fills) - f.fee
        + if |after| > |before| then Times(after[|before|].sell.price - after[|before|].buy.price, f.size) else 0.0
  {
    hide Match, Gross, Fees, BestBuy;
    var s := Match(fills, w);
    MatchAppend(fills, f, w);
    OneMoreFee(fills, f);
    var m := BestBuy(s.pending, |s.pending|, f.price, w);
    if !f.isBuyer && m >= 0 {
      OneMorePair(s.pairs, PairOf(s.pending[m], f));
    }
  }

  lemma OneMoreFee(fills: seq<Fill>, f: Fill)
    ensures Fees(fills + [f]) == Fees(fills) + f.fee
  {
    assert (fills + [f])[..|fills|] == fills;
  }

  lemma OneMorePair(pairs: seq<Pair>, p: Pair)
    ensures Gross(pairs + [p]) == Gross(pairs) + p.profit
  {
    assert (pairs + [p])[..|pairs|] == pairs;
  }

  /** Without fills nothing is earned. */
  lemma NoFills(fills: seq<Fill>, w: Bounds)
    requires fills == []
    ensures Gross(Match(fills, w).pairs) - Fees(fills) == 0.0
  {
  }
}
