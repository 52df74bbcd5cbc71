/**
 The backtester's order window: only the N unfilled levels nearest to the previous close have
 a resting order. The simulation keeps the window as a price band, taken from the lowest and
 the highest of those N prices.
 */
module BacktestWindow {
  import opened Collections
  import opened Nearest

  /** The bounds start as minus and plus infinity; a window of size 0 leaves an empty band. */
  datatype Band = Everything | Nothing | Between(low: real, high: real)

  predicate Accepts(b: Band, price: real) {
    match b
    case Everything => true
    case Nothing => false
    case Between(low, high) => low <= price <= high
  }

  function Unfilled(filled: seq<bool>, n: nat): (ids: seq<nat>)
    requires n <= |filled|
    ensures forall k | 0 <= k < |ids| :: ids[k] < n
    ensures Ascending(ids)
    ensures forall k :: k in ids <==> 0 <= k < n && !filled[k]
  {
    if n == 0 then []
    else
      var ids := Unfilled(filled, n - 1);
      if filled[n-1] then ids else ids + [n-1]
  }

  /** The lowest (or highest) price of a non-empty list of levels. */
  function LowPrice(prices: seq<real>, ids: seq<nat>): real
    requires ids != [] && InRange(prices, ids)
  {
    if |ids| == 1 then prices[ids[0]]
    else
      var rest := LowPrice(prices, ids[..|ids|-1]);
      if prices[ids[|ids|-1]] < rest then prices[ids[|ids|-1]] else rest
  }

  function HighPrice(prices: seq<real>, ids: seq<nat>): real
    requires ids != [] && InRange(prices, ids)
  {
    if |ids| == 1 then prices[ids[0]]
    else
      var rest := HighPrice(prices, ids[..|ids|-1]);
      if prices[ids[|ids|-1]] > rest then prices[ids[|ids|-1]] else rest
  }

  /** The N levels the sort and slice keep. */
  function Closest(prices: seq<real>, filled: seq<bool>, p: real, n: nat): (r: seq<nat>)
    requires |filled| == |prices|
    ensures InRange(prices, r)
  {
    var ranked := ByDistance(prices, p, Unfilled(filled, |filled|));
    if |ranked| <= n then ranked else ranked[..n]
  }

  function BandOf(prices: seq<real>, filled: seq<bool>, p: real, n: nat): Band
    requires |filled| == |prices|
  {
    if |Unfilled(filled, |filled|)| <= n then Everything
    else
      var closest := Closest(prices, filled, p, n);
      if closest == [] then Nothing else Between(LowPrice(prices, closest), HighPrice(prices, closest))
  }

  // ----- the band against the window it stands for

  ghost predicate Increasing(prices: seq<real>) {
    forall j, k | 0 <= j < k < |prices| :: prices[j] < prices[k]
  }

  lemma {:induction false} Extremes(prices: seq<real>, ids: seq<nat>)
    requires ids != [] && InRange(prices, ids)
    ensures exists k :: 0 <= k < |ids| && prices[ids[k]] == LowPrice(prices, ids)
    ensures exists k :: 0 <= k < |ids| && prices[ids[k]] == HighPrice(prices, ids)
    ensures forall k | 0 <= k < |ids| :: LowPrice(prices, ids) <= prices[ids[k]] <= HighPrice(prices, ids)
  {
    var n := |ids| - 1;
    if n == 0 {
      assert prices[ids[0]] == LowPrice(prices, ids) == HighPrice(prices, ids);
    } else {
      var t := ids[..n];
      Extremes(prices, t);
      var i :| 0 <= i < |t| && prices[t[i]] == LowPrice(prices, t);
      var j :| 0 <= j < |t| && prices[t[j]] == HighPrice(prices, t);
      assert ids[i] == t[i] && ids[j] == t[j];
      assert prices[ids[n]] < LowPrice(prices, t) ==> prices[ids[n]] == LowPrice(prices, ids);
      assert prices[ids[n]] > HighPrice(prices, t) ==> prices[ids[n]] == HighPrice(prices, ids);
      forall k | 0 <= k < |ids| ensures LowPrice(prices, ids) <= prices[ids[k]] <= HighPrice(prices, ids) {
        assert k < n ==> ids[k] == t[k];
      }
    }
  }

  lemma ClosestIsTop(prices: seq<real>, filled: seq<bool>, p: real, n: nat)
    requires |filled| == |prices|
    ensures forall x :: x in Closest(prices, filled, p, n)
                   <==> x in Top(prices, p, Unfilled(filled, |filled|), n)
  {
    var r, c := ByDistance(prices, p, Unfilled(filled, |filled|)), Closest(prices, filled, p, n);
    forall x ensures x in c <==> x in Firsts(r, n) {
      if x in c {
        var k :| 0 <= k < |c| && c[k] == x;
        assert r[k] == x;
      }
      if x in Firsts(r, n) {
        var k :| 0 <= k < |r| && k < n && r[k] == x;
        assert c[k] == x;
      }
    }
  }

  /** A level strictly between two others is strictly nearer than one of them. */
  lemma BetweenIsNearer(prices: seq<real>, p: real, a: nat, u: nat, b: nat)
    requires Increasing(prices) && a < u < b < |prices|
    ensures Distance(prices, p, u) < Distance(prices, p, a) || Distance(prices, p, u) < Distance(prices, p, b)
  {
  }

  function Window(prices: seq<real>, filled: seq<bool>, p: real, n: nat): set<nat>
    requires |filled| == |prices|
  {
    Top(prices, p, Unfilled(filled, |filled|), n)
  }

  lemma NoHoles(prices: seq<real>, p: real, ids: seq<nat>, n: nat, top: set<nat>, a: nat, u: nat, b: nat)
    requires InRange(prices, ids) && Increasing(prices) && NearestSet(prices, p, ids, n, top)
    requires a < u < b && a in top && b in top && u in ids
    ensures u in top
  {
    assert a in ids && b in ids;
    BetweenIsNearer(prices, p, a, u, b);
  }

  /** The kept levels are a contiguous slice of the unfilled ones. */
  lemma WindowIsContiguous(prices: seq<real>, filled: seq<bool>, p: real, n: nat, a: nat, u: nat, b: nat)
    requires |filled| == |prices| && Increasing(prices)
    requires a < u < b && u < |prices| && !filled[u]
    requires a in Window(prices, filled, p, n) && b in Window(prices, filled, p, n)
    ensures u in Window(prices, filled, p, n)
  {
    TopIsNearest(prices, p, Unfilled(filled, |filled|), n);
    NoHoles(prices, p, Unfilled(filled, |filled|), n, Window(prices, filled, p, n), a, u, b);
  }

  lemma PricesOrderRows(prices: seq<real>, a: nat, b: nat)
    requires Increasing(prices) && a < |prices| && b < |prices|
    ensures a <= b <==> prices[a] <= prices[b]
  {
  }

  /** The band of the kept list against any level: unfilled or not. */
  lemma BandOfList(prices: seq<real>, closest: seq<nat>, u: nat)
    requires Increasing(prices) && closest != [] && InRange(prices, closest) && u < |prices|
    ensures LowPrice(prices, closest) <= prices[u] <= HighPrice(prices, closest)
      <==> exists i, j :: 0 <= i < |closest| && 0 <= j < |closest| && closest[i] <= u <= closest[j]
  {
    Extremes(prices, closest);
    var lo :| 0 <= lo < |closest| && prices[closest[lo]] == LowPrice(prices, closest);
    var hi :| 0 <= hi < |closest| && prices[closest[hi]] == HighPrice(prices, closest);
    PricesOrderRows(prices, closest[lo], u);
    PricesOrderRows(prices, u, closest[hi]);
    if i, j :| 0 <= i < |closest| && 0 <= j < |closest| && closest[i] <= u <= closest[j] {
      PricesOrderRows(prices, closest[i], u);
      PricesOrderRows(prices, u, closest[j]);
    }
  }

  lemma MemberIndex(s: seq<nat>, x: nat)
    requires x in s
    ensures exists k :: 0 <= k < |s| && s[k] == x
  {
  }

  lemma BandOfWindow(prices: seq<real>, p: real, ids: seq<nat>, n: nat, top: set<nat>, closest: seq<nat>, u: nat)
    requires InRange(prices, ids) && Increasing(prices) && NearestSet(prices, p, ids, n, top)
    requires closest != [] && InRange(prices, closest) && u < |prices| && u in ids
    requires forall x :: x in closest <==> x in top
    ensures LowPrice(prices, closest) <= prices[u] <= HighPrice(prices, closest) <==> u in top
  {
    BandOfList(prices, closest, u);
    if u in top {
      MemberIndex(closest, u);
    }
    if i, j :| 0 <= i < |closest| && 0 <= j < |closest| && closest[i] <= u <= closest[j] {
      assert closest[i] in top && closest[j] in top;
      if closest[i] < u < closest[j] {
        NoHoles(prices, p, ids, n, top, closest[i], u, closest[j]);
      }
    }
  }

  /** For distinct ascending prices the band accepts an unfilled level exactly when it is one of
      the N nearest. */
  lemma BandIsWindow(prices: seq<real>, filled: seq<bool>, p: real, n: nat, u: nat)
    requires |filled| == |prices| && Increasing(prices)
    requires u < |prices| && !filled[u]
    ensures Accepts(BandOf(prices, filled, p, n), prices[u]) <==> u in Window(prices, filled, p, n)
  {
    var ids, closest := Unfilled(filled, |filled|), Closest(prices, filled, p, n);
    ClosestIsTop(prices, filled, p, n);
    TopIsNearest(prices, p, ids, n);
    assert u in ids;
    if |ids| <= n {
      SameElements(closest, ids);
    } else if closest != [] {
      BandOfWindow(prices, p, ids, n, Window(prices, filled, p, n), closest, u);
    }
  }

  lemma NeighbourInBand(prices: seq<real>, top: set<nat>, closest: seq<nat>, i: nat, c: nat)
    requires Increasing(prices) && InRange(prices, closest) && i in top && c !in top
    requires i < |prices| && c < |prices| && (c == i + 1 || c + 1 == i)
    requires forall x :: x in closest <==> x in top
    ensures closest != []
    ensures LowPrice(prices, closest) <= prices[c] <= HighPrice(prices, closest)
      <==> exists t :: t in top && (if c > i then t > i else t < i)
  {
    assert i in closest;
    MemberIndex(closest, i);
    BandOfList(prices, closest, c);
    var at :| 0 <= at < |closest| && closest[at] == i;
    if t :| t in top && (if c > i then t > i else t < i) {
      MemberIndex(closest, t);
      var k :| 0 <= k < |closest| && closest[k] == t;
      assert t != c;
    }
    if j, k :| 0 <= j < |closest| && 0 <= k < |closest| && closest[j] <= c <= closest[k] {
      assert closest[j] in closest && closest[k] in closest;
    }
  }

  /** A level re-armed by a fill in the middle of a candle is accepted exactly when the window
      reaches past the filled level on the re-armed side; at the window's edge it is not, so
      re-armed levels are not always inside the band. */
  lemma RearmedLevel(prices: seq<real>, filled: seq<bool>, p: real, n: nat, i: nat, c: nat)
    requires |filled| == |prices| && Increasing(prices)
    requires i < |prices| && c < |prices| && (c == i + 1 || c + 1 == i) && filled[c]
    requires i in Window(prices, filled, p, n) && |Unfilled(filled, |filled|)| > n
    ensures Accepts(BandOf(prices, filled, p, n), prices[c])
      <==> exists t :: t in Window(prices, filled, p, n) && (if c > i then t > i else t < i)
  {
    ClosestIsTop(prices, filled, p, n);
    TopIsNearest(prices, p, Unfilled(filled, |filled|), n);
    assert c !in Unfilled(filled, |filled|);
    NeighbourInBand(prices, Window(prices, filled, p, n), Closest(prices, filled, p, n), i, c);
  }
}
