/**
 Ranking grid levels by their distance to a price.

 The engine, the counter-order check and the backtester all rank levels with the same
 stable ascending sort on |price - p| over level indices in ascending order, and then
 keep the first m. The ranking is a function here; what it means is `TopIsNearest`.
 */
module Nearest {
  import opened Collections

  function Distance(prices: seq<real>, p: real, i: nat): real
    requires i < |prices|
  {
    if prices[i] >= p then prices[i] - p else p - prices[i]
  }

  /** The strict order of the stable sort: nearer first, lower index first on a tie. */
  predicate Closer(prices: seq<real>, p: real, a: nat, b: nat)
    requires a < |prices| && b < |prices|
  {
    var da, db := Distance(prices, p, a), Distance(prices, p, b);
    da < db || (da == db && a < b)
  }

  ghost predicate InRange(prices: seq<real>, ids: seq<nat>) {
    forall k | 0 <= k < |ids| :: ids[k] < |prices|
  }

  ghost predicate Ascending(ids: seq<nat>) {
    forall j, k | 0 <= j < k < |ids| :: ids[j] < ids[k]
  }

  ghost predicate Ranked(prices: seq<real>, p: real, ids: seq<nat>)
    requires InRange(prices, ids)
  {
    forall j, k | 0 <= j < k < |ids| :: Closer(prices, p, ids[j], ids[k])
  }

  function Insert(prices: seq<real>, p: real, x: nat, ranked: seq<nat>): (r: seq<nat>)
    requires x < |prices| && InRange(prices, ranked)
    ensures InRange(prices, r)
    ensures multiset(r) == multiset(ranked) + multiset{x}
  {
    if ranked == [] then [x]
    else if Distance(prices, p, x) <= Distance(prices, p, ranked[0]) then [x] + ranked
    else
      assert ranked == [ranked[0]] + ranked[1..];
      [ranked[0]] + Insert(prices, p, x, ranked[1..])
  }

  /** `ids` sorted by distance to `p`. */
  function ByDistance(prices: seq<real>, p: real, ids: seq<nat>): (r: seq<nat>)
    requires InRange(prices, ids)
    ensures InRange(prices, r)
    ensures multiset(r) == multiset(ids)
    ensures |r| == |ids|
  {
    if ids == [] then []
    else
      assert ids == [ids[0]] + ids[1..];
      var r := Insert(prices, p, ids[0], ByDistance(prices, p, ids[1..]));
      assert |multiset(r)| == |multiset(ids)|;
      r
  }

  function Firsts(r: seq<nat>, m: nat): set<nat> {
    set k | 0 <= k < |r| && k < m :: r[k]
  }

  /** The ids that the slice of the first m keeps. */
  function Top(prices: seq<real>, p: real, ids: seq<nat>, m: nat): set<nat>
    requires InRange(prices, ids)
  {
    Firsts(ByDistance(prices, p, ids), m)
  }

  lemma {:induction false} InsertRanks(prices: seq<real>, p: real, x: nat, ranked: seq<nat>)
    requires x < |prices| && InRange(prices, ranked) && Ranked(prices, p, ranked)
    requires forall k | 0 <= k < |ranked| :: x < ranked[k]
    ensures Ranked(prices, p, Insert(prices, p, x, ranked))
  {
    var r := Insert(prices, p, x, ranked);
    if ranked == [] {
    } else if Distance(prices, p, x) <= Distance(prices, p, ranked[0]) {
      assert r == [x] + ranked;
      forall k | 0 <= k < |ranked| ensures Closer(prices, p, x, ranked[k]) {
        assert k == 0 || Closer(prices, p, ranked[0], ranked[k]);
      }
    } else {
      var tail := Insert(prices, p, x, ranked[1..]);
      InsertRanks(prices, p, x, ranked[1..]);
      assert r == [ranked[0]] + tail;
      assert multiset(tail) == multiset(ranked[1..] + [x]);
      SameElements(tail, ranked[1..] + [x]);
      forall k | 0 <= k < |tail| ensures Closer(prices, p, ranked[0], tail[k]) {
        assert tail[k] in ranked[1..] + [x];
      }
    }
  }

  lemma {:induction false} ByDistanceRanks(prices: seq<real>, p: real, ids: seq<nat>)
    requires InRange(prices, ids) && Ascending(ids)
    ensures Ranked(prices, p, ByDistance(prices, p, ids))
  {
    if ids != [] {
      var rest := ByDistance(prices, p, ids[1..]);
      ByDistanceRanks(prices, p, ids[1..]);
      SameElements(rest, ids[1..]);
      forall k | 0 <= k < |rest| ensures ids[0] < rest[k] {
        assert rest[k] in ids[1..];
      }
      InsertRanks(prices, p, ids[0], rest);
    }
  }

  lemma FirstsStep(r: seq<nat>, m: nat)
    requires forall j, k | 0 <= j < k < |r| :: r[j] != r[k]
    requires m < |r|
    ensures r[m] !in Firsts(r, m) && Firsts(r, m + 1) == Firsts(r, m) + {r[m]}
  {
    forall x | x in Firsts(r, m + 1) ensures x in Firsts(r, m) + {r[m]} {
      var k :| 0 <= k < |r| && k < m + 1 && r[k] == x;
    }
    forall x | x in Firsts(r, m) ensures x in Firsts(r, m + 1) && x != r[m] {
      var k :| 0 <= k < |r| && k < m && r[k] == x;
    }
  }

  lemma {:induction false} FirstsSize(r: seq<nat>, m: nat)
    requires forall j, k | 0 <= j < k < |r| :: r[j] != r[k]
    ensures |Firsts(r, m)| == if m < |r| then m else |r|
    decreases m
  {
    if m > |r| {
      FirstsSize(r, |r|);
      assert Firsts(r, m) == Firsts(r, |r|);
    } else if m > 0 {
      FirstsSize(r, m - 1);
      FirstsStep(r, m - 1);
    }
  }

  /** `top` is the m nearest of `ids`: it has min(m, |ids|) members, all from ids, and every
      member ranks before every id left out. */
  ghost predicate NearestSet(prices: seq<real>, p: real, ids: seq<nat>, m: nat, top: set<nat>)
    requires InRange(prices, ids)
  {
    && (forall a | a in top :: a in ids)
    && |top| == (if m < |ids| then m else |ids|)
    && (forall a, b | a in top && b in ids && b !in top ::
          a < |prices| && b < |prices| && Closer(prices, p, a, b))
  }

  /** Top really is the m nearest. */
  lemma TopIsNearest(prices: seq<real>, p: real, ids: seq<nat>, m: nat)
    requires InRange(prices, ids) && Ascending(ids)
    ensures NearestSet(prices, p, ids, m, Top(prices, p, ids, m))
  {
    var r := ByDistance(prices, p, ids);
    var top := Top(prices, p, ids, m);
    ByDistanceRanks(prices, p, ids);
    SameElements(r, ids);
    assert forall j, k | 0 <= j < k < |r| :: Closer(prices, p, r[j], r[k]);
    FirstsSize(r, m);
    forall a, b | a in top && b in ids && b !in top
      ensures a < |prices| && b < |prices| && Closer(prices, p, a, b)
    {
      var j :| 0 <= j < |r| && j < m && r[j] == a;
      assert b in r;
      var k :| 0 <= k < |r| && r[k] == b;
      assert m <= k;
    }
  }

  /** The ids that rank before c. */
  function NearerIds(prices: seq<real>, p: real, ids: seq<nat>, c: nat): set<nat>
    requires InRange(prices, ids) && c < |prices|
  {
    set k | k in ids && k < |prices| && Closer(prices, p, k, c)
  }

  lemma CloserOneWay(prices: seq<real>, p: real, a: nat, b: nat)
    requires a < |prices| && b < |prices| && Closer(prices, p, a, b)
    ensures a != b && !Closer(prices, p, b, a)
  {
  }

  lemma RankIs(prices: seq<real>, p: real, ids: seq<nat>, r: seq<nat>, j: nat)
    requires InRange(prices, ids) && InRange(prices, r) && Ranked(prices, p, r)
    requires j < |r| && forall x :: x in ids <==> x in r
    ensures NearerIds(prices, p, ids, r[j]) == Firsts(r, j)
  {
    forall x ensures x in NearerIds(prices, p, ids, r[j]) <==> x in Firsts(r, j) {
      if x in NearerIds(prices, p, ids, r[j]) {
        var k :| 0 <= k < |r| && r[k] == x;
        if k > j {
          CloserOneWay(prices, p, r[j], r[k]);
        }
      }
    }
  }

  /** An id is among the m nearest exactly when fewer than m of the ids rank before it. */
  lemma TopExactlyWhen(prices: seq<real>, p: real, ids: seq<nat>, m: nat, c: nat)
    requires InRange(prices, ids) && Ascending(ids) && c < |prices|
    ensures c in Top(prices, p, ids, m) <==> c in ids && |NearerIds(prices, p, ids, c)| < m
  {
    var r := ByDistance(prices, p, ids);
    ByDistanceRanks(prices, p, ids);
    SameElements(r, ids);
    if c in ids {
      var j :| 0 <= j < |r| && r[j] == c;
      RankIs(prices, p, ids, r, j);
      AllDifferent(prices, p, r);
      FirstsSize(r, j);
    }
  }

  lemma AllDifferent(prices: seq<real>, p: real, r: seq<nat>)
    requires InRange(prices, r) && Ranked(prices, p, r)
    ensures forall j, k | 0 <= j < k < |r| :: r[j] != r[k]
  {
    forall j, k | 0 <= j < k < |r| ensures r[j] != r[k] {
      assert Closer(prices, p, r[j], r[k]);
    }
  }
}
