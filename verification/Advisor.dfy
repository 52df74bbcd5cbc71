/**
 The configuration advisor: walk-forward windows, robustness statistics, the ranking of
 candidates, and the verdict that combines the regime gate with the backtest evidence.
 */
module Advisor {
  import opened Collections
  import opened Numbers
  import opened Options
  import opened Regime

  const MIN_WINDOW_CANDLES: nat := 30

  // ----- splitWindows

  function Concat<T>(parts: seq<seq<T>>): seq<T> {
    if parts == [] then [] else Concat(parts[..|parts|-1]) + parts[|parts|-1]
  }

  /** Consecutive windows of at least the minimum length; when the candles are too few for `n` of
      them, one window with everything, or none. */
  method SplitWindows<T>(candles: seq<T>, n: int) returns (parts: seq<seq<T>>)
    ensures forall k | 0 <= k < |parts| :: |parts[k]| >= MIN_WINDOW_CANDLES
    ensures Concat(parts) == if |candles| >= MIN_WINDOW_CANDLES && n != 0 then candles else []
    ensures n > 0 && |candles| / n >= MIN_WINDOW_CANDLES ==>
      && |parts| == n
      && forall k | 0 <= k < n - 1 :: |parts[k]| == |candles| / n
    ensures n != 0 && !(n > 0 && |candles| / n >= MIN_WINDOW_CANDLES) ==> |parts| <= 1
  {
    if n == 0 {
      return [];
    }
    if n < 0 || |candles| / n < MIN_WINDOW_CANDLES {
      assert Concat<T>([]) == [] && Concat([candles]) == Concat([candles][..0]) + candles;
      return if |candles| >= MIN_WINDOW_CANDLES then [candles] else [];
    }
    WindowsFit(|candles|, n, |candles| / n);
    Enough(|candles|, n);
    parts := Slice(candles, n, |candles| / n);
  }

  lemma Enough(len: nat, n: int)
    requires n > 0 && len / n >= MIN_WINDOW_CANDLES
    ensures len >= MIN_WINDOW_CANDLES
  {
  }

  /** Where window i starts. */
  function Start(i: nat, size: nat): nat {
    if i == 0 then 0 else Start(i - 1, size) + size
  }

  lemma {:induction false} StartIsProduct(i: nat, size: nat)
    ensures Start(i, size) == i * size
  {
    if i > 0 {
      StartIsProduct(i - 1, size);
    }
  }

  lemma {:induction false} StartsGrow(i: nat, j: nat, size: nat)
    requires i <= j
    ensures Start(i, size) <= Start(j, size)
  {
    if i < j {
      StartsGrow(i, j - 1, size);
    }
  }

  lemma WindowsFit(len: nat, n: nat, size: nat)
    requires n > 0 && size == len / n
    ensures Start(n, size) <= len
  {
    StartIsProduct(n, size);
  }

  method Slice<T>(candles: seq<T>, n: nat, size: nat) returns (parts: seq<seq<T>>)
    requires n > 0 && Start(n, size) <= |candles|
    ensures |parts| == n && Concat(parts) == candles
    ensures forall k | 0 <= k < n :: |parts[k]| >= size
    ensures forall k | 0 <= k < n - 1 :: |parts[k]| == size
  {
    parts := [];
    var i := 0;
    while i < n
      invariant 0 <= i <= n && |parts| == i
      invariant Start(i, size) <= |candles|
      invariant Concat(parts) == if i < n then candles[..Start(i, size)] else candles
      invariant forall k | 0 <= k < i :: |parts[k]| >= size
      invariant forall k | 0 <= k < i && k < n - 1 :: |parts[k]| == size
    {
      StartsGrow(i + 1, n, size);
      var from, to := Start(i, size), if i == n - 1 then |candles| else Start(i + 1, size);
      assert (parts + [candles[from..to]])[..i] == parts;
      parts := parts + [candles[from..to]];
      i := i + 1;
    }
  }

  // ----- aggregateWindows

  datatype WindowResult = WindowResult(retPct: real, maxDDPct: real)

  datatype Stats = Stats(
    meanRetPct: real, medianRetPct: real, worstRetPct: real, bestRetPct: real,
    winRatePct: real, worstMaxDrawdownPct: real, windows: nat)

  function Returns(rs: seq<WindowResult>): (r: seq<real>)
    ensures |r| == |rs| && forall k | 0 <= k < |rs| :: r[k] == rs[k].retPct
  {
    seq(|rs|, k requires 0 <= k < |rs| => rs[k].retPct)
  }

  function Drawdowns(rs: seq<WindowResult>): (r: seq<real>)
    ensures |r| == |rs| && forall k | 0 <= k < |rs| :: r[k] == rs[k].maxDDPct
  {
    seq(|rs|, k requires 0 <= k < |rs| => rs[k].maxDDPct)
  }

  function MinOf(s: seq<real>): (m: real)
    requires s != []
    ensures m in s && forall x | x in s :: m <= x
  {
    var x := s[|s|-1];
    if |s| == 1 then x
    else
      var m := MinOf(s[..|s|-1]);
      assert s == s[..|s|-1] + [x];
      if m <= x then m else x
  }

  function MaxOf(s: seq<real>): (m: real)
    requires s != []
    ensures m in s && forall x | x in s :: x <= m
  {
    var x := s[|s|-1];
    if |s| == 1 then x
    else
      var m := MaxOf(s[..|s|-1]);
      assert s == s[..|s|-1] + [x];
      if m >= x then m else x
  }

  /** How many values are at most x, and how many are at least x. */
  function AtMost(s: seq<real>, x: real): (c: nat)
    ensures c <= |s|
  {
    if s == [] then 0 else (if s[0] <= x then 1 else 0) + AtMost(s[1..], x)
  }

  function AtLeast(s: seq<real>, x: real): (c: nat)
    ensures c <= |s|
  {
    if s == [] then 0 else (if s[0] >= x then 1 else 0) + AtLeast(s[1..], x)
  }

  ghost predicate Sorted(s: seq<real>) {
    forall j, k | 0 <= j <= k < |s| :: s[j] <= s[k]
  }

  function InsertValue(x: real, s: seq<real>): (r: seq<real>)
    ensures multiset(r) == multiset(s) + multiset{x}
    ensures |r| == |s| + 1
  {
    if s == [] || x <= s[0] then [x] + s
    else
      assert s == [s[0]] + s[1..];
      [s[0]] + InsertValue(x, s[1..])
  }

  function SortValues(s: seq<real>): (r: seq<real>)
    ensures multiset(r) == multiset(s)
    ensures |r| == |s|
  {
    if s == [] then []
    else
      assert s == [s[0]] + s[1..];
      InsertValue(s[0], SortValues(s[1..]))
  }

  lemma {:induction false} InsertSorts(x: real, s: seq<real>)
    requires Sorted(s)
    ensures Sorted(InsertValue(x, s))
    ensures forall v :: AtMost(InsertValue(x, s), v) == AtMost(s, v) + (if x <= v then 1 else 0)
    ensures forall v :: AtLeast(InsertValue(x, s), v) == AtLeast(s, v) + (if x >= v then 1 else 0)
  {
    var r := InsertValue(x, s);
    if s == [] || x <= s[0] {
      assert r[1..] == s;
    } else {
      var t := InsertValue(x, s[1..]);
      InsertSorts(x, s[1..]);
      assert r[1..] == t;
      forall k | 0 <= k < |t| ensures s[0] <= t[k] {
        assert t[k] in multiset(t);
        assert t[k] == x || t[k] in s[1..];
      }
    }
  }

  lemma {:induction false} SortSorts(s: seq<real>)
    ensures Sorted(SortValues(s))
    ensures forall v :: AtMost(SortValues(s), v) == AtMost(s, v)
    ensures forall v :: AtLeast(SortValues(s), v) == AtLeast(s, v)
  {
    if s != [] {
      SortSorts(s[1..]);
      InsertSorts(s[0], SortValues(s[1..]));
    }
  }

  lemma {:induction false} SortedCounts(s: seq<real>, k: nat, v: real)
    requires Sorted(s) && k < |s|
    ensures s[k] <= v ==> AtMost(s, v) >= k + 1
    ensures s[k] >= v ==> AtLeast(s, v) >= |s| - k
  {
    if k > 0 {
      SortedCounts(s[1..], k - 1, v);
    } else {
      AllAtLeast(s);
    }
  }

  lemma {:induction false} AllAtLeast(s: seq<real>)
    requires s != [] && Sorted(s)
    ensures forall v | v <= s[0] :: AtLeast(s, v) == |s|
  {
    if |s| > 1 {
      AllAtLeast(s[1..]);
    }
  }

  function Median(xs: seq<real>): real
    requires xs != []
  {
    var s := SortValues(xs);
    var m := |s| / 2;
    if |s| % 2 == 1 then s[m] else (s[m-1] + s[m]) / 2.0
  }

  /** At least half of the values are at most the median, and at least half are at least it. */
  lemma MedianSplits(xs: seq<real>)
    requires xs != []
    ensures 2 * AtMost(xs, Median(xs)) >= |xs|
    ensures 2 * AtLeast(xs, Median(xs)) >= |xs|
  {
    var s, v := SortValues(xs), Median(xs);
    SortSorts(xs);
    var m := |s| / 2;
    SortedCounts(s, m, v);
    if |s| % 2 == 0 {
      SortedCounts(s, m - 1, v);
    }
  }

  /** x is the k-th smallest value, counted from 0. */
  predicate IsAt(xs: seq<real>, k: nat, x: real) {
    x in xs && AtMost(xs, x) >= k + 1 && AtLeast(xs, x) >= |xs| - k
  }

  lemma SortedIsAt(xs: seq<real>, k: nat)
    requires k < |xs|
    ensures IsAt(xs, k, SortValues(xs)[k])
  {
    var s := SortValues(xs);
    SortSorts(xs);
    SortedCounts(s, k, s[k]);
    assert s[k] in multiset(s);
  }

  /** The median is midway between the two middle values, which are one value for an odd number. */
  lemma MedianIsMiddle(xs: seq<real>) returns (lo: real, hi: real)
    requires xs != []
    ensures IsAt(xs, (|xs| - 1) / 2, lo) && IsAt(xs, |xs| / 2, hi)
    ensures 2.0 * Median(xs) == lo + hi
  {
    hide IsAt, SortValues;
    var m := |xs| / 2;
    lo, hi := SortValues(xs)[(|xs| - 1) / 2], SortValues(xs)[m];
    SortedIsAt(xs, (|xs| - 1) / 2);
    SortedIsAt(xs, m);
  }

  function Wins(s: seq<real>): (c: nat)
    ensures c <= |s|
    ensures c == 0 <==> forall k | 0 <= k < |s| :: s[k] <= 0.0
    ensures c == |s| <==> forall k | 0 <= k < |s| :: s[k] > 0.0
  {
    if s == [] then 0
    else
      assert s == s[..|s|-1] + [s[|s|-1]];
      Wins(s[..|s|-1]) + (if s[|s|-1] > 0.0 then 1 else 0)
  }

  function Rate(wins: nat, n: nat): (r: real)
    requires wins <= n && n > 0
    ensures 0.0 <= r <= 100.0
    ensures r == 0.0 <==> wins == 0
    ensures r == 100.0 <==> wins == n
  {
    Fraction(wins as real, n as real);
    Quotient(wins as real, n as real);
    Over(wins as real, n as real) * 100.0
  }

  function Aggregate(rs: seq<WindowResult>): Option<Stats> {
    if rs == [] then None
    else
      var rets := Returns(rs);
      Some(Stats(
        Over(Sum(rets), |rets| as real), Median(rets), MinOf(rets), MaxOf(rets),
        Rate(Wins(rets), |rets|), MaxOf(Drawdowns(rs)), |rs|))
  }

  /** The mean lies between the worst and the best return; the win rate is 0 exactly when no
      window wins and 100 exactly when even the worst one does; so a positive mean needs a
      positive win rate. */
  lemma StatsMeaning(rs: seq<WindowResult>)
    requires rs != []
    ensures var s := Aggregate(rs).value;
      && s.worstRetPct <= s.meanRetPct <= s.bestRetPct
      && (s.winRatePct == 0.0 <==> s.bestRetPct <= 0.0)
      && (s.winRatePct == 100.0 <==> s.worstRetPct > 0.0)
      && (s.meanRetPct > 0.0 ==> s.winRatePct > 0.0)
  {
    var rets := Returns(rs);
    var s := Aggregate(rs).value;
    forall k | 0 <= k < |rets| ensures s.worstRetPct <= rets[k] <= s.bestRetPct {
      assert rets[k] in rets;
    }
    SumWithin(rets, s.worstRetPct, s.bestRetPct);
    OverWithin(Sum(rets), |rets| as real, s.worstRetPct, s.bestRetPct);
  }

  // ----- compareRobustness

  /** Negative when `a` ranks before `b`: viable first, then worst return, win rate and mean. */
  function CompareRobustness(a: Stats, b: Stats): real {
    var aViable, bViable := a.meanRetPct > 0.0, b.meanRetPct > 0.0;
    if aViable != bViable then (if aViable then -1.0 else 1.0)
    else if a.worstRetPct != b.worstRetPct then b.worstRetPct - a.worstRetPct
    else if a.winRatePct != b.winRatePct then b.winRatePct - a.winRatePct
    else b.meanRetPct - a.meanRetPct
  }

  /** The comparator is a total preorder, and ties are exact on every key it ranks by. */
  lemma ComparatorIsPreorder(a: Stats, b: Stats, c: Stats)
    ensures CompareRobustness(a, b) <= 0.0 || CompareRobustness(b, a) <= 0.0
    ensures CompareRobustness(a, b) < 0.0 <==> CompareRobustness(b, a) > 0.0
    ensures CompareRobustness(a, b) <= 0.0 && CompareRobustness(b, c) <= 0.0 ==> CompareRobustness(a, c) <= 0.0
    ensures CompareRobustness(a, b) < 0.0 && CompareRobustness(b, c) <= 0.0 ==> CompareRobustness(a, c) < 0.0
    ensures CompareRobustness(a, b) <= 0.0 && CompareRobustness(b, c) < 0.0 ==> CompareRobustness(a, c) < 0.0
    ensures CompareRobustness(a, b) == 0.0 <==>
      (a.worstRetPct, a.winRatePct, a.meanRetPct) == (b.worstRetPct, b.winRatePct, b.meanRetPct)
  {
  }

  /** Winning on average comes before everything else; then the mildest worst window, then the more
      frequent win, then the higher mean. */
  lemma WhoRanksFirst(a: Stats, b: Stats)
    ensures a.meanRetPct > 0.0 >= b.meanRetPct ==> CompareRobustness(a, b) < 0.0
    ensures (a.meanRetPct > 0.0 <==> b.meanRetPct > 0.0) ==>
      && (a.worstRetPct > b.worstRetPct ==> CompareRobustness(a, b) < 0.0)
      && (a.worstRetPct == b.worstRetPct && a.winRatePct > b.winRatePct ==> CompareRobustness(a, b) < 0.0)
      && (a.worstRetPct == b.worstRetPct && a.winRatePct == b.winRatePct && a.meanRetPct > b.meanRetPct ==>
            CompareRobustness(a, b) < 0.0)
  {
  }

  datatype Scored = Scored(id: nat, stats: Stats)

  /** The order of the stable sort: on a tie the candidate generated earlier stays first. */
  predicate Precedes(a: Scored, b: Scored) {
    var c := CompareRobustness(a.stats, b.stats);
    c < 0.0 || (c == 0.0 && a.id < b.id)
  }

  ghost predicate Generated(s: seq<Scored>) {
    forall j, k | 0 <= j < k < |s| :: s[j].id < s[k].id
  }

  ghost predicate BestFirst(s: seq<Scored>) {
    forall j, k | 0 <= j < k < |s| :: Precedes(s[j], s[k])
  }

  function InsertScored(x: Scored, s: seq<Scored>): (r: seq<Scored>)
    ensures multiset(r) == multiset(s) + multiset{x}
  {
    if s == [] || CompareRobustness(x.stats, s[0].stats) <= 0.0 then [x] + s
    else
      assert s == [s[0]] + s[1..];
      [s[0]] + InsertScored(x, s[1..])
  }

  function SortBest(s: seq<Scored>): (r: seq<Scored>)
    ensures multiset(r) == multiset(s)
  {
    if s == [] then []
    else
      assert s == [s[0]] + s[1..];
      InsertScored(s[0], SortBest(s[1..]))
  }

  lemma {:induction false} InsertRanks(x: Scored, s: seq<Scored>)
    requires BestFirst(s) && forall k | 0 <= k < |s| :: x.id < s[k].id
    ensures BestFirst(InsertScored(x, s))
  {
    var r := InsertScored(x, s);
    if s == [] {
    } else if CompareRobustness(x.stats, s[0].stats) <= 0.0 {
      forall k | 0 <= k < |s| ensures Precedes(x, s[k]) {
        assert k == 0 || Precedes(s[0], s[k]);
        ComparatorIsPreorder(x.stats, s[0].stats, s[k].stats);
      }
    } else {
      var t := InsertScored(x, s[1..]);
      InsertRanks(x, s[1..]);
      SameElements(t, s[1..] + [x]);
      forall k | 0 <= k < |t| ensures Precedes(s[0], t[k]) {
        assert t[k] in s[1..] + [x];
        ComparatorIsPreorder(x.stats, s[0].stats, x.stats);
      }
    }
  }

  /** Sorting ranks every pair of candidates best first, stably. */
  lemma {:induction false} SortRanks(s: seq<Scored>)
    requires Generated(s)
    ensures BestFirst(SortBest(s))
  {
    if s != [] {
      var t := SortBest(s[1..]);
      SortRanks(s[1..]);
      SameElements(t, s[1..]);
      forall k | 0 <= k < |t| ensures s[0].id < t[k].id {
        assert t[k] in s[1..];
      }
      InsertRanks(s[0], t);
    }
  }

  // ----- the verdict

  datatype Confidence = High | Med | Low

  function ConfidenceBucket(s: Stats): Confidence {
    if s.winRatePct >= 75.0 && s.worstRetPct > -10.0 then High
    else if s.winRatePct >= 50.0 && s.worstRetPct > -25.0 then Med
    else Low
  }

  function Steps(c: Confidence): nat {
    match c
    case Low => 0
    case Med => 1
    case High => 2
  }

  /** A bucket is reached by win rate and worst window together, and
      neither more wins nor a milder worst window lowers it. */
  lemma ConfidenceNeedsBoth(a: Stats, b: Stats)
    ensures Steps(ConfidenceBucket(a)) >= 1 <==> a.winRatePct >= 50.0 && a.worstRetPct > -25.0
    ensures Steps(ConfidenceBucket(a)) >= 2 <==> a.winRatePct >= 75.0 && a.worstRetPct > -10.0
    ensures a.winRatePct <= b.winRatePct && a.worstRetPct <= b.worstRetPct ==>
      Steps(ConfidenceBucket(a)) <= Steps(ConfidenceBucket(b))
  {
  }

  function RobustnessVerdict(best: Option<Stats>): Verdict {
    match best
    case None => Caution
    case Some(s) =>
      if s.meanRetPct <= 0.0 || s.winRatePct == 0.0 then NoGo
      else if s.winRatePct < 50.0 || s.worstRetPct <= -20.0 || ConfidenceBucket(s) == Low then Caution
      else Recommend
  }

  function Severity(v: Verdict): nat {
    match v
    case Recommend => 0
    case Caution => 1
    case NoGo => 2
  }

  datatype Reason = Favorable | RegimeAgainst | RegimeWithTrend | WeakBacktest

  function Combine(evidence: Verdict, gate: Verdict): Verdict {
    if Severity(evidence) > Severity(gate) then evidence else gate
  }

  function ReasonOf(evidence: Verdict, gate: Verdict): Reason {
    if gate == NoGo then RegimeAgainst
    else if Severity(evidence) >= Severity(gate) && evidence != Recommend then WeakBacktest
    else if gate == Caution then RegimeWithTrend
    else Favorable
  }

  /** The verdict is the worse of the two, and the reason names a side that says so: on a tie the gate
      when both stop, the backtest when both caution. */
  lemma ReasonMatchesVerdict(evidence: Verdict, gate: Verdict)
    ensures var v, why := Combine(evidence, gate), ReasonOf(evidence, gate);
      && Severity(v) == (if Severity(evidence) >= Severity(gate) then Severity(evidence) else Severity(gate))
      && (why == Favorable <==> v == Recommend)
      && (why == WeakBacktest ==> v == evidence != Recommend)
      && (why == RegimeAgainst || why == RegimeWithTrend ==> v == gate != Recommend)
      && (evidence == gate == NoGo ==> why == RegimeAgainst)
      && (evidence == gate == Caution ==> why == WeakBacktest)
  {
  }

  /** The scored candidates, by their position in the candidate list; one without windows has no
      statistics and drops out. */
  function ScoreAll(stats: seq<Option<Stats>>): (r: seq<Scored>)
    ensures forall k | 0 <= k < |r| :: r[k].id < |stats| && stats[r[k].id] == Some(r[k].stats)
    ensures forall c | 0 <= c < |stats| && stats[c].Some? :: Scored(c, stats[c].value) in r
  {
    if stats == [] then []
    else
      var n := |stats| - 1;
      var r := ScoreAll(stats[..n]);
      if stats[n].None? then r else r + [Scored(n, stats[n].value)]
  }

  lemma {:induction false} ScoreAllGenerated(stats: seq<Option<Stats>>)
    ensures Generated(ScoreAll(stats))
  {
    if stats != [] {
      ScoreAllGenerated(stats[..|stats|-1]);
    }
  }

  function BestOf(stats: seq<Option<Stats>>): Option<Stats> {
    var ranked := SortBest(ScoreAll(stats));
    if ranked == [] then None else Some(ranked[0].stats)
  }

  /** The candidate ranked first is one of the candidates, and viable if any candidate is. */
  lemma BestIsViable(stats: seq<Option<Stats>>)
    ensures BestOf(stats).Some? <==> exists c :: 0 <= c < |stats| && stats[c].Some?
    ensures BestOf(stats).Some? ==> BestOf(stats) in stats
    ensures BestOf(stats).Some? ==>
      forall c | 0 <= c < |stats| && stats[c].Some? :: CompareRobustness(BestOf(stats).value, stats[c].value) <= 0.0
  {
    var scored := ScoreAll(stats);
    var ranked := SortBest(scored);
    SameElements(ranked, scored);
    ScoreAllGenerated(stats);
    SortRanks(scored);
    if ranked != [] {
      assert ranked[0] in scored;
      forall c | 0 <= c < |stats| && stats[c].Some?
        ensures CompareRobustness(ranked[0].stats, stats[c].value) <= 0.0
      {
        assert Scored(c, stats[c].value) in ranked;
        var j :| 0 <= j < |ranked| && ranked[j] == Scored(c, stats[c].value);
        assert j == 0 || Precedes(ranked[0], ranked[j]);
      }
    }
  }

  /** The candidate ranked first wins on average if any candidate does, and then no winner has a milder
      worst window, nor the same one and more frequent wins. */
  lemma BestLosesLeast(stats: seq<Option<Stats>>, c: nat)
    requires c < |stats| && stats[c].Some? && stats[c].value.meanRetPct > 0.0
    ensures BestOf(stats).Some?
    ensures var best, other := BestOf(stats).value, stats[c].value;
      && best.meanRetPct > 0.0
      && best.worstRetPct >= other.worstRetPct
      && (best.worstRetPct == other.worstRetPct ==> best.winRatePct >= other.winRatePct)
      && (best.worstRetPct == other.worstRetPct && best.winRatePct == other.winRatePct ==>
            best.meanRetPct >= other.meanRetPct)
  {
    BestIsViable(stats);
    var best, other := BestOf(stats).value, stats[c].value;
    ComparatorIsPreorder(best, other, other);
    WhoRanksFirst(other, best);
  }

  /** Statistics that some windows could have: they never show a positive mean without a win. */
  predicate Coherent(s: Stats) {
    s.meanRetPct > 0.0 ==> s.winRatePct > 0.0
  }

  lemma NoGoMeansLosing(best: Stats)
    requires Coherent(best)
    ensures RobustnessVerdict(Some(best)) == NoGo <==> best.meanRetPct <= 0.0
  {
  }

  lemma NoGoOfBest(stats: seq<Option<Stats>>)
    requires forall c | 0 <= c < |stats| && stats[c].Some? :: Coherent(stats[c].value)
    ensures RobustnessVerdict(BestOf(stats)) == NoGo <==>
      && (exists c :: 0 <= c < |stats| && stats[c].Some?)
      && (forall c | 0 <= c < |stats| && stats[c].Some? :: stats[c].value.meanRetPct <= 0.0)
  {
    BestIsViable(stats);
    if BestOf(stats).Some? {
      var c :| 0 <= c < |stats| && stats[c] == BestOf(stats);
      NoGoMeansLosing(stats[c].value);
    }
  }

  function AggregateAll(results: seq<seq<WindowResult>>): (r: seq<Option<Stats>>)
    ensures |r| == |results| && forall c | 0 <= c < |r| :: r[c] == Aggregate(results[c])
  {
    seq(|results|, c requires 0 <= c < |results| => Aggregate(results[c]))
  }

  predicate Losing(rs: seq<WindowResult>) {
    rs != [] && Aggregate(rs).value.meanRetPct <= 0.0
  }

  lemma LosingMeans(rs: seq<WindowResult>)
    ensures Aggregate(rs).Some? <==> rs != []
    ensures rs != [] ==> Coherent(Aggregate(rs).value)
    ensures rs != [] ==> (Losing(rs) <==> Aggregate(rs).value.meanRetPct <= 0.0)
  {
    if rs != [] {
      StatsMeaning(rs);
    }
  }

  ghost predicate Describe(stats: seq<Option<Stats>>, results: seq<seq<WindowResult>>) {
    && |stats| == |results|
    && forall c | 0 <= c < |results| ::
      && (stats[c].Some? <==> results[c] != [])
      && (stats[c].Some? ==> Coherent(stats[c].value) && (Losing(results[c]) <==> stats[c].value.meanRetPct <= 0.0))
  }

  lemma AggregateDescribes(results: seq<seq<WindowResult>>)
    ensures Describe(AggregateAll(results), results)
  {
    forall c | 0 <= c < |results|
      ensures Aggregate(results[c]).Some? <==> results[c] != []
      ensures results[c] != [] ==> Coherent(Aggregate(results[c]).value)
    {
      LosingMeans(results[c]);
    }
  }

  lemma NoGoOfResults(stats: seq<Option<Stats>>, results: seq<seq<WindowResult>>)
    requires Describe(stats, results)
    ensures RobustnessVerdict(BestOf(stats)) == NoGo <==>
      && (exists c :: 0 <= c < |results| && results[c] != [])
      && (forall c | 0 <= c < |results| && results[c] != [] :: Losing(results[c]))
  {
    NoGoOfBest(stats);
  }

  /** The evidence says no_go exactly when some candidate was scored and every scored candidate
      loses on average: one viable candidate is enough, wherever it stands. */
  lemma EvidenceNoGo(results: seq<seq<WindowResult>>)
    ensures RobustnessVerdict(BestOf(AggregateAll(results))) == NoGo <==>
      && (exists c :: 0 <= c < |results| && results[c] != [])
      && (forall c | 0 <= c < |results| && results[c] != [] :: Losing(results[c]))
  {
    AggregateDescribes(results);
    NoGoOfResults(AggregateAll(results), results);
  }

  /** A green verdict means the gate is green and the candidate ranked first wins on average, in at
      least half its windows, and never loses 20% in one: the confidence test adds nothing. */
  lemma RecommendExactly(best: Option<Stats>, gate: Verdict)
    requires best.Some? ==> Coherent(best.value)
    ensures Combine(RobustnessVerdict(best), gate) == Recommend <==>
      && gate == Recommend && best.Some?
      && best.value.meanRetPct > 0.0 && best.value.winRatePct >= 50.0 && best.value.worstRetPct > -20.0
  {
  }

  function TopOf(all: seq<Scored>, topN: nat): seq<Scored> {
    var sorted := SortBest(all);
    if |sorted| <= topN then sorted else sorted[..topN]
  }

  /** At most topN of the candidates, best first, and nothing left out beats one of them. */
  ghost predicate Shortlist(top: seq<Scored>, all: seq<Scored>, topN: nat) {
    && BestFirst(top)
    && |top| == (if |all| <= topN then |all| else topN)
    && (forall x | x in top :: x in all)
    && forall x, y | x in top && y in all && y !in top :: Precedes(x, y)
  }

  lemma TopRanks(all: seq<Scored>, topN: nat)
    requires Generated(all)
    ensures Shortlist(TopOf(all, topN), all, topN)
  {
    var sorted, top := SortBest(all), TopOf(all, topN);
    SortRanks(all);
    SameElements(sorted, all);
    forall x, y | x in top && y in all ensures y in top || Precedes(x, y) {
      var j :| 0 <= j < |top| && sorted[j] == x;
      var k :| 0 <= k < |sorted| && sorted[k] == y;
      if k < |top| {
        assert top[k] == y;
      }
    }
  }

  /** The part of runAdvisor after the backtests. */
  method Advise(stats: seq<Option<Stats>>, gate: Verdict, topN: nat)
    returns (verdict: Verdict, reason: Reason, recommended: seq<Scored>)
    ensures verdict == Combine(RobustnessVerdict(BestOf(stats)), gate)
    ensures reason == ReasonOf(RobustnessVerdict(BestOf(stats)), gate)
    ensures Shortlist(recommended, ScoreAll(stats), topN)
  {
    var scored := SortBest(ScoreAll(stats));
    var best := if scored == [] then None else Some(scored[0].stats);
    var evidence := RobustnessVerdict(best);
    verdict := if Severity(evidence) > Severity(gate) then evidence else gate;
    if gate == NoGo {
      reason := RegimeAgainst;
    } else if Severity(evidence) >= Severity(gate) && evidence != Recommend {
      reason := WeakBacktest;
    } else if gate == Caution {
      reason := RegimeWithTrend;
    } else {
      reason := Favorable;
    }
    ScoreAllGenerated(stats);
    TopRanks(ScoreAll(stats), topN);
    recommended := if |scored| <= topN then scored else scored[..topN];
  }
}
