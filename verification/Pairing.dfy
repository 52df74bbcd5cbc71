/**
 Grid profit by spread pairing: each sell takes the pending buy with the smallest spread
 inside the bounds, and every pair goes into a table with insert-or-ignore on the two ids.
 */
module Pairing {

  datatype Fill = Fill(id: nat, isBuyer: bool, price: real, size: real, fee: real)

  /** A row of paired_roundtrips. */
  datatype Pair = Pair(buy: Fill, sell: Fill, profit: real)

  datatype Run = Run(pending: seq<Fill>, pairs: seq<Pair>)

  /** The open spread interval: half the spacing to three times the spacing. */
  datatype Bounds = Bounds(lo: real, hi: real)

  predicate Fits(b: Fill, price: real, w: Bounds) {
    w.lo < price - b.price < w.hi
  }

  /** The index the scan of the first n pending buys settles on, or -1. */
  function BestBuy(pending: seq<Fill>, n: nat, price: real, w: Bounds): (m: int)
    requires n <= |pending|
    ensures -1 <= m < n
  {
    if n == 0 then -1
    else
      var m := BestBuy(pending, n - 1, price, w);
      if Fits(pending[n-1], price, w) && (m < 0 || pending[n-1].price > pending[m].price) then n - 1 else m
  }

  /** The scan settles on the fitting buy with the smallest spread, the oldest of them on a tie. */
  lemma {:induction false} BestBuyIsTightest(pending: seq<Fill>, n: nat, price: real, w: Bounds)
    requires n <= |pending|
    ensures var m := BestBuy(pending, n, price, w);
      if m < 0 then forall k | 0 <= k < n :: !Fits(pending[k], price, w)
      else
        && Fits(pending[m], price, w)
        && (forall k | 0 <= k < n && Fits(pending[k], price, w) :: price - pending[m].price <= price - pending[k].price)
        && (forall k | 0 <= k < m && Fits(pending[k], price, w) :: price - pending[m].price < price - pending[k].price)
  {
    if n > 0 {
      BestBuyIsTightest(pending, n - 1, price, w);
    }
  }

  /** The whole size of the sell is credited with the spread. */
  function PairOf(b: Fill, s: Fill): Pair {
    Pair(b, s, (s.price - b.price) * s.size)
  }

  function Splice(pending: seq<Fill>, m: nat): seq<Fill>
    requires m < |pending|
  {
    pending[..m] + pending[m+1..]
  }

  function Step(s: Run, f: Fill, w: Bounds): Run {
    if f.isBuyer then s.(pending := s.pending + [f])
    else
      var m := BestBuy(s.pending, |s.pending|, f.price, w);
      if m < 0 then s else Run(Splice(s.pending, m), s.pairs + [PairOf(s.pending[m], f)])
  }

  function Match(fills: seq<Fill>, w: Bounds): Run {
    if fills == [] then Run([], []) else Step(Match(fills[..|fills|-1], w), fills[|fills|-1], w)
  }

  function Gross(pairs: seq<Pair>): real {
    if pairs == [] then 0.0 else Gross(pairs[..|pairs|-1]) + pairs[|pairs|-1].profit
  }

  function Fees(fills: seq<Fill>): real {
    if fills == [] then 0.0 else Fees(fills[..|fills|-1]) + fills[|fills|-1].fee
  }

  // ----- what a run pairs

  /** The pairs of a prefix of the fills are a prefix of the pairs of all of them. */
  lemma {:induction false} PrefixMonotone(fills: seq<Fill>, k: nat, w: Bounds)
    requires k <= |fills|
    ensures Match(fills[..k], w).pairs <= Match(fills, w).pairs
    decreases |fills|
  {
    if k < |fills| {
      PrefixMonotone(fills[..|fills|-1], k, w);
      assert fills[..|fills|-1][..k] == fills[..k];
    } else {
      assert fills[..k] == fills;
    }
  }

  function BuysOf(pairs: seq<Pair>): multiset<Fill> {
    if pairs == [] then multiset{} else BuysOf(pairs[..|pairs|-1]) + multiset{pairs[|pairs|-1].buy}
  }

  function SellsOf(pairs: seq<Pair>): multiset<Fill> {
    if pairs == [] then multiset{} else SellsOf(pairs[..|pairs|-1]) + multiset{pairs[|pairs|-1].sell}
  }

  function Side(fills: seq<Fill>, buys: bool): multiset<Fill> {
    if fills == [] then multiset{}
    else Side(fills[..|fills|-1], buys) + if fills[|fills|-1].isBuyer == buys then multiset{fills[|fills|-1]} else multiset{}
  }

  lemma StepAccounts(s: Run, f: Fill, w: Bounds)
    ensures var r := Step(s, f, w);
      && multiset(r.pending) + BuysOf(r.pairs)
           == multiset(s.pending) + BuysOf(s.pairs) + (if f.isBuyer then multiset{f} else multiset{})
      && SellsOf(r.pairs) <= SellsOf(s.pairs) + (if f.isBuyer then multiset{} else multiset{f})
  {
    var m := BestBuy(s.pending, |s.pending|, f.price, w);
    if !f.isBuyer && m >= 0 {
      var p := PairOf(s.pending[m], f);
      assert s.pending == s.pending[..m] + [s.pending[m]] + s.pending[m+1..];
      assert multiset(s.pending) == multiset(Splice(s.pending, m)) + multiset{s.pending[m]};
      assert (s.pairs + [p])[..|s.pairs|] == s.pairs;
    }
  }

  /** Every buy fill is pending or in a pair, never both and never twice; every paired sell is a
      sell fill, used once. */
  lemma {:induction false} EachFillOnce(fills: seq<Fill>, w: Bounds)
    ensures var r := Match(fills, w);
      && multiset(r.pending) + BuysOf(r.pairs) == Side(fills, true)
      && SellsOf(r.pairs) <= Side(fills, false)
  {
    if fills != [] {
      EachFillOnce(fills[..|fills|-1], w);
      StepAccounts(Match(fills[..|fills|-1], w), fills[|fills|-1], w);
    }
  }

  /** b comes before s in the archive. */
  ghost predicate Before(fills: seq<Fill>, b: Fill, s: Fill) {
    exists i, j :: 0 <= i < j < |fills| && fills[i] == b && fills[j] == s
  }

  ghost predicate PairOk(fills: seq<Fill>, w: Bounds, p: Pair) {
    && p.buy.isBuyer && !p.sell.isBuyer
    && Before(fills, p.buy, p.sell)
    && Fits(p.buy, p.sell.price, w)
    && p == PairOf(p.buy, p.sell)
  }

  lemma PairOkGrows(fills: seq<Fill>, f: Fill, w: Bounds, p: Pair)
    requires PairOk(fills, w, p)
    ensures PairOk(fills + [f], w, p)
  {
    var i, j :| 0 <= i < j < |fills| && fills[i] == p.buy && fills[j] == p.sell;
    assert (fills + [f])[i] == p.buy && (fills + [f])[j] == p.sell;
  }

  ghost predicate PairsOk(fills: seq<Fill>, w: Bounds, pairs: seq<Pair>) {
    forall k | 0 <= k < |pairs| :: PairOk(fills, w, pairs[k])
  }

  ghost predicate PendingOk(fills: seq<Fill>, pending: seq<Fill>) {
    forall k | 0 <= k < |pending| :: pending[k].isBuyer && pending[k] in fills
  }

  lemma NewPairOk(fills: seq<Fill>, f: Fill, w: Bounds, pending: seq<Fill>, m: nat)
    requires m < |pending| && m == BestBuy(pending, |pending|, f.price, w) && !f.isBuyer
    requires pending[m].isBuyer && pending[m] in fills
    ensures PairOk(fills + [f], w, PairOf(pending[m], f))
  {
    BestBuyIsTightest(pending, |pending|, f.price, w);
    var i :| 0 <= i < |fills| && fills[i] == pending[m];
    assert (fills + [f])[i] == pending[m] && (fills + [f])[|fills|] == f;
  }

  lemma PairsGrow(fills: seq<Fill>, f: Fill, w: Bounds, pairs: seq<Pair>)
    requires PairsOk(fills, w, pairs)
    ensures PairsOk(fills + [f], w, pairs)
  {
    forall k | 0 <= k < |pairs| ensures PairOk(fills + [f], w, pairs[k]) {
      PairOkGrows(fills, f, w, pairs[k]);
    }
  }

  lemma SpliceOk(fills: seq<Fill>, pending: seq<Fill>, m: nat)
    requires PendingOk(fills, pending) && m < |pending|
    ensures PendingOk(fills, Splice(pending, m))
  {
    var rest := Splice(pending, m);
    assert forall k | 0 <= k < |rest| :: rest[k] == pending[if k < m then k else k + 1];
  }

  lemma StepIsSound(fills: seq<Fill>, f: Fill, w: Bounds, s: Run)
    requires PairsOk(fills, w, s.pairs) && PendingOk(fills, s.pending)
    ensures PairsOk(fills + [f], w, Step(s, f, w).pairs)
    ensures PendingOk(fills + [f], Step(s, f, w).pending)
  {
    PairsGrow(fills, f, w, s.pairs);
    assert PendingOk(fills + [f], s.pending);
    if !f.isBuyer {
      var m := BestBuy(s.pending, |s.pending|, f.price, w);
      if m >= 0 {
        NewPairOk(fills, f, w, s.pending, m);
        SpliceOk(fills + [f], s.pending, m);
      }
    }
  }

  /** In every pair the buy precedes the sell and the spread lies strictly inside the bounds. */
  lemma {:induction false} PairsAreSound(fills: seq<Fill>, w: Bounds)
    ensures PairsOk(fills, w, Match(fills, w).pairs) && PendingOk(fills, Match(fills, w).pending)
  {
    if fills != [] {
      var n := |fills| - 1;
      PairsAreSound(fills[..n], w);
      StepIsSound(fills[..n], fills[n], w, Match(fills[..n], w));
      assert fills[..n] + [fills[n]] == fills;
    }
  }

  // ----- the table

  predicate SameKey(a: Pair, b: Pair) {
    a.buy.id == b.buy.id && a.sell.id == b.sell.id
  }

  predicate HasKey(table: seq<Pair>, p: Pair) {
    exists k :: 0 <= k < |table| && SameKey(table[k], p)
  }

  function InsertOrIgnore(table: seq<Pair>, p: Pair): seq<Pair> {
    if HasKey(table, p) then table else table + [p]
  }

  function InsertAll(table: seq<Pair>, pairs: seq<Pair>): seq<Pair> {
    if pairs == [] then table else InsertOrIgnore(InsertAll(table, pairs[..|pairs|-1]), pairs[|pairs|-1])
  }

  lemma {:induction false} InsertAllSplit(table: seq<Pair>, a: seq<Pair>, b: seq<Pair>)
    ensures InsertAll(table, a + b) == InsertAll(InsertAll(table, a), b)
  {
    if b == [] {
      assert a + b == a;
    } else {
      assert (a + b)[..|a+b|-1] == a + b[..|b|-1];
      InsertAllSplit(table, a, b[..|b|-1]);
    }
  }

  lemma {:induction false} InsertAllGrows(table: seq<Pair>, pairs: seq<Pair>)
    ensures table <= InsertAll(table, pairs)
    ensures forall k | 0 <= k < |pairs| :: HasKey(InsertAll(table, pairs), pairs[k])
  {
    if pairs != [] {
      var n := |pairs| - 1;
      var mid, all := InsertAll(table, pairs[..n]), InsertAll(table, pairs);
      InsertAllGrows(table, pairs[..n]);
      forall k | 0 <= k < |pairs| ensures HasKey(all, pairs[k]) {
        if k < n {
          assert HasKey(mid, pairs[..n][k]);
          var j :| 0 <= j < |mid| && SameKey(mid[j], pairs[k]);
          assert all[j] == mid[j];
        } else if !HasKey(mid, pairs[n]) {
          assert SameKey(all[|mid|], pairs[n]);
        }
      }
    }
  }

  lemma {:induction false} InsertKnown(table: seq<Pair>, pairs: seq<Pair>)
    requires forall k | 0 <= k < |pairs| :: HasKey(table, pairs[k])
    ensures InsertAll(table, pairs) == table
  {
    if pairs != [] {
      InsertKnown(table, pairs[..|pairs|-1]);
    }
  }

  function Fresh(fills: seq<Fill>, w: Bounds): seq<Pair> {
    InsertAll([], Match(fills, w).pairs)
  }

  /** Re-running on an archive that grew at its end leaves the table of one fresh run. */
  lemma RerunIsFreshRun(fills: seq<Fill>, k: nat, w: Bounds)
    requires k <= |fills|
    ensures InsertAll(Fresh(fills[..k], w), Match(fills, w).pairs) == Fresh(fills, w)
  {
    var old_, all := Match(fills[..k], w).pairs, Match(fills, w).pairs;
    PrefixMonotone(fills, k, w);
    var more := all[|old_|..];
    assert all == old_ + more;
    InsertAllSplit([], old_, more);
    InsertAllSplit(Fresh(fills[..k], w), old_, more);
    InsertAllGrows([], old_);
    InsertKnown(Fresh(fills[..k], w), old_);
  }

  /** The table after a run for each archive of the history. */
  function Reruns(history: seq<seq<Fill>>, w: Bounds): seq<Pair> {
    if history == [] then []
    else InsertAll(Reruns(history[..|history|-1], w), Match(history[|history|-1], w).pairs)
  }

  ghost predicate GrowsAtEnd(history: seq<seq<Fill>>) {
    |history| > 1 ==>
      GrowsAtEnd(history[..|history|-1]) && history[|history|-2] <= history[|history|-1]
  }

  /** However often it runs, the table is the one of a single run on the last archive. */
  lemma {:induction false} AnyNumberOfRuns(history: seq<seq<Fill>>, w: Bounds)
    requires history != [] && GrowsAtEnd(history)
    ensures Reruns(history, w) == Fresh(history[|history|-1], w)
  {
    if |history| > 1 {
      var before, last := history[..|history|-1], history[|history|-1];
      AnyNumberOfRuns(before, w);
      assert last[..|before[|before|-1]|] == before[|before|-1];
      RerunIsFreshRun(last, |before[|before|-1]|, w);
    } else {
      assert history[..|history|-1] == [];
    }
  }

  lemma TwoFills(b: Fill, s: Fill, w: Bounds)
    requires b.isBuyer && !s.isBuyer && Fits(b, s.price, w)
    ensures Match([b, s], w).pairs == [PairOf(b, s)]
  {
    MatchAppend([], b, w);
    MatchAppend([b], s, w);
    assert [] + [b] == [b] && [b] + [s] == [b, s];
    assert BestBuy([b], 1, s.price, w) == 0;
  }

  lemma ThreeFills(b: Fill, late: Fill, s: Fill, w: Bounds)
    requires b.isBuyer && late.isBuyer && !s.isBuyer && Fits(late, s.price, w) && late.price > b.price
    ensures Match([b, late, s], w).pairs == [PairOf(late, s)]
  {
    MatchAppend([], b, w);
    MatchAppend([b], late, w);
    MatchAppend([b, late], s, w);
    assert [] + [b] == [b] && [b] + [late] == [b, late] && [b, late] + [s] == [b, late, s];
    assert BestBuy([b, late], 1, s.price, w) <= 0;
    assert BestBuy([b, late], 2, s.price, w) == 1;
  }

  /** A buy that arrives late and belongs in the middle of the archive breaks this whenever it is
      the tighter match: after the re-run the sell is stored with both buys. */
  lemma LateFillPairsTwice(b: Fill, late: Fill, s: Fill, w: Bounds)
    requires b.isBuyer && late.isBuyer && !s.isBuyer && b.id != late.id
    requires Fits(b, s.price, w) && Fits(late, s.price, w) && late.price > b.price
    ensures InsertAll(Fresh([b, s], w), Match([b, late, s], w).pairs) == [PairOf(b, s), PairOf(late, s)]
  {
    TwoFills(b, s, w);
    ThreeFills(b, late, s, w);
    OneRow([], PairOf(b, s));
    OneRow([PairOf(b, s)], PairOf(late, s));
    assert !SameKey([PairOf(b, s)][0], PairOf(late, s));
  }

  lemma MatchAppend(fills: seq<Fill>, f: Fill, w: Bounds)
    ensures Match(fills + [f], w) == Step(Match(fills, w), f, w)
  {
    assert (fills + [f])[..|fills|] == fills;
  }

  lemma OneRow(table: seq<Pair>, p: Pair)
    ensures InsertAll(table, [p]) == InsertOrIgnore(table, p)
  {
    assert [p][..0] == [];
  }

  // ----- fills that arrive late

  predicate HasIds(table: seq<Pair>, buyId: nat, sellId: nat) {
    exists k :: 0 <= k < |table| && table[k].buy.id == buyId && table[k].sell.id == sellId
  }

  /** The same pairs of ids. */
  ghost predicate SameRows(a: seq<Pair>, b: seq<Pair>) {
    forall buyId: nat, sellId: nat :: HasIds(a, buyId, sellId) <==> HasIds(b, buyId, sellId)
  }

  ghost predicate AllKeysIn(a: seq<Pair>, b: seq<Pair>) {
    forall k | 0 <= k < |a| :: HasIds(b, a[k].buy.id, a[k].sell.id)
  }

  lemma HasIdsStep(pairs: seq<Pair>, buyId: nat, sellId: nat)
    requires pairs != []
    ensures var last := pairs[|pairs|-1];
      HasIds(pairs, buyId, sellId) <==>
        HasIds(pairs[..|pairs|-1], buyId, sellId) || (last.buy.id == buyId && last.sell.id == sellId)
  {
    var n := |pairs| - 1;
    if k :| 0 <= k < |pairs| && pairs[k].buy.id == buyId && pairs[k].sell.id == sellId {
      assert k == n || pairs[..n][k] == pairs[k];
    }
    if k :| 0 <= k < n && pairs[..n][k].buy.id == buyId && pairs[..n][k].sell.id == sellId {
      assert pairs[k] == pairs[..n][k];
    }
  }

  lemma InsertOneIds(table: seq<Pair>, q: Pair, buyId: nat, sellId: nat)
    ensures HasIds(InsertOrIgnore(table, q), buyId, sellId)
      <==> HasIds(table, buyId, sellId) || (q.buy.id == buyId && q.sell.id == sellId)
  {
    if HasKey(table, q) {
      var k :| 0 <= k < |table| && SameKey(table[k], q);
    } else {
      assert (table + [q])[..|table|] == table;
      HasIdsStep(table + [q], buyId, sellId);
    }
  }

  lemma {:induction false} InsertAllIds(table: seq<Pair>, pairs: seq<Pair>, buyId: nat, sellId: nat)
    ensures HasIds(InsertAll(table, pairs), buyId, sellId)
      <==> HasIds(table, buyId, sellId) || HasIds(pairs, buyId, sellId)
  {
    if pairs != [] {
      var n := |pairs| - 1;
      InsertAllIds(table, pairs[..n], buyId, sellId);
      InsertOneIds(InsertAll(table, pairs[..n]), pairs[n], buyId, sellId);
      HasIdsStep(pairs, buyId, sellId);
    }
  }

  lemma RerunIds(old_: seq<Pair>, new_: seq<Pair>, buyId: nat, sellId: nat)
    ensures HasIds(InsertAll(InsertAll([], old_), new_), buyId, sellId)
      <==> HasIds(old_, buyId, sellId) || HasIds(new_, buyId, sellId)
    ensures HasIds(InsertAll([], new_), buyId, sellId) <==> HasIds(new_, buyId, sellId)
  {
    InsertAllIds(InsertAll([], old_), new_, buyId, sellId);
    InsertAllIds([], old_, buyId, sellId);
    InsertAllIds([], new_, buyId, sellId);
  }

  lemma KeysAreIds(old_: seq<Pair>, new_: seq<Pair>, buyId: nat, sellId: nat)
    requires AllKeysIn(old_, new_) && HasIds(old_, buyId, sellId)
    ensures HasIds(new_, buyId, sellId)
  {
    var k :| 0 <= k < |old_| && old_[k].buy.id == buyId && old_[k].sell.id == sellId;
    assert HasIds(new_, old_[k].buy.id, old_[k].sell.id);
  }

  lemma TablesAgree(old_: seq<Pair>, new_: seq<Pair>)
    ensures SameRows(InsertAll(InsertAll([], old_), new_), InsertAll([], new_)) <==> AllKeysIn(old_, new_)
  {
    if AllKeysIn(old_, new_) {
      forall buyId: nat, sellId: nat
        ensures HasIds(InsertAll(InsertAll([], old_), new_), buyId, sellId) <==> HasIds(InsertAll([], new_), buyId, sellId)
      {
        RerunIds(old_, new_, buyId, sellId);
        if HasIds(old_, buyId, sellId) {
          KeysAreIds(old_, new_, buyId, sellId);
        }
      }
    }
    if SameRows(InsertAll(InsertAll([], old_), new_), InsertAll([], new_)) {
      forall k | 0 <= k < |old_| ensures HasIds(new_, old_[k].buy.id, old_[k].sell.id) {
        RerunIds(old_, new_, old_[k].buy.id, old_[k].sell.id);
        assert HasIds(old_, old_[k].buy.id, old_[k].sell.id);
      }
    }
  }

  /** After a re-run on any other archive the table holds the rows of a fresh run exactly when every
      pair of the old archive is still a pair of the new one. */
  lemma RerunSameExactlyWhen(before: seq<Fill>, after: seq<Fill>, w: Bounds)
    ensures SameRows(InsertAll(Fresh(before, w), Match(after, w).pairs), Fresh(after, w))
      <==> AllKeysIn(Match(before, w).pairs, Match(after, w).pairs)
  {
    TablesAgree(Match(before, w).pairs, Match(after, w).pairs);
  }

  /** The pairs that the rest of an archive adds to these pending buys. */
  function PairsFrom(pending: seq<Fill>, rest: seq<Fill>, w: Bounds): seq<Pair>
    decreases |rest|
  {
    if rest == [] then []
    else
      var f := rest[0];
      if f.isBuyer then PairsFrom(pending + [f], rest[1..], w)
      else
        var m := BestBuy(pending, |pending|, f.price, w);
        if m < 0 then PairsFrom(pending, rest[1..], w)
        else [PairOf(pending[m], f)] + PairsFrom(Splice(pending, m), rest[1..], w)
  }

  lemma {:induction false} MatchOn(a: seq<Fill>, b: seq<Fill>, w: Bounds)
    ensures Match(a + b, w).pairs == Match(a, w).pairs + PairsFrom(Match(a, w).pending, b, w)
    decreases |b|
  {
    if b == [] {
      assert a + b == a;
    } else {
      MatchAppend(a, b[0], w);
      assert a + b == (a + [b[0]]) + b[1..];
      MatchOn(a + [b[0]], b[1..], w);
    }
  }

  function Inserted(pending: seq<Fill>, j: nat, late: Fill): seq<Fill>
    requires j <= |pending|
  {
    pending[..j] + [late] + pending[j..]
  }

  /** Where the late fill stands after the m-th other buy is taken. */
  function Shifted(j: nat, m: int): nat {
    if 0 <= m < j then j - 1 else j
  }

  /** Where the m-th other buy stands beside the late fill. */
  function Beside(j: nat, m: int): int {
    if m >= j then m + 1 else m
  }

  /** The scan's choice is the only one that is tightest, and first among the tightest. */
  predicate Chosen(pending: seq<Fill>, m: nat, price: real, w: Bounds) {
    && m < |pending| && Fits(pending[m], price, w)
    && (forall k | 0 <= k < |pending| && Fits(pending[k], price, w) :: pending[k].price <= pending[m].price)
    && (forall k | 0 <= k < m && Fits(pending[k], price, w) :: pending[k].price < pending[m].price)
  }

  lemma BestIsChosen(pending: seq<Fill>, price: real, w: Bounds)
    ensures var m := BestBuy(pending, |pending|, price, w);
      if m < 0 then forall k | 0 <= k < |pending| :: !Fits(pending[k], price, w) else Chosen(pending, m, price, w)
  {
    BestBuyIsTightest(pending, |pending|, price, w);
  }

  lemma ChosenIsBest(pending: seq<Fill>, m: nat, price: real, w: Bounds)
    requires Chosen(pending, m, price, w)
    ensures BestBuy(pending, |pending|, price, w) == m
  {
    BestIsChosen(pending, price, w);
  }

  lemma InsertedAt(pending: seq<Fill>, j: nat, late: Fill, k: nat)
    requires j <= |pending| && k < |pending|
    ensures Inserted(pending, j, late)[Beside(j, k)] == pending[k]
  {
  }

  /** One more pending buy either is the sell's choice or does not change it. */
  lemma OthersKeepTheirChoice(pending: seq<Fill>, j: nat, late: Fill, price: real, w: Bounds)
    requires j <= |pending|
    ensures var all := Inserted(pending, j, late);
      var m, n := BestBuy(pending, |pending|, price, w), BestBuy(all, |all|, price, w);
      n == j || n == Beside(j, m)
  {
    var all := Inserted(pending, j, late);
    var n := BestBuy(all, |all|, price, w);
    BestIsChosen(all, price, w);
    BestIsChosen(pending, price, w);
    forall k: nat | k < |pending| ensures all[Beside(j, k)] == pending[k] {
      InsertedAt(pending, j, late, k);
    }
    if n >= 0 && n != j {
      ChosenIsBest(pending, if n < j then n else n - 1, price, w);
    }
  }

  lemma TakeLate(pending: seq<Fill>, j: nat, late: Fill)
    requires j <= |pending|
    ensures Splice(Inserted(pending, j, late), j) == pending
    ensures Inserted(pending, j, late)[j] == late
  {
  }

  lemma SpliceAt(pending: seq<Fill>, m: nat, k: nat)
    requires m < |pending| && k < |pending| - 1
    ensures Splice(pending, m)[k] == pending[if k < m then k else k + 1]
  {
  }

  lemma InsertedIs(pending: seq<Fill>, j: nat, late: Fill, k: nat)
    requires j <= |pending| && k <= |pending|
    ensures Inserted(pending, j, late)[k] == if k < j then pending[k] else if k == j then late else pending[k-1]
  {
  }

  lemma TakeOther(pending: seq<Fill>, j: nat, late: Fill, m: nat)
    requires j <= |pending| && m < |pending|
    ensures Splice(Inserted(pending, j, late), Beside(j, m)) == Inserted(Splice(pending, m), Shifted(j, m), late)
    ensures Inserted(pending, j, late)[Beside(j, m)] == pending[m]
  {
    var all, a := Inserted(pending, j, late), Splice(Inserted(pending, j, late), Beside(j, m));
    var b := Inserted(Splice(pending, m), Shifted(j, m), late);
    assert |a| == |b|;
    forall k | 0 <= k < |a| ensures a[k] == b[k] {
      SpliceAt(all, Beside(j, m), k);
      InsertedIs(pending, j, late, if k < Beside(j, m) then k else k + 1);
      InsertedIs(Splice(pending, m), Shifted(j, m), late, k);
      if k != Shifted(j, m) {
        SpliceAt(pending, m, if k < Shifted(j, m) then k else k - 1);
      }
    }
  }

  lemma PushBoth(pending: seq<Fill>, j: nat, late: Fill, f: Fill)
    requires j <= |pending|
    ensures Inserted(pending, j, late) + [f] == Inserted(pending + [f], j, late)
  {
  }

  /** What becomes of one more pending buy in the rest of the archive. */
  datatype Fate = NeverTaken | TakesFreeSell | TakesMatchedSell

  function FateOf(pending: seq<Fill>, j: nat, late: Fill, rest: seq<Fill>, w: Bounds): Fate
    requires j <= |pending|
    decreases |rest|
  {
    if rest == [] then NeverTaken
    else
      var f := rest[0];
      if f.isBuyer then FateOf(pending + [f], j, late, rest[1..], w)
      else
        var all, m := Inserted(pending, j, late), BestBuy(pending, |pending|, f.price, w);
        if BestBuy(all, |all|, f.price, w) == j then (if m < 0 then TakesFreeSell else TakesMatchedSell)
        else if m < 0 then FateOf(pending, j, late, rest[1..], w)
        else FateOf(Splice(pending, m), Shifted(j, m), late, rest[1..], w)
  }

  lemma KeysOfMore(a: seq<Pair>, b: seq<Pair>, x: Pair)
    requires AllKeysIn(a, b)
    ensures AllKeysIn(a, [x] + b) && AllKeysIn([x] + a, [x] + b)
  {
    forall k | 0 <= k < |a| ensures HasIds([x] + b, a[k].buy.id, a[k].sell.id) {
      var i :| 0 <= i < |b| && b[i].buy.id == a[k].buy.id && b[i].sell.id == a[k].sell.id;
      assert ([x] + b)[i + 1] == b[i];
    }
    assert ([x] + b)[0] == x;
    forall k | 0 <= k < |[x] + a| ensures HasIds([x] + b, ([x] + a)[k].buy.id, ([x] + a)[k].sell.id) {
      assert k == 0 || ([x] + a)[k] == a[k-1];
    }
  }

  lemma KeysOfSelf(a: seq<Pair>)
    ensures AllKeysIn(a, a)
  {
  }

  /** A buy that is never taken changes no pair, and one that takes only a free sell adds one. */
  lemma {:induction false} HarmlessKeeps(pending: seq<Fill>, j: nat, late: Fill, rest: seq<Fill>, w: Bounds)
    requires j <= |pending|
    ensures FateOf(pending, j, late, rest, w) == NeverTaken ==>
      PairsFrom(Inserted(pending, j, late), rest, w) == PairsFrom(pending, rest, w)
    ensures FateOf(pending, j, late, rest, w) == TakesFreeSell ==>
      AllKeysIn(PairsFrom(pending, rest, w), PairsFrom(Inserted(pending, j, late), rest, w))
    decreases |rest|
  {
    if rest != [] {
      var f, all := rest[0], Inserted(pending, j, late);
      if f.isBuyer {
        PushBoth(pending, j, late, f);
        HarmlessKeeps(pending + [f], j, late, rest[1..], w);
      } else {
        var m := BestBuy(pending, |pending|, f.price, w);
        OthersKeepTheirChoice(pending, j, late, f.price, w);
        if BestBuy(all, |all|, f.price, w) == j {
          TakeLate(pending, j, late);
          KeysOfSelf(PairsFrom(pending, rest[1..], w));
          KeysOfMore(PairsFrom(pending, rest[1..], w), PairsFrom(pending, rest[1..], w), PairOf(late, f));
        } else if m < 0 {
          HarmlessKeeps(pending, j, late, rest[1..], w);
        } else {
          TakeOther(pending, j, late, m);
          HarmlessKeeps(Splice(pending, m), Shifted(j, m), late, rest[1..], w);
          if FateOf(pending, j, late, rest, w) == TakesFreeSell {
            KeysOfMore(PairsFrom(Splice(pending, m), rest[1..], w),
                       PairsFrom(Inserted(Splice(pending, m), Shifted(j, m), late), rest[1..], w), PairOf(pending[m], f));
          }
        }
      }
    }
  }

  predicate Avoids(fills: seq<Fill>, id: nat) {
    forall k | 0 <= k < |fills| :: fills[k].id != id
  }

  ghost predicate DistinctIds(fills: seq<Fill>) {
    forall j, k | 0 <= j < k < |fills| :: fills[j].id != fills[k].id
  }

  lemma {:induction false} SellsComeFromRest(pending: seq<Fill>, rest: seq<Fill>, w: Bounds, id: nat)
    requires Avoids(rest, id)
    ensures forall k | 0 <= k < |PairsFrom(pending, rest, w)| :: PairsFrom(pending, rest, w)[k].sell.id != id
    decreases |rest|
  {
    if rest != [] {
      var f := rest[0];
      if f.isBuyer {
        SellsComeFromRest(pending + [f], rest[1..], w, id);
      } else {
        var m := BestBuy(pending, |pending|, f.price, w);
        SellsComeFromRest(if m < 0 then pending else Splice(pending, m), rest[1..], w, id);
      }
    }
  }

  /** A pair that one of two pairings has, and whose key the other has not. Its sell is one of the
      rest. */
  ghost predicate OnlyIn(a: seq<Pair>, b: seq<Pair>, rest: seq<Fill>, x: Pair) {
    x in a && !HasIds(b, x.buy.id, x.sell.id) && x.sell in rest
  }

  lemma OnlyInTail(a: seq<Pair>, b: seq<Pair>, rest: seq<Fill>, x: Pair, y: Pair)
    requires rest != [] && OnlyIn(a, b, rest[1..], x) && y.sell.id == rest[0].id && DistinctIds(rest)
    ensures OnlyIn([y] + a, [y] + b, rest, x)
  {
    var j :| 0 <= j < |rest[1..]| && rest[1..][j] == x.sell;
    assert rest[j + 1] == x.sell;
    HeadDiffers(b, y, x.buy.id, x.sell.id);
  }

  lemma HeadDiffers(b: seq<Pair>, y: Pair, buyId: nat, sellId: nat)
    requires y.buy.id != buyId || y.sell.id != sellId
    ensures HasIds([y] + b, buyId, sellId) <==> HasIds(b, buyId, sellId)
  {
    if k :| 0 <= k < |b| && b[k].buy.id == buyId && b[k].sell.id == sellId {
      assert ([y] + b)[k + 1] == b[k];
    }
    if k :| 0 <= k < |[y] + b| && ([y] + b)[k].buy.id == buyId && ([y] + b)[k].sell.id == sellId {
      assert k != 0;
      assert ([y] + b)[k] == b[k-1];
    }
  }

  lemma SpliceAvoids(pending: seq<Fill>, m: nat, id: nat)
    requires m < |pending| && Avoids(pending, id)
    ensures Avoids(Splice(pending, m), id)
  {
    var r := Splice(pending, m);
    assert forall k | 0 <= k < |r| :: r[k] == pending[if k < m then k else k + 1];
  }

  /** A sell's own pair, and what the other pairing makes of the sell: another buy, or nothing. */
  lemma OwnPair(x: Pair, tail: seq<Pair>, pending: seq<Fill>, rest: seq<Fill>, w: Bounds, other: Pair)
    requires rest != [] && x.sell == rest[0] && DistinctIds(rest)
    requires other.sell == rest[0] && other.buy.id != x.buy.id
    ensures OnlyIn([x] + tail, PairsFrom(pending, rest[1..], w), rest, x)
    ensures OnlyIn([x] + tail, [other] + PairsFrom(pending, rest[1..], w), rest, x)
  {
    var b := PairsFrom(pending, rest[1..], w);
    assert ([x] + tail)[0] == x;
    forall k | 0 <= k < |rest[1..]| ensures rest[1..][k].id != rest[0].id {
      assert rest[1..][k] == rest[k + 1];
    }
    SellsComeFromRest(pending, rest[1..], w, rest[0].id);
    HeadDiffers(b, other, x.buy.id, x.sell.id);
  }

  /** A buy that takes a sell from another buy leaves the pairing without that other pair. */
  lemma {:induction false} Displaces(pending: seq<Fill>, j: nat, late: Fill, rest: seq<Fill>, w: Bounds) returns (x: Pair)
    requires j <= |pending| && FateOf(pending, j, late, rest, w) == TakesMatchedSell
    requires DistinctIds(rest) && Avoids(pending, late.id) && Avoids(rest, late.id)
    ensures OnlyIn(PairsFrom(pending, rest, w), PairsFrom(Inserted(pending, j, late), rest, w), rest, x)
    decreases |rest|
  {
    var f, all := rest[0], Inserted(pending, j, late);
    if f.isBuyer {
      PushBoth(pending, j, late, f);
      x := Displaces(pending + [f], j, late, rest[1..], w);
    } else {
      var m := BestBuy(pending, |pending|, f.price, w);
      OthersKeepTheirChoice(pending, j, late, f.price, w);
      if BestBuy(all, |all|, f.price, w) == j {
        TakeLate(pending, j, late);
        x := PairOf(pending[m], f);
        OwnPair(x, PairsFrom(Splice(pending, m), rest[1..], w), pending, rest, w, PairOf(late, f));
      } else if m < 0 {
        x := Displaces(pending, j, late, rest[1..], w);
      } else {
        TakeOther(pending, j, late, m);
        SpliceAvoids(pending, m, late.id);
        x := Displaces(Splice(pending, m), Shifted(j, m), late, rest[1..], w);
        OnlyInTail(PairsFrom(Splice(pending, m), rest[1..], w),
                   PairsFrom(Inserted(Splice(pending, m), Shifted(j, m), late), rest[1..], w), rest, x, PairOf(pending[m], f));
      }
    }
  }

  lemma TakenHere(pending: seq<Fill>, j: nat, late: Fill, rest: seq<Fill>, w: Bounds)
    requires rest != [] && !rest[0].isBuyer && j <= |pending|
    requires var all := Inserted(pending, j, late); BestBuy(all, |all|, rest[0].price, w) == j
    requires DistinctIds(rest) && Avoids(pending, late.id)
    ensures OnlyIn(PairsFrom(Inserted(pending, j, late), rest, w), PairsFrom(pending, rest, w), rest, PairOf(late, rest[0]))
  {
    var f := rest[0];
    var m := BestBuy(pending, |pending|, f.price, w);
    TakeLate(pending, j, late);
    var other := if m < 0 then PairOf(late.(id := late.id + 1), f) else PairOf(pending[m], f);
    OwnPair(PairOf(late, f), PairsFrom(pending, rest[1..], w), if m < 0 then pending else Splice(pending, m), rest, w, other);
  }

  /** A buy that takes any sell gives a pair that is missing without it. */
  lemma {:induction false} TakenIsMissed(pending: seq<Fill>, j: nat, late: Fill, rest: seq<Fill>, w: Bounds) returns (x: Pair)
    requires j <= |pending| && FateOf(pending, j, late, rest, w) != NeverTaken
    requires DistinctIds(rest) && Avoids(pending, late.id) && Avoids(rest, late.id)
    ensures OnlyIn(PairsFrom(Inserted(pending, j, late), rest, w), PairsFrom(pending, rest, w), rest, x)
    decreases |rest|
  {
    var f, all := rest[0], Inserted(pending, j, late);
    if f.isBuyer {
      PushBoth(pending, j, late, f);
      x := TakenIsMissed(pending + [f], j, late, rest[1..], w);
    } else if BestBuy(all, |all|, f.price, w) == j {
      TakenHere(pending, j, late, rest, w);
      x := PairOf(late, f);
    } else {
      var m := BestBuy(pending, |pending|, f.price, w);
      OthersKeepTheirChoice(pending, j, late, f.price, w);
      if m < 0 {
        x := TakenIsMissed(pending, j, late, rest[1..], w);
      } else {
        TakeOther(pending, j, late, m);
        SpliceAvoids(pending, m, late.id);
        x := TakenIsMissed(Splice(pending, m), Shifted(j, m), late, rest[1..], w);
        OnlyInTail(PairsFrom(Inserted(Splice(pending, m), Shifted(j, m), late), rest[1..], w),
                   PairsFrom(Splice(pending, m), rest[1..], w), rest, x, PairOf(pending[m], f));
      }
    }
  }

  lemma JoinKeys(head: seq<Pair>, a: seq<Pair>, b: seq<Pair>)
    requires AllKeysIn(a, b)
    ensures AllKeysIn(head + a, head + b)
  {
    forall k | 0 <= k < |head + a| ensures HasIds(head + b, (head + a)[k].buy.id, (head + a)[k].sell.id) {
      if k < |head| {
        assert (head + b)[k] == (head + a)[k];
      } else {
        var x := a[k - |head|];
        var i :| 0 <= i < |b| && b[i].buy.id == x.buy.id && b[i].sell.id == x.sell.id;
        assert (head + b)[|head| + i] == b[i];
      }
    }
  }

  lemma JoinIds(a: seq<Pair>, b: seq<Pair>, buyId: nat, sellId: nat)
    ensures HasIds(a + b, buyId, sellId) <==> HasIds(a, buyId, sellId) || HasIds(b, buyId, sellId)
  {
    var all := a + b;
    assert forall k | 0 <= k < |a| :: all[k] == a[k];
    assert forall k | 0 <= k < |b| :: all[|a| + k] == b[k];
    if k :| 0 <= k < |all| && all[k].buy.id == buyId && all[k].sell.id == sellId {
      assert k < |a| || all[k] == b[k - |a|];
    }
  }

  /** A sell of the rest is in no pair of an earlier part. */
  lemma NotPairedBefore(fills: seq<Fill>, head: seq<Pair>, rest: seq<Fill>, w: Bounds, r: nat, buyId: nat)
    requires PairsOk(fills, w, head) && DistinctIds(fills + rest) && r < |rest|
    ensures !HasIds(head, buyId, rest[r].id)
  {
    var all := fills + rest;
    assert all[|fills| + r] == rest[r];
    forall k | 0 <= k < |head| ensures head[k].sell.id != rest[r].id {
      assert PairOk(fills, w, head[k]);
      var p, q :| 0 <= p < q < |fills| && fills[p] == head[k].buy && fills[q] == head[k].sell;
      assert all[q].id != all[|fills| + r].id;
    }
  }

  /** A pair that the rest alone makes stays missing beside the pairs of an earlier part. */
  lemma MissingStays(fills: seq<Fill>, head: seq<Pair>, a: seq<Pair>, b: seq<Pair>, rest: seq<Fill>, w: Bounds, x: Pair)
    requires PairsOk(fills, w, head) && OnlyIn(a, b, rest, x)
    requires DistinctIds(fills + rest)
    ensures !AllKeysIn(head + a, head + b)
  {
    var i :| 0 <= i < |a| && a[i] == x;
    var r :| 0 <= r < |rest| && rest[r] == x.sell;
    assert (head + a)[|head| + i] == x;
    NotPairedBefore(fills, head, rest, w, r, x.buy.id);
    JoinIds(head, b, x.buy.id, x.sell.id);
  }

  lemma Ids(pre: seq<Fill>, late: Fill, post: seq<Fill>, w: Bounds)
    requires DistinctIds(pre + [late] + post)
    ensures DistinctIds(pre + post) && DistinctIds(post) && DistinctIds((pre + [late]) + post)
    ensures Avoids(Match(pre, w).pending, late.id) && Avoids(post, late.id) && Avoids(pre, late.id)
  {
    var all := pre + [late] + post;
    forall k | 0 <= k < |pre| ensures pre[k] == all[k] {
    }
    forall k | 0 <= k < |post| ensures post[k] == all[|pre| + 1 + k] {
    }
    assert all[|pre|] == late;
    forall j, k | 0 <= j < k < |pre + post| ensures (pre + post)[j].id != (pre + post)[k].id {
      assert (pre + post)[j] == all[if j < |pre| then j else j + 1];
      assert (pre + post)[k] == all[if k < |pre| then k else k + 1];
    }
    PairsAreSound(pre, w);
    forall k | 0 <= k < |Match(pre, w).pending| ensures Match(pre, w).pending[k].id != late.id {
      var i :| 0 <= i < |pre| && pre[i] == Match(pre, w).pending[k];
    }
  }

  /** A buy that arrives late: a re-run leaves the table of a fresh run exactly unless the first sell
      that takes the late buy had been paired with another one. */
  lemma LateBuyHarmlessExactlyWhen(pre: seq<Fill>, late: Fill, post: seq<Fill>, w: Bounds)
    requires late.isBuyer && DistinctIds(pre + [late] + post)
    ensures SameRows(InsertAll(Fresh(pre + post, w), Match(pre + [late] + post, w).pairs), Fresh(pre + [late] + post, w))
      <==> FateOf(Match(pre, w).pending, |Match(pre, w).pending|, late, post, w) != TakesMatchedSell
  {
    var s := Match(pre, w);
    var j := |s.pending|;
    RerunSameExactlyWhen(pre + post, pre + [late] + post, w);
    Ids(pre, late, post, w);
    MatchOn(pre, post, w);
    MatchOn(pre + [late], post, w);
    MatchAppend(pre, late, w);
    assert Inserted(s.pending, j, late) == s.pending + [late];
    HarmlessKeeps(s.pending, j, late, post, w);
    if FateOf(s.pending, j, late, post, w) == TakesMatchedSell {
      var x := Displaces(s.pending, j, late, post, w);
      PairsAreSound(pre, w);
      MissingStays(pre, s.pairs, PairsFrom(s.pending, post, w), PairsFrom(s.pending + [late], post, w), post, w, x);
    } else {
      KeysOfSelf(PairsFrom(s.pending, post, w));
      JoinKeys(s.pairs, PairsFrom(s.pending, post, w), PairsFrom(s.pending + [late], post, w));
    }
  }

  /** What a sell that arrives late takes: the buy, and where it stood. */
  function LateTake(s: Run, late: Fill, w: Bounds): int {
    BestBuy(s.pending, |s.pending|, late.price, w)
  }

  lemma PutBack(pending: seq<Fill>, m: nat)
    requires m < |pending|
    ensures Inserted(Splice(pending, m), m, pending[m]) == pending
  {
  }

  lemma LateSellPairs(pre: seq<Fill>, late: Fill, post: seq<Fill>, w: Bounds)
    requires !late.isBuyer
    ensures var s := Match(pre, w);
      var m := LateTake(s, late, w);
      Match(pre + [late] + post, w).pairs ==
        if m < 0 then s.pairs + PairsFrom(s.pending, post, w)
        else s.pairs + [PairOf(s.pending[m], late)] + PairsFrom(Splice(s.pending, m), post, w)
  {
    MatchAppend(pre, late, w);
    MatchOn(pre + [late], post, w);
  }

  /** A sell that arrives late: a re-run leaves the table of a fresh run exactly when the sell finds no
      buy, or one that no later sell had been paired with. */
  lemma LateSellHarmlessExactlyWhen(pre: seq<Fill>, late: Fill, post: seq<Fill>, w: Bounds)
    requires !late.isBuyer && DistinctIds(pre + [late] + post)
    ensures var s := Match(pre, w);
      var m := LateTake(s, late, w);
      SameRows(InsertAll(Fresh(pre + post, w), Match(pre + [late] + post, w).pairs), Fresh(pre + [late] + post, w))
      <==> m < 0 || FateOf(Splice(s.pending, m), m, s.pending[m], post, w) == NeverTaken
  {
    var s := Match(pre, w);
    var m := LateTake(s, late, w);
    RerunSameExactlyWhen(pre + post, pre + [late] + post, w);
    Ids(pre, late, post, w);
    MatchOn(pre, post, w);
    LateSellPairs(pre, late, post, w);
    if m < 0 {
      KeysOfSelf(s.pairs + PairsFrom(s.pending, post, w));
    } else {
      LateSellTakes(pre, late, post, w, m);
    }
  }

  lemma LateSellTakes(pre: seq<Fill>, late: Fill, post: seq<Fill>, w: Bounds, m: nat)
    requires !late.isBuyer && DistinctIds(pre + [late] + post)
    requires m < |Match(pre, w).pending|
    ensures var s := Match(pre, w);
      AllKeysIn(s.pairs + PairsFrom(s.pending, post, w),
                s.pairs + [PairOf(s.pending[m], late)] + PairsFrom(Splice(s.pending, m), post, w))
      <==> FateOf(Splice(s.pending, m), m, s.pending[m], post, w) == NeverTaken
  {
    var s := Match(pre, w);
    var b, rest := s.pending[m], Splice(s.pending, m);
    var a, c := PairsFrom(s.pending, post, w), PairsFrom(rest, post, w);
    var p := PairOf(b, late);
    Ids(pre, late, post, w);
    PutBack(s.pending, m);
    assert s.pairs + [p] + c == s.pairs + ([p] + c);
    HarmlessKeeps(rest, m, b, post, w);
    if FateOf(rest, m, b, post, w) == NeverTaken {
      KeysOfSelf(a);
      KeysOfMore(a, c, p);
      JoinKeys(s.pairs, a, [p] + c);
    } else {
      PendingIds(pre, late, post, w, m);
      var x := TakenIsMissed(rest, m, b, post, w);
      LateDiffers(c, p, late, post, x);
      PairsAreSound(pre, w);
      MissingStays(pre, s.pairs, a, [p] + c, post, w, x);
    }
  }

  lemma LateDiffers(c: seq<Pair>, p: Pair, late: Fill, post: seq<Fill>, x: Pair)
    requires p.sell == late && Avoids(post, late.id) && x.sell in post && !HasIds(c, x.buy.id, x.sell.id)
    ensures !HasIds([p] + c, x.buy.id, x.sell.id)
  {
    HeadDiffers(c, p, x.buy.id, x.sell.id);
  }

  /** A pending buy is a fill of the archive so far, pending once. */
  lemma PendingIds(pre: seq<Fill>, late: Fill, post: seq<Fill>, w: Bounds, m: nat)
    requires DistinctIds(pre + [late] + post) && m < |Match(pre, w).pending|
    ensures Avoids(Splice(Match(pre, w).pending, m), Match(pre, w).pending[m].id)
    ensures Avoids(post, Match(pre, w).pending[m].id)
  {
    var all := pre + [late] + post;
    assert forall k | 0 <= k < |pre| :: all[k] == pre[k];
    assert forall k | 0 <= k < |post| :: all[|pre| + 1 + k] == post[k];
    PendingDistinct(pre, w);
    var pending := Match(pre, w).pending;
    PairsAreSound(pre, w);
    var i :| 0 <= i < |pre| && pre[i] == pending[m];
    forall k | 0 <= k < |post| ensures post[k].id != pending[m].id {
      assert all[i].id != all[|pre| + 1 + k].id;
    }
    var r := Splice(pending, m);
    forall k | 0 <= k < |r| ensures r[k].id != pending[m].id {
      assert r[k] == pending[if k < m then k else k + 1];
    }
  }

  lemma SpliceDistinct(pending: seq<Fill>, m: nat)
    requires DistinctIds(pending) && m < |pending|
    ensures DistinctIds(Splice(pending, m))
  {
    var r := Splice(pending, m);
    forall j, k | 0 <= j < k < |r| ensures r[j].id != r[k].id {
      assert r[j] == pending[if j < m then j else j + 1] && r[k] == pending[if k < m then k else k + 1];
    }
  }

  lemma PendingAvoids(fills: seq<Fill>, pending: seq<Fill>, id: nat)
    requires PendingOk(fills, pending) && Avoids(fills, id)
    ensures Avoids(pending, id)
  {
    forall k | 0 <= k < |pending| ensures pending[k].id != id {
      var i :| 0 <= i < |fills| && fills[i] == pending[k];
    }
  }

  lemma StepDistinct(s: Run, f: Fill, w: Bounds)
    requires DistinctIds(s.pending) && Avoids(s.pending, f.id)
    ensures DistinctIds(Step(s, f, w).pending)
  {
    var m := BestBuy(s.pending, |s.pending|, f.price, w);
    if !f.isBuyer && m >= 0 {
      SpliceDistinct(s.pending, m);
    }
  }

  lemma {:induction false} PendingDistinct(fills: seq<Fill>, w: Bounds)
    requires DistinctIds(fills)
    ensures DistinctIds(Match(fills, w).pending)
  {
    if fills != [] {
      var n := |fills| - 1;
      var before := fills[..n];
      assert forall k | 0 <= k < n :: before[k] == fills[k];
      PendingDistinct(before, w);
      PairsAreSound(before, w);
      PendingAvoids(before, Match(before, w).pending, fills[n].id);
      StepDistinct(Match(before, w), fills[n], w);
    }
  }

  class Database {
    var pairedRoundtrips: seq<Pair>

    constructor ()
      ensures pairedRoundtrips == []
    {
      pairedRoundtrips := [];
    }

    /** Returns whether a row was added. */
    method InsertPairedRoundtrip(p: Pair) returns (inserted: bool)
      modifies this
      ensures pairedRoundtrips == InsertOrIgnore(old(pairedRoundtrips), p)
      ensures inserted <==> !HasKey(old(pairedRoundtrips), p)
    {
      inserted := !(exists k :: 0 <= k < |pairedRoundtrips| && SameKey(pairedRoundtrips[k], p));
      if inserted {
        pairedRoundtrips := pairedRoundtrips + [p];
      }
    }

    /** The scan over the pending buys for the tightest spread. */
    method FindBest(pendingBuys: seq<Fill>, price: real, w: Bounds) returns (bestIdx: int)
      ensures bestIdx == BestBuy(pendingBuys, |pendingBuys|, price, w)
    {
      var bestSpread := 0.0;
      bestIdx := -1;
      for k := 0 to |pendingBuys|
        invariant bestIdx == BestBuy(pendingBuys, k, price, w)
        invariant bestIdx >= 0 ==> bestSpread == price - pendingBuys[bestIdx].price
      {
        var spread := price - pendingBuys[k].price;
        if spread > w.lo && spread < w.hi && (bestIdx < 0 || spread < bestSpread) {
          bestIdx, bestSpread := k, spread;
        }
      }
    }

    /** calculateRealGridProfit: the net profit, with every pair stored on the way. */
    method CalculateRealGridProfit(fills: seq<Fill>, lower: real, upper: real, numGrids: nat) returns (net: real)
      requires numGrids > 0
      modifies this
      ensures var w := BoundsOf(lower, upper, numGrids);
        && net == Gross(Match(fills, w).pairs) - Fees(fills)
        && pairedRoundtrips == InsertAll(old(pairedRoundtrips), Match(fills, w).pairs)
    {
      var w := BoundsOf(lower, upper, numGrids);
      var totalFees, grossProfit := 0.0, 0.0;
      var pendingBuys: seq<Fill> := [];
      ghost var pairs: seq<Pair> := [];
      for i := 0 to |fills|
        invariant Match(fills[..i], w) == Run(pendingBuys, pairs)
        invariant grossProfit == Gross(pairs) && totalFees == Fees(fills[..i])
        invariant pairedRoundtrips == InsertAll(old(pairedRoundtrips), pairs)
      {
        var f := fills[i];
        assert fills[..i+1] == fills[..i] + [f] && fills[..i+1][..i] == fills[..i];
        MatchAppend(fills[..i], f, w);
        totalFees := totalFees + f.fee;
        if f.isBuyer {
          pendingBuys := pendingBuys + [f];
        } else {
          var bestIdx := FindBest(pendingBuys, f.price, w);
          if bestIdx >= 0 {
            var p := PairOf(pendingBuys[bestIdx], f);
            grossProfit := grossProfit + p.profit;
            pendingBuys := Splice(pendingBuys, bestIdx);
            assert (pairs + [p])[..|pairs|] == pairs;
            pairs := pairs + [p];
            var inserted := InsertPairedRoundtrip(p);
          }
        }
      }
      assert fills[..|fills|] == fills;
      net := grossProfit - totalFees;
    }
  }

  function BoundsOf(lower: real, upper: real, numGrids: nat): Bounds
    requires numGrids > 0
  {
    var spacing := (upper - lower) / (numGrids as real);
    Bounds(spacing * 0.5, spacing * 3.0)
  }
}
