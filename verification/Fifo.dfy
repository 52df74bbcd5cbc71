/**
 Realized profit by FIFO lot matching over the fill archive.

 Quantities are whole base units (the instrument's nine decimals) and prices whole ticks, so
 the archive's 1e-9 epsilon is one unit; the epsilon is a parameter here. The reference is a
 queue of single units: a buy appends units, a sell takes the oldest ones.
 */
module Fifo {

  datatype Fill = Fill(isBuyer: bool, price: int, size: nat, fee: int, time: int)

  datatype Lot = Lot(price: int, qty: nat)

  datatype Report = Report(
    realizedPnl: int, totalFees: int, netPnl: int, roundTrips: nat, avgPerRT: real,
    fillCount: nat, openSize: nat, openCost: int, firstFillAt: int, lastFillAt: int)

  // ----- the unit queue

  function Repeat(p: int, n: nat): (r: seq<int>)
    ensures |r| == n
    ensures forall k | 0 <= k < n :: r[k] == p
  {
    seq(n, _ => p)
  }

  function Sum(s: seq<int>): int {
    if s == [] then 0 else s[0] + Sum(s[1..])
  }

  function Least(a: nat, b: nat): nat {
    if a <= b then a else b
  }

  /** What n units are worth at a price. */
  function Value(price: int, n: int): int {
    price * n
  }

  lemma Add(p: int, m: int, n: int)
    ensures Value(p, m + n) == Value(p, m) + Value(p, n)
  {
  }

  lemma Spread(p: int, q: int, n: int)
    ensures Value(p - q, n) == Value(p, n) - Value(q, n)
  {
  }

  lemma InOrder(lo: int, p: int, hi: int, n: nat)
    requires lo <= p <= hi
    ensures Value(lo, n) <= Value(p, n) <= Value(hi, n)
  {
  }

  lemma Unit(p: int)
    ensures Value(p, 0) == 0 && Value(p, 1) == p
  {
  }

  datatype Book = Book(queue: seq<int>, pnl: int, matched: nat)

  /** Sell n units at p: each takes the oldest unit; units that are not there are ignored. */
  function SellUnits(b: Book, p: int, n: nat): Book {
    var k := Least(n, |b.queue|);
    Book(b.queue[k..], b.pnl + (Value(p, k) - Sum(b.queue[..k])), b.matched + k)
  }

  function Apply(b: Book, f: Fill): Book {
    if f.isBuyer then b.(queue := b.queue + Repeat(f.price, f.size)) else SellUnits(b, f.price, f.size)
  }

  function Reference(fills: seq<Fill>): Book {
    if fills == [] then Book([], 0, 0)
    else Apply(Reference(fills[..|fills|-1]), fills[|fills|-1])
  }

  // ----- totals over the archive

  function Fees(fills: seq<Fill>): int {
    if fills == [] then 0 else Fees(fills[..|fills|-1]) + fills[|fills|-1].fee
  }

  /** Fees add up over any split of the archive. */
  lemma {:induction false} FeesAddUp(a: seq<Fill>, b: seq<Fill>)
    ensures Fees(a + b) == Fees(a) + Fees(b)
    ensures |b| == 1 ==> Fees(b) == b[0].fee
  {
    if b == [] {
      assert a + b == a;
    } else {
      var n := |b| - 1;
      assert (a + b)[..|a| + n] == a + b[..n];
      FeesAddUp(a, b[..n]);
    }
  }

  function Buys(fills: seq<Fill>): nat {
    if fills == [] then 0 else Buys(fills[..|fills|-1]) + if fills[|fills|-1].isBuyer then 1 else 0
  }

  function Size(lots: seq<Lot>): nat {
    if lots == [] then 0 else lots[0].qty + Size(lots[1..])
  }

  function Cost(lots: seq<Lot>): int {
    if lots == [] then 0 else Value(lots[0].price, lots[0].qty) + Cost(lots[1..])
  }

  function Units(lots: seq<Lot>): seq<int> {
    if lots == [] then [] else Repeat(lots[0].price, lots[0].qty) + Units(lots[1..])
  }

  lemma {:induction false} SumAppend(a: seq<int>, b: seq<int>)
    ensures Sum(a + b) == Sum(a) + Sum(b)
  {
    if a == [] {
      assert a + b == b;
    } else {
      assert (a + b)[1..] == a[1..] + b;
      SumAppend(a[1..], b);
    }
  }

  lemma {:induction false} SumRepeat(p: int, n: nat)
    ensures Sum(Repeat(p, n)) == Value(p, n)
  {
    Unit(p);
    if n > 0 {
      Add(p, n - 1, 1);
      assert Repeat(p, n)[1..] == Repeat(p, n - 1);
      SumRepeat(p, n - 1);
    }
  }

  lemma {:induction false} UnitsAppend(lots: seq<Lot>, l: Lot)
    ensures Units(lots + [l]) == Units(lots) + Repeat(l.price, l.qty)
    ensures Size(lots + [l]) == Size(lots) + l.qty
    ensures Cost(lots + [l]) == Cost(lots) + Value(l.price, l.qty)
  {
    if lots == [] {
      assert lots + [l] == [l];
    } else {
      assert (lots + [l])[1..] == lots[1..] + [l];
      UnitsAppend(lots[1..], l);
    }
  }

  lemma {:induction false} UnitsTotals(lots: seq<Lot>)
    ensures |Units(lots)| == Size(lots) && Sum(Units(lots)) == Cost(lots)
  {
    if lots != [] {
      UnitsTotals(lots[1..]);
      SumAppend(Repeat(lots[0].price, lots[0].qty), Units(lots[1..]));
      SumRepeat(lots[0].price, lots[0].qty);
    }
  }

  /** Taking m units from the first lot takes the m oldest units of the queue. */
  lemma TakeFromFirst(lots: seq<Lot>, m: nat)
    requires lots != [] && m <= lots[0].qty
    ensures var rest := lots[0 := lots[0].(qty := lots[0].qty - m)];
      && Units(rest) == Units(lots)[m..] && m <= |Units(lots)|
      && Sum(Units(lots)[..m]) == Value(lots[0].price, m)
      && Size(rest) == Size(lots) - m && Cost(rest) == Cost(lots) - Value(lots[0].price, m)
  {
    var p, q := lots[0].price, lots[0].qty;
    var rest := lots[0 := lots[0].(qty := q - m)];
    assert rest[1..] == lots[1..];
    assert Units(lots)[m..] == Repeat(p, q - m) + Units(lots[1..]);
    assert Units(lots)[..m] == Repeat(p, m);
    SumRepeat(p, m);
    Add(p, q - m, m);
  }

  /** Selling a units and then b more at the same price is selling a + b units. */
  lemma SellInTwo(b: Book, p: int, m: nat, n: nat)
    requires m <= |b.queue|
    ensures SellUnits(SellUnits(b, p, m), p, n) == SellUnits(b, p, m + n)
  {
    var q := b.queue;
    var k := Least(n, |q| - m);
    assert q[m..][k..] == q[m+k..];
    assert q[..m+k] == q[..m] + q[m..][..k];
    SumAppend(q[..m], q[m..][..k]);
    Add(p, m, k);
    assert Least(m + n, |q|) == m + k;
  }

  // ----- the ledger with an epsilon

  /** What the loop has done so far: the open lots, the profit, the matches, and besides them the
      units matched, what they were sold for, what was left in the lots that were dropped, and for
      each sell what was left of it unmatched. */
  datatype Ledger = Ledger(
    lots: seq<Lot>, pnl: int, trips: nat, matched: nat, proceeds: int, dropped: seq<Lot>, short: seq<Lot>)

  /** Match n units of the oldest lot. */
  function Take(l: Ledger, price: int, n: nat): Ledger
    requires l.lots != [] && n <= l.lots[0].qty
  {
    var lot := l.lots[0];
    l.(lots := l.lots[0 := lot.(qty := lot.qty - n)],
       pnl := l.pnl + Value(price - lot.price, n), trips := l.trips + 1,
       matched := l.matched + n, proceeds := l.proceeds + Value(price, n))
  }

  /** Drop the oldest lot with what is left in it. */
  function Shift(l: Ledger): Ledger
    requires l.lots != []
  {
    l.(lots := l.lots[1..], dropped := l.dropped + [l.lots[0]])
  }

  /** One match of a sell with the oldest lot, which is dropped when at most eps units remain. */
  function Match(l: Ledger, price: int, remaining: nat, eps: nat): Ledger
    requires l.lots != []
  {
    var next := Take(l, price, Least(l.lots[0].qty, remaining));
    if next.lots[0].qty <= eps then Shift(next) else next
  }

  /** The rest of a sell: match until at most eps units remain or no lot does. */
  function SellOff(l: Ledger, price: int, remaining: nat, eps: nat): Ledger
    decreases |l.lots|, remaining
  {
    if remaining <= eps || l.lots == [] then l.(short := l.short + [Lot(price, remaining)])
    else SellOff(Match(l, price, remaining, eps), price, remaining - Least(l.lots[0].qty, remaining), eps)
  }

  function Record(l: Ledger, f: Fill, eps: nat): Ledger {
    if f.isBuyer then l.(lots := l.lots + [Lot(f.price, f.size)]) else SellOff(l, f.price, f.size, eps)
  }

  function LedgerOf(fills: seq<Fill>, eps: nat): Ledger {
    if fills == [] then Ledger([], 0, 0, 0, 0, [], [])
    else Record(LedgerOf(fills[..|fills|-1], eps), fills[|fills|-1], eps)
  }

  // ----- with epsilon 0 the ledger is the unit queue

  function BookOf(l: Ledger): Book {
    Book(Units(l.lots), l.pnl, l.matched)
  }

  lemma SellFew(b: Book, p: int, n: nat)
    requires n <= |b.queue|
    ensures SellUnits(b, p, n) == Book(b.queue[n..], b.pnl + (Value(p, n) - Sum(b.queue[..n])), b.matched + n)
  {
  }

  lemma TakeSellsUnits(l: Ledger, price: int, n: nat)
    requires l.lots != [] && n <= l.lots[0].qty
    ensures BookOf(Take(l, price, n)) == SellUnits(BookOf(l), price, n) && n <= |Units(l.lots)|
  {
    TakeFromFirst(l.lots, n);
    SellFew(BookOf(l), price, n);
    Spread(price, l.lots[0].price, n);
  }

  lemma MatchSellsUnits(l: Ledger, price: int, remaining: nat)
    requires l.lots != []
    ensures var taken := Least(l.lots[0].qty, remaining);
      && BookOf(Match(l, price, remaining, 0)) == SellUnits(BookOf(l), price, taken)
      && taken <= |Units(l.lots)|
  {
    var next := Take(l, price, Least(l.lots[0].qty, remaining));
    TakeSellsUnits(l, price, Least(l.lots[0].qty, remaining));
    if next.lots[0].qty == 0 {
      DropFirst(next.lots);
      assert Units(next.lots)[0..] == Units(next.lots);
    }
  }

  lemma SellRest(b: Book, next: Book, last: Book, price: int, taken: nat, remaining: nat)
    requires taken <= remaining && taken <= |b.queue|
    requires next == SellUnits(b, price, taken) && last == SellUnits(next, price, remaining - taken)
    ensures last == SellUnits(b, price, remaining)
  {
    SellInTwo(b, price, taken, remaining - taken);
  }

  lemma {:induction false} SellOffSellsUnits(l: Ledger, price: int, remaining: nat)
    ensures BookOf(SellOff(l, price, remaining, 0)) == SellUnits(BookOf(l), price, remaining)
    decreases |l.lots|, remaining
  {
    if remaining > 0 && l.lots != [] {
      var taken, next := Least(l.lots[0].qty, remaining), Match(l, price, remaining, 0);
      MatchSellsUnits(l, price, remaining);
      SellOffSellsUnits(next, price, remaining - taken);
      SellRest(BookOf(l), BookOf(next), BookOf(SellOff(next, price, remaining - taken, 0)), price, taken, remaining);
    } else {
      SellNothing(BookOf(l), price, remaining);
    }
  }

  lemma SellNothing(b: Book, price: int, n: nat)
    requires b.queue == [] || n == 0
    ensures SellUnits(b, price, n) == b
  {
    assert b.queue[0..] == b.queue && b.queue[..0] == [];
    Unit(price);
  }

  /** With epsilon 0 the lots, profit and matches are those of the unit queue, even for an archive
      that oversells. */
  lemma {:induction false} ZeroEpsilonIsTheQueue(fills: seq<Fill>)
    ensures BookOf(LedgerOf(fills, 0)) == Reference(fills)
  {
    if fills != [] {
      var f := fills[|fills|-1];
      ZeroEpsilonIsTheQueue(fills[..|fills|-1]);
      var before := LedgerOf(fills[..|fills|-1], 0);
      if f.isBuyer {
        UnitsAppend(before.lots, Lot(f.price, f.size));
      } else {
        SellOffSellsUnits(before, f.price, f.size);
      }
    }
  }

  // ----- with any epsilon everything is matched, dropped, left short or open

  /** The prices of all units bought, oldest first, and of all units sold. */
  function UnitsOf(fills: seq<Fill>, buys: bool): seq<int> {
    if fills == [] then []
    else
      var f := fills[|fills|-1];
      UnitsOf(fills[..|fills|-1], buys) + if f.isBuyer == buys then Repeat(f.price, f.size) else []
  }

  /** How many units at the head of what was bought the lots no longer hold. */
  function Gone(l: Ledger): nat {
    l.matched + Size(l.dropped)
  }

  /** The books in the middle of a sell of which `remaining` units are open: the lots are the tail
      of what was bought, and every unit sold was matched, left short or is still to be sold. */
  ghost predicate Kept(l: Ledger, bought: seq<int>, sold: seq<int>, price: int, remaining: nat) {
    && Gone(l) <= |bought| && Units(l.lots) == bought[Gone(l)..]
    && |sold| == l.matched + Size(l.short) + remaining
    && Sum(sold) == l.proceeds + Cost(l.short) + Value(price, remaining)
    && l.pnl == l.proceeds - (Sum(bought[..Gone(l)]) - Cost(l.dropped))
  }

  lemma TakeUnits(bought: seq<int>, k: nat, n: nat)
    requires k + n <= |bought|
    ensures bought[k..][n..] == bought[k + n..]
    ensures Sum(bought[..k + n]) == Sum(bought[..k]) + Sum(bought[k..][..n])
  {
    assert bought[..k + n] == bought[..k] + bought[k..][..n];
    SumAppend(bought[..k], bought[k..][..n]);
  }

  lemma DropFirst(lots: seq<Lot>)
    requires lots != []
    ensures lots[0].qty <= |Units(lots)| && Units(lots[1..]) == Units(lots)[lots[0].qty..]
    ensures Sum(Units(lots)[..lots[0].qty]) == Value(lots[0].price, lots[0].qty)
  {
    var p, q := lots[0].price, lots[0].qty;
    assert Units(lots)[..q] == Repeat(p, q) && Units(lots)[q..] == Units(lots[1..]);
    SumRepeat(p, q);
  }

  lemma TakeKeeps(l: Ledger, bought: seq<int>, sold: seq<int>, price: int, remaining: nat, n: nat)
    requires l.lots != [] && n <= l.lots[0].qty && n <= remaining
    requires Kept(l, bought, sold, price, remaining)
    ensures Kept(Take(l, price, n), bought, sold, price, remaining - n)
  {
    TakeFromFirst(l.lots, n);
    TakeUnits(bought, Gone(l), n);
    Spread(price, l.lots[0].price, n);
    Add(price, remaining - n, n);
  }

  lemma ShiftKeeps(l: Ledger, bought: seq<int>, sold: seq<int>, price: int, remaining: nat)
    requires l.lots != [] && Kept(l, bought, sold, price, remaining)
    ensures Kept(Shift(l), bought, sold, price, remaining)
  {
    DropFirst(l.lots);
    UnitsAppend(l.dropped, l.lots[0]);
    TakeUnits(bought, Gone(l), l.lots[0].qty);
  }

  lemma MatchKeeps(l: Ledger, bought: seq<int>, sold: seq<int>, price: int, remaining: nat, eps: nat)
    requires l.lots != [] && Kept(l, bought, sold, price, remaining)
    ensures Kept(Match(l, price, remaining, eps), bought, sold, price, remaining - Least(l.lots[0].qty, remaining))
  {
    var n := Least(l.lots[0].qty, remaining);
    TakeKeeps(l, bought, sold, price, remaining, n);
    if Take(l, price, n).lots[0].qty <= eps {
      ShiftKeeps(Take(l, price, n), bought, sold, price, remaining - n);
    }
  }

  lemma {:induction false} SellOffKeeps(
    l: Ledger, bought: seq<int>, sold: seq<int>, price: int, remaining: nat, eps: nat)
    requires Kept(l, bought, sold, price, remaining)
    ensures Kept(SellOff(l, price, remaining, eps), bought, sold, price, 0)
    decreases |l.lots|, remaining
  {
    if remaining <= eps || l.lots == [] {
      UnitsAppend(l.short, Lot(price, remaining));
    } else {
      MatchKeeps(l, bought, sold, price, remaining, eps);
      SellOffKeeps(
        Match(l, price, remaining, eps), bought, sold, price, remaining - Least(l.lots[0].qty, remaining), eps);
    }
  }

  lemma BuyKeeps(l: Ledger, bought: seq<int>, sold: seq<int>, lot: Lot)
    requires Kept(l, bought, sold, 0, 0)
    ensures Kept(l.(lots := l.lots + [lot]), bought + Repeat(lot.price, lot.qty), sold, 0, 0)
  {
    var more := Repeat(lot.price, lot.qty);
    UnitsAppend(l.lots, lot);
    assert (bought + more)[Gone(l)..] == bought[Gone(l)..] + more;
    assert (bought + more)[..Gone(l)] == bought[..Gone(l)];
  }

  lemma OpenSell(l: Ledger, bought: seq<int>, sold: seq<int>, price: int, size: nat)
    requires Kept(l, bought, sold, 0, 0)
    ensures Kept(l, bought, sold + Repeat(price, size), price, size)
  {
    SumAppend(sold, Repeat(price, size));
    SumRepeat(price, size);
  }

  /** Whatever the epsilon: the open lots are the units bought last, every unit bought is matched,
      dropped or open, every unit sold is matched or left short, proceeds are the prices of the
      matched sells, and the profit is proceeds less the cost of the matched units. */
  lemma {:induction false} LedgerAccounts(fills: seq<Fill>, eps: nat)
    ensures Kept(LedgerOf(fills, eps), UnitsOf(fills, true), UnitsOf(fills, false), 0, 0)
  {
    if fills != [] {
      var before, f := fills[..|fills|-1], fills[|fills|-1];
      LedgerAccounts(before, eps);
      var l, bought, sold := LedgerOf(before, eps), UnitsOf(before, true), UnitsOf(before, false);
      if f.isBuyer {
        BuyKeeps(l, bought, sold, Lot(f.price, f.size));
        assert sold + [] == sold;
      } else {
        OpenSell(l, bought, sold, f.price, f.size);
        SellOffKeeps(l, bought, sold + Repeat(f.price, f.size), f.price, f.size, eps);
        assert bought + [] == bought;
        Unit(f.price);
        Unit(0);
      }
    }
  }

  // ----- how much the epsilon can cost

  function TimesEps(eps: nat, n: nat): nat {
    eps * n
  }

  lemma OneMore(eps: nat, n: nat)
    ensures TimesEps(eps, n + 1) == TimesEps(eps, n) + eps
  {
  }

  ghost predicate Crumbs(lots: seq<Lot>, eps: nat) {
    forall k | 0 <= k < |lots| :: lots[k].qty <= eps
  }

  /** In the middle of the n-th sell: only lots of at most eps units were dropped, and the one that
      the running sell may have dropped with a residue has ended it. */
  ghost predicate Trimmed(l: Ledger, n: nat, remaining: nat, eps: nat) {
    && Crumbs(l.dropped, eps)
    && Size(l.dropped) <= TimesEps(eps, if remaining == 0 then n + 1 else n)
    && |l.dropped| <= l.trips <= |l.dropped| + n + (if remaining == 0 then 1 else 0)
  }

  lemma MatchTrims(l: Ledger, n: nat, price: int, remaining: nat, eps: nat)
    requires l.lots != [] && remaining > eps && Trimmed(l, n, remaining, eps)
    ensures Trimmed(Match(l, price, remaining, eps), n, remaining - Least(l.lots[0].qty, remaining), eps)
  {
    var lot := l.lots[0];
    var left := lot.(qty := lot.qty - Least(lot.qty, remaining));
    OneMore(eps, n);
    if left.qty <= eps {
      UnitsAppend(l.dropped, left);
    }
  }

  /** What is left of a sell: at most eps units, unless no lot was left to match. */
  lemma {:induction false} SellOffTrims(l: Ledger, n: nat, price: int, remaining: nat, eps: nat)
    requires Trimmed(l, n, remaining, eps)
    ensures var r := SellOff(l, price, remaining, eps);
      && Crumbs(r.dropped, eps) && Size(r.dropped) <= TimesEps(eps, n + 1)
      && |r.dropped| <= r.trips <= |r.dropped| + n + 1
      && |r.short| == |l.short| + 1 && l.short <= r.short
      && (r.short[|l.short|].qty <= eps || r.lots == [])
    decreases |l.lots|, remaining
  {
    OneMore(eps, n);
    if remaining > eps && l.lots != [] {
      MatchTrims(l, n, price, remaining, eps);
      SellOffTrims(
        Match(l, price, remaining, eps), n, price, remaining - Least(l.lots[0].qty, remaining), eps);
    }
  }

  function Sells(fills: seq<Fill>): nat {
    if fills == [] then 0 else Sells(fills[..|fills|-1]) + if fills[|fills|-1].isBuyer then 0 else 1
  }

  /** At no point of the archive has more been sold than bought. */
  ghost predicate NeverOversold(fills: seq<Fill>) {
    fills != [] ==>
      NeverOversold(fills[..|fills|-1]) && |UnitsOf(fills, false)| <= |UnitsOf(fills, true)|
  }

  /** At most eps units for each sell are dropped with the lots, and no dropped lot held more than
      eps; each match drops a lot or ends its sell. */
  lemma {:induction false} DroppedBounded(fills: seq<Fill>, eps: nat)
    ensures var l := LedgerOf(fills, eps);
      && Crumbs(l.dropped, eps) && Size(l.dropped) <= TimesEps(eps, Sells(fills)) && |l.short| == Sells(fills)
      && |l.dropped| <= l.trips <= |l.dropped| + Sells(fills)
      && |l.lots| + |l.dropped| == Buys(fills)
  {
    if fills != [] {
      var before, f := fills[..|fills|-1], fills[|fills|-1];
      DroppedBounded(before, eps);
      OneMore(eps, Sells(before));
      if !f.isBuyer {
        SellOffTrims(LedgerOf(before, eps), Sells(before), f.price, f.size, eps);
        SellOffCounts(LedgerOf(before, eps), f.price, f.size, eps);
      }
    }
  }

  lemma {:induction false} SellOffCounts(l: Ledger, price: int, remaining: nat, eps: nat)
    ensures var r := SellOff(l, price, remaining, eps); |r.lots| + |r.dropped| == |l.lots| + |l.dropped|
    decreases |l.lots|, remaining
  {
    if remaining > eps && l.lots != [] {
      SellOffCounts(Match(l, price, remaining, eps), price, remaining - Least(l.lots[0].qty, remaining), eps);
    }
  }

  lemma ShortStep(l: Ledger, r: Ledger, bought: seq<int>, sold: seq<int>, n: nat, eps: nat)
    requires Size(l.short) <= TimesEps(eps, n)
    requires Kept(r, bought, sold, 0, 0) && |sold| <= |bought| && Size(r.dropped) <= TimesEps(eps, n + 1)
    requires |r.short| == |l.short| + 1 && l.short <= r.short
    requires r.short[|l.short|].qty <= eps || r.lots == []
    ensures Size(r.short) <= TimesEps(eps, n + 1)
  {
    OneMore(eps, n);
    if r.lots == [] {
      UnitsTotals(r.lots);
    } else {
      assert r.short == l.short + [r.short[|l.short|]];
      UnitsAppend(l.short, r.short[|l.short|]);
    }
  }

  lemma ShortSell(l: Ledger, price: int, size: nat, n: nat, eps: nat, bought: seq<int>, sold: seq<int>)
    requires Size(l.short) <= TimesEps(eps, n) && Trimmed(l, n, size, eps)
    requires Kept(SellOff(l, price, size, eps), bought, sold, 0, 0) && |sold| <= |bought|
    ensures Size(SellOff(l, price, size, eps).short) <= TimesEps(eps, n + 1)
  {
    SellOffTrims(l, n, price, size, eps);
    ShortStep(l, SellOff(l, price, size, eps), bought, sold, n, eps);
  }

  lemma TrimmedBefore(fills: seq<Fill>, size: nat, eps: nat)
    ensures Trimmed(LedgerOf(fills, eps), Sells(fills), size, eps)
  {
    DroppedBounded(fills, eps);
    OneMore(eps, Sells(fills));
  }

  lemma ShortAfterSell(fills: seq<Fill>, eps: nat)
    requires fills != [] && !fills[|fills|-1].isBuyer
    requires |UnitsOf(fills, false)| <= |UnitsOf(fills, true)|
    requires var before := fills[..|fills|-1]; Size(LedgerOf(before, eps).short) <= TimesEps(eps, Sells(before))
    ensures Size(LedgerOf(fills, eps).short) <= TimesEps(eps, Sells(fills))
  {
    var before, f := fills[..|fills|-1], fills[|fills|-1];
    TrimmedBefore(before, f.size, eps);
    LedgerAccounts(fills, eps);
    assert LedgerOf(fills, eps) == SellOff(LedgerOf(before, eps), f.price, f.size, eps);
    ShortSell(LedgerOf(before, eps), f.price, f.size, Sells(before), eps, UnitsOf(fills, true), UnitsOf(fills, false));
  }

  /** As long as nothing is oversold, at most eps units for each sell stay unmatched. */
  lemma {:induction false} ShortBounded(fills: seq<Fill>, eps: nat)
    requires NeverOversold(fills)
    ensures Size(LedgerOf(fills, eps).short) <= TimesEps(eps, Sells(fills))
  {
    if fills != [] {
      ShortBounded(fills[..|fills|-1], eps);
      if !fills[|fills|-1].isBuyer {
        ShortAfterSell(fills, eps);
      }
    }
  }

  // ----- what the reference means

  /** The book when the n-th unit sold was matched with the n-th unit bought. */
  ghost predicate Paired(b: Book, bought: seq<int>, sold: seq<int>) {
    && |sold| <= |bought|
    && b == Book(bought[|sold|..], Sum(sold) - Sum(bought[..|sold|]), |sold|)
  }

  lemma PairedBuy(b: Book, bought: seq<int>, sold: seq<int>, more: seq<int>)
    requires Paired(b, bought, sold)
    ensures Paired(b.(queue := b.queue + more), bought + more, sold)
  {
    var n := |sold|;
    assert (bought + more)[n..] == bought[n..] + more && (bought + more)[..n] == bought[..n];
  }

  lemma PairedSell(b: Book, bought: seq<int>, sold: seq<int>, p: int, k: nat)
    requires Paired(b, bought, sold) && |sold| + k <= |bought|
    ensures Paired(SellUnits(b, p, k), bought, sold + Repeat(p, k))
  {
    var n := |sold|;
    SumAppend(sold, Repeat(p, k));
    SumRepeat(p, k);
    assert bought[..n+k] == bought[..n] + bought[n..][..k];
    SumAppend(bought[..n], bought[n..][..k]);
    assert bought[n..][k..] == bought[n+k..];
  }

  /** As long as nothing is oversold, the n-th unit sold is matched with the n-th unit bought:
      the profit is the sum of the differences and the open lots are the units bought last. */
  lemma {:induction false} NthSoldMatchesNthBought(fills: seq<Fill>)
    requires NeverOversold(fills)
    ensures var bought, sold := UnitsOf(fills, true), UnitsOf(fills, false);
      && |sold| <= |bought|
      && Reference(fills) == Book(bought[|sold|..], Sum(sold) - Sum(bought[..|sold|]), |sold|)
  {
    if fills != [] {
      var before, f := fills[..|fills|-1], fills[|fills|-1];
      NthSoldMatchesNthBought(before);
      var bought, sold := UnitsOf(before, true), UnitsOf(before, false);
      if f.isBuyer {
        PairedBuy(Reference(before), bought, sold, Repeat(f.price, f.size));
        assert sold + [] == sold;
      } else {
        assert bought + [] == bought;
        PairedSell(Reference(before), bought, sold, f.price, f.size);
      }
    }
  }

  // ----- the distance to the unit queue

  lemma {:induction false} SumBetween(s: seq<int>, lo: int, hi: int)
    requires forall k | 0 <= k < |s| :: lo <= s[k] <= hi
    ensures Value(lo, |s|) <= Sum(s) <= Value(hi, |s|)
  {
    Unit(lo);
    Unit(hi);
    if s != [] {
      SumBetween(s[1..], lo, hi);
      Add(lo, |s| - 1, 1);
      Add(hi, |s| - 1, 1);
    }
  }

  ghost predicate PricesWithin(lots: seq<Lot>, lo: int, hi: int) {
    forall k | 0 <= k < |lots| :: lo <= lots[k].price <= hi
  }

  lemma {:induction false} CostBetween(lots: seq<Lot>, lo: int, hi: int)
    requires PricesWithin(lots, lo, hi)
    ensures Value(lo, Size(lots)) <= Cost(lots) <= Value(hi, Size(lots))
  {
    Unit(lo);
    Unit(hi);
    if lots != [] {
      CostBetween(lots[1..], lo, hi);
      InOrder(lo, lots[0].price, hi, lots[0].qty);
      Add(lo, lots[0].qty, Size(lots[1..]));
      Add(hi, lots[0].qty, Size(lots[1..]));
    }
  }

  ghost predicate AllWithin(fills: seq<Fill>, lo: int, hi: int) {
    forall k | 0 <= k < |fills| :: lo <= fills[k].price <= hi
  }

  ghost predicate LedgerWithin(l: Ledger, lo: int, hi: int) {
    PricesWithin(l.lots, lo, hi) && PricesWithin(l.dropped, lo, hi) && PricesWithin(l.short, lo, hi)
  }

  lemma {:induction false} SellOffWithin(l: Ledger, price: int, remaining: nat, eps: nat, lo: int, hi: int)
    requires LedgerWithin(l, lo, hi) && lo <= price <= hi
    ensures LedgerWithin(SellOff(l, price, remaining, eps), lo, hi)
    decreases |l.lots|, remaining
  {
    if remaining > eps && l.lots != [] {
      SellOffWithin(
        Match(l, price, remaining, eps), price, remaining - Least(l.lots[0].qty, remaining), eps, lo, hi);
    }
  }

  lemma {:induction false} PricesStayWithin(fills: seq<Fill>, eps: nat, lo: int, hi: int)
    requires AllWithin(fills, lo, hi)
    ensures LedgerWithin(LedgerOf(fills, eps), lo, hi)
    ensures forall k | 0 <= k < |UnitsOf(fills, true)| :: lo <= UnitsOf(fills, true)[k] <= hi
  {
    if fills != [] {
      var f := fills[|fills|-1];
      PricesStayWithin(fills[..|fills|-1], eps, lo, hi);
      if !f.isBuyer {
        SellOffWithin(LedgerOf(fills[..|fills|-1], eps), f.price, f.size, eps, lo, hi);
      }
    }
  }

  /** Two sums of prices over the same number of units are at most that number of spreads apart. */
  lemma SpreadApart(lo: int, hi: int, a: int, b: int, n: nat)
    requires Value(lo, n) <= a <= Value(hi, n) && Value(lo, n) <= b <= Value(hi, n)
    ensures -Value(hi - lo, n) <= a - b <= Value(hi - lo, n)
  {
    Spread(hi, lo, n);
  }

  lemma Monotone(w: int, m: nat, n: nat)
    requires 0 <= w && m <= n
    ensures Value(w, m) <= Value(w, n)
  {
    assert w * (n - m) >= 0;
  }

  lemma Segment(bought: seq<int>, i: nat, j: nat, lo: int, hi: int)
    requires i <= j <= |bought| && forall k | 0 <= k < |bought| :: lo <= bought[k] <= hi
    ensures Value(lo, j - i) <= Sum(bought[..j]) - Sum(bought[..i]) <= Value(hi, j - i)
  {
    TakeUnits(bought, i, j - i);
    SumBetween(bought[i..][..j - i], lo, hi);
  }

  /** What one sell of s units does to a ledger: m are matched and d dropped with the last lot, and the
      rest is small unless no unit is left. */
  ghost predicate Sold(l: Ledger, r: Ledger, price: int, s: nat, eps: nat, lo: int, hi: int) {
    var m, d := r.matched - l.matched, Size(r.dropped) - Size(l.dropped);
    && 0 <= m <= s && 0 <= d <= eps && (d > 0 ==> m == s)
    && Size(r.lots) == Size(l.lots) - m - d && (s - m <= eps || Size(r.lots) == 0)
    && r.proceeds == l.proceeds + Value(price, m)
    && Value(lo, d) <= Cost(r.dropped) - Cost(l.dropped) <= Value(hi, d)
  }

  /** One match: n units are matched, and only a match that ends the sell drops any. */
  lemma MatchSold(l: Ledger, price: int, remaining: nat, eps: nat, lo: int, hi: int)
    requires l.lots != [] && PricesWithin(l.lots, lo, hi) && remaining > eps
    ensures var n, r := Least(l.lots[0].qty, remaining), Match(l, price, remaining, eps);
      && r.matched == l.matched + n && r.proceeds == l.proceeds + Value(price, n) && PricesWithin(r.lots, lo, hi)
      && |r.lots| <= |l.lots| && (n < remaining ==> |r.lots| < |l.lots|)
      && var d := Size(r.dropped) - Size(l.dropped);
         && 0 <= d <= eps && (d > 0 ==> n == remaining) && Size(r.lots) == Size(l.lots) - n - d
         && Value(lo, d) <= Cost(r.dropped) - Cost(l.dropped) <= Value(hi, d)
  {
    var n, lot := Least(l.lots[0].qty, remaining), l.lots[0];
    var left := lot.(qty := lot.qty - n);
    var taken := Take(l, price, n);
    assert taken.lots == [left] + l.lots[1..];
    assert Size(taken.lots) == Size(l.lots) - n;
    Unit(lo);
    Unit(hi);
    if left.qty <= eps {
      assert taken.lots[1..] == l.lots[1..];
      UnitsAppend(l.dropped, left);
      InOrder(lo, lot.price, hi, left.qty);
    }
  }

  lemma SoldThen(l: Ledger, mid: Ledger, r: Ledger, price: int, n: nat, s: nat, eps: nat, lo: int, hi: int)
    requires mid.matched == l.matched + n && mid.proceeds == l.proceeds + Value(price, n) && n <= s
    requires Size(mid.dropped) == Size(l.dropped) && Cost(mid.dropped) == Cost(l.dropped)
    requires Size(mid.lots) == Size(l.lots) - n && Sold(mid, r, price, s - n, eps, lo, hi)
    ensures Sold(l, r, price, s, eps, lo, hi)
  {
    Add(price, n, r.matched - mid.matched);
  }

  lemma {:induction false} SellOffSold(l: Ledger, price: int, remaining: nat, eps: nat, lo: int, hi: int)
    requires PricesWithin(l.lots, lo, hi)
    ensures Sold(l, SellOff(l, price, remaining, eps), price, remaining, eps, lo, hi)
    decreases |l.lots|, remaining
  {
    hide Match, Value, Cost;
    Unit(lo);
    Unit(hi);
    Unit(price);
    if remaining > eps && l.lots != [] {
      var n, mid := Least(l.lots[0].qty, remaining), Match(l, price, remaining, eps);
      MatchSold(l, price, remaining, eps, lo, hi);
      if n < remaining {
        SellOffSold(mid, price, remaining - n, eps, lo, hi);
        SoldThen(l, mid, SellOff(mid, price, remaining - n, eps), price, n, remaining, eps, lo, hi);
      } else {
        assert SellOff(mid, price, 0, eps) == mid.(short := mid.short + [Lot(price, 0)]);
      }
    }
  }

  /** The queue is the tail of what was bought, and the profit is proceeds less the cost of the rest. */
  ghost predicate Queued(b: Book, bought: seq<int>, proceeds: int) {
    && b.matched + |b.queue| == |bought| && b.queue == bought[b.matched..]
    && b.pnl == proceeds - Sum(bought[..b.matched])
  }

  /** What the reference's sells brought. */
  function ReferenceProceeds(fills: seq<Fill>): int {
    if fills == [] then 0
    else
      var before, f := fills[..|fills|-1], fills[|fills|-1];
      ReferenceProceeds(before) + if f.isBuyer then 0 else Value(f.price, Least(f.size, |Reference(before).queue|))
  }

  lemma QueuedSell(b: Book, bought: seq<int>, proceeds: int, p: int, n: nat)
    requires Queued(b, bought, proceeds)
    ensures Queued(SellUnits(b, p, n), bought, proceeds + Value(p, Least(n, |b.queue|)))
  {
    TakeUnits(bought, b.matched, Least(n, |b.queue|));
  }

  lemma {:induction false} ReferenceQueued(fills: seq<Fill>)
    ensures Queued(Reference(fills), UnitsOf(fills, true), ReferenceProceeds(fills))
  {
    if fills != [] {
      var before, f := fills[..|fills|-1], fills[|fills|-1];
      ReferenceQueued(before);
      var b, bought := Reference(before), UnitsOf(before, true);
      if f.isBuyer {
        var more := Repeat(f.price, f.size);
        assert (bought + more)[b.matched..] == bought[b.matched..] + more;
        assert (bought + more)[..b.matched] == bought[..b.matched];
      } else {
        QueuedSell(b, bought, ReferenceProceeds(before), f.price, f.size);
        assert bought + [] == bought;
      }
    }
  }

  /** Units that the ledger disposed of and the reference did not, and the other way round, at the time. */
  datatype Split = Split(up: nat, down: nat)

  function Distance(x: int): nat {
    if x >= 0 then x else -x
  }

  /** `gap` is how many more units the reference holds, `extra` what the ledger's disposals brought more
      than the reference's; c bounds what the epsilon has caused so far. */
  ghost predicate Balanced(sp: Split, gap: int, extra: int, c: nat, lo: int, hi: int) {
    && sp.up - sp.down == gap && sp.up + sp.down + Distance(gap) <= 2 * c
    && Value(lo, sp.up) - Value(hi, sp.down) <= extra <= Value(hi, sp.up) - Value(lo, sp.down)
  }

  lemma SellGap(open: nat, held: nat, s: nat, m: nat, d: nat, eps: nat)
    requires m <= s && d <= eps && (d > 0 ==> m == s) && m + d <= open && (s - m <= eps || m + d == open)
    ensures var more, gap := m - Least(s, held), held - open;
      Distance(more) + d + Distance(gap + more + d) <= Distance(gap) + 2 * eps
  {
  }

  /** Units disposed of at a price in the bounds join the split. */
  lemma Joins(sp: Split, gap: int, extra: int, c: nat, lo: int, hi: int, price: int, more: int, d: nat, cost: int, e: nat)
    returns (next: Split)
    requires Balanced(sp, gap, extra, c, lo, hi) && lo <= price <= hi
    requires Value(lo, d) <= cost <= Value(hi, d)
    requires Distance(more) + d + Distance(gap + more + d) <= Distance(gap) + 2 * e
    ensures Balanced(next, gap + more + d, extra + Value(price, more) + cost, c + e, lo, hi)
  {
    InOrder(lo, price, hi, Distance(more));
    if more >= 0 {
      next := Split(sp.up + more + d, sp.down);
      Add(lo, sp.up, more + d);
      Add(hi, sp.up, more + d);
      Add(lo, more, d);
      Add(hi, more, d);
    } else {
      next := Split(sp.up + d, sp.down - more);
      Add(lo, sp.up, d);
      Add(hi, sp.up, d);
      Add(lo, sp.down, -more);
      Add(hi, sp.down, -more);
      Negated(price, -more);
    }
  }

  lemma Negated(p: int, n: int)
    ensures Value(p, -n) == -Value(p, n)
  {
  }

  /** How many more units the reference holds, and what the ledger's disposals brought more. */
  function GapOf(fills: seq<Fill>, eps: nat): int {
    |Reference(fills).queue| - Size(LedgerOf(fills, eps).lots)
  }

  function ExtraOf(fills: seq<Fill>, eps: nat): int {
    var l := LedgerOf(fills, eps);
    l.proceeds + Cost(l.dropped) - ReferenceProceeds(fills)
  }

  lemma BuyKeepsGap(fills: seq<Fill>, eps: nat)
    requires fills != [] && fills[|fills|-1].isBuyer
    ensures var before := fills[..|fills|-1];
      GapOf(fills, eps) == GapOf(before, eps) && ExtraOf(fills, eps) == ExtraOf(before, eps)
      && Sells(fills) == Sells(before)
  {
    var before, f := fills[..|fills|-1], fills[|fills|-1];
    UnitsAppend(LedgerOf(before, eps).lots, Lot(f.price, f.size));
  }

  lemma WithinBefore(fills: seq<Fill>, eps: nat, lo: int, hi: int)
    requires fills != [] && AllWithin(fills, lo, hi)
    ensures PricesWithin(LedgerOf(fills[..|fills|-1], eps).lots, lo, hi) && lo <= fills[|fills|-1].price <= hi
  {
    PricesStayWithin(fills[..|fills|-1], eps, lo, hi);
  }

  lemma SellChanges(fills: seq<Fill>, eps: nat, lo: int, hi: int)
    requires fills != [] && !fills[|fills|-1].isBuyer && AllWithin(fills, lo, hi)
    ensures var before, f := fills[..|fills|-1], fills[|fills|-1];
      var l, r, held := LedgerOf(before, eps), LedgerOf(fills, eps), |Reference(before).queue|;
      var m, d := r.matched - l.matched, Size(r.dropped) - Size(l.dropped);
      && Sold(l, r, f.price, f.size, eps, lo, hi)
      && GapOf(fills, eps) == GapOf(before, eps) + (m - Least(f.size, held)) + d
      && ExtraOf(fills, eps) == ExtraOf(before, eps) + Value(f.price, m - Least(f.size, held)) + (Cost(r.dropped) - Cost(l.dropped))
      && Sells(fills) == Sells(before) + 1
  {
    hide SellOff, Value, Cost, Size, LedgerWithin;
    var before, f := fills[..|fills|-1], fills[|fills|-1];
    WithinBefore(fills, eps, lo, hi);
    SellOffSold(LedgerOf(before, eps), f.price, f.size, eps, lo, hi);
    Apart(f.price, LedgerOf(fills, eps).matched - LedgerOf(before, eps).matched, Least(f.size, |Reference(before).queue|));
  }

  lemma SellMovesGap(
    fills: seq<Fill>, eps: nat, lo: int, hi: int, sp: Split) returns (next: Split)
    requires fills != [] && !fills[|fills|-1].isBuyer && AllWithin(fills, lo, hi) && lo <= hi
    requires var before := fills[..|fills|-1];
      Balanced(sp, GapOf(before, eps), ExtraOf(before, eps), TimesEps(eps, Sells(before)), lo, hi)
    ensures Balanced(next, GapOf(fills, eps), ExtraOf(fills, eps), TimesEps(eps, Sells(fills)), lo, hi)
  {
    hide LedgerOf, Reference, ExtraOf, Value, Cost, Size, Balanced, Sells;
    var before, f := fills[..|fills|-1], fills[|fills|-1];
    SellChanges(fills, eps, lo, hi);
    var l, r, held := LedgerOf(before, eps), LedgerOf(fills, eps), |Reference(before).queue|;
    var m, d := r.matched - l.matched, Size(r.dropped) - Size(l.dropped);
    SellGap(Size(l.lots), held, f.size, m, d, eps);
    next := Joins(sp, GapOf(before, eps), ExtraOf(before, eps), TimesEps(eps, Sells(before)), lo, hi,
                  f.price, m - Least(f.size, held), d, Cost(r.dropped) - Cost(l.dropped), eps);
    OneMore(eps, Sells(before));
  }

  lemma Apart(p: int, m: int, n: int)
    ensures Value(p, m - n) == Value(p, m) - Value(p, n)
  {
  }

  lemma {:induction false} StaysBalanced(fills: seq<Fill>, eps: nat, lo: int, hi: int) returns (sp: Split)
    requires AllWithin(fills, lo, hi) && lo <= hi
    ensures Balanced(sp, GapOf(fills, eps), ExtraOf(fills, eps), TimesEps(eps, Sells(fills)), lo, hi)
  {
    if fills == [] {
      sp := Split(0, 0);
      Unit(lo);
      Unit(hi);
    } else {
      sp := StaysBalanced(fills[..|fills|-1], eps, lo, hi);
      if fills[|fills|-1].isBuyer {
        BuyKeepsGap(fills, eps);
      } else {
        sp := SellMovesGap(fills, eps, lo, hi, sp);
      }
    }
  }

  /** The profits differ by what was brought more, less the cost of the units that only one book gave
      away: at most c spreads. */
  lemma BalancedProfit(sp: Split, gap: int, extra: int, c: nat, lo: int, hi: int, cost: int)
    requires Balanced(sp, gap, extra, c, lo, hi) && lo <= hi
    requires if gap >= 0 then Value(lo, gap) <= cost <= Value(hi, gap) else Value(hi, gap) <= cost <= Value(lo, gap)
    ensures -Value(hi - lo, c) <= extra - cost <= Value(hi - lo, c)
  {
    Apart(lo, sp.up, sp.down);
    Apart(hi, sp.up, sp.down);
    Spread(hi, lo, sp.up);
    Spread(hi, lo, sp.down);
    Monotone(hi - lo, if gap >= 0 then sp.up else sp.down, c);
  }

  /** Open size and matches at most n units apart, profit at most n spreads. */
  ghost predicate Near(l: Ledger, b: Book, n: nat, lo: int, hi: int) {
    && l.matched <= b.matched <= l.matched + n
    && |b.queue| - n <= Size(l.lots) <= |b.queue| + n
    && -Value(hi - lo, n) <= l.pnl - b.pnl <= Value(hi - lo, n)
  }

  /** The ledger never matches more than the reference. */
  lemma {:induction false} MatchesLess(fills: seq<Fill>, eps: nat)
    ensures LedgerOf(fills, eps).matched <= Reference(fills).matched
    ensures Reference(fills).matched <= LedgerOf(fills, eps).matched + TimesEps(eps, Sells(fills))
  {
    if fills != [] {
      var before, f := fills[..|fills|-1], fills[|fills|-1];
      MatchesLess(before, eps);
      if !f.isBuyer {
        MatchesLessAfterSell(fills, eps);
      }
    }
  }

  lemma OpenUnits(fills: seq<Fill>, eps: nat)
    ensures var l, b := LedgerOf(fills, eps), Reference(fills);
      l.matched + Size(l.dropped) + Size(l.lots) == b.matched + |b.queue|
  {
    LedgerAccounts(fills, eps);
    ReferenceQueued(fills);
    UnitsTotals(LedgerOf(fills, eps).lots);
  }

  lemma MatchesLessAfterSell(fills: seq<Fill>, eps: nat)
    requires fills != [] && !fills[|fills|-1].isBuyer
    requires var before := fills[..|fills|-1];
      LedgerOf(before, eps).matched <= Reference(before).matched
        <= LedgerOf(before, eps).matched + TimesEps(eps, Sells(before))
    ensures LedgerOf(fills, eps).matched <= Reference(fills).matched
    ensures Reference(fills).matched <= LedgerOf(fills, eps).matched + TimesEps(eps, Sells(fills))
  {
    var before, f := fills[..|fills|-1], fills[|fills|-1];
    var lo, hi := Bounds(LedgerOf(before, eps).lots);
    SellOffSold(LedgerOf(before, eps), f.price, f.size, eps, lo, hi);
    OpenUnits(before, eps);
    OpenUnits(fills, eps);
    DroppedBounded(before, eps);
    OneMore(eps, Sells(before));
  }

  /** Some bounds of the prices of lots. */
  lemma {:induction false} Bounds(lots: seq<Lot>) returns (lo: int, hi: int)
    ensures PricesWithin(lots, lo, hi)
  {
    lo, hi := 0, 0;
    if lots != [] {
      lo, hi := Bounds(lots[1..]);
      var p := lots[0].price;
      lo, hi := if p < lo then p else lo, if p > hi then p else hi;
      assert forall k | 1 <= k < |lots| :: lots[k] == lots[1..][k-1];
    }
  }

  /** With all prices in [lo, hi], oversold or not, the reported open size and matches are at most eps
      units for each sell away from those of the unit queue, and the profit that many spreads. */
  lemma EpsilonCostsLittle(fills: seq<Fill>, eps: nat, lo: int, hi: int)
    requires AllWithin(fills, lo, hi) && lo <= hi
    ensures Near(LedgerOf(fills, eps), Reference(fills), TimesEps(eps, Sells(fills)), lo, hi)
  {
    hide LedgerOf, Reference, UnitsOf, Sum, Value, Size, Cost;
    var l, b, bought := LedgerOf(fills, eps), Reference(fills), UnitsOf(fills, true);
    var sp := StaysBalanced(fills, eps, lo, hi);
    MatchesLess(fills, eps);
    OpenUnits(fills, eps);
    LedgerAccounts(fills, eps);
    ReferenceQueued(fills);
    PricesStayWithin(fills, eps, lo, hi);
    var gap := Gone(l) - b.matched;
    var cost := Sum(bought[..Gone(l)]) - Sum(bought[..b.matched]);
    if gap >= 0 {
      Segment(bought, b.matched, Gone(l), lo, hi);
    } else {
      Segment(bought, Gone(l), b.matched, lo, hi);
      Negated(lo, -gap);
      Negated(hi, -gap);
    }
    BalancedProfit(sp, gap, ExtraOf(fills, eps), TimesEps(eps, Sells(fills)), lo, hi, cost);
  }

  // ----- the program

  /** The part of a ledger that the program keeps. */
  ghost predicate Shows(l: Ledger, lots: seq<Lot>, pnl: int, trips: nat) {
    l.lots == lots && l.pnl == pnl && l.trips == trips
  }

  /** One SELL: consume the oldest lots until at most eps units remain. */
  method ConsumeSell(
    lots: seq<Lot>, realizedPnl: int, roundTrips: nat, price: int, size: nat, eps: nat, ghost before: Ledger)
    returns (rest: seq<Lot>, pnl: int, trips: nat)
    requires Shows(before, lots, realizedPnl, roundTrips)
    ensures Shows(SellOff(before, price, size, eps), rest, pnl, trips)
  {
    rest, pnl, trips := lots, realizedPnl, roundTrips;
    ghost var l := before;
    var remaining := size;
    while remaining > eps && |rest| > 0
      invariant 0 <= remaining && Shows(l, rest, pnl, trips)
      invariant SellOff(l, price, remaining, eps) == SellOff(before, price, size, eps)
      decreases |rest|, remaining
    {
      l := Match(l, price, remaining, eps);
      var lot := rest[0];
      var taken := Least(lot.qty, remaining);
      pnl := pnl + Value(price - lot.price, taken);
      trips := trips + 1;
      rest := rest[0 := lot.(qty := lot.qty - taken)];
      remaining := remaining - taken;
      if rest[0].qty <= eps {
        rest := rest[1..];
      }
    }
  }

  /** computeRealizedFifo. */
  method ComputeRealizedFifo(fills: seq<Fill>, eps: nat) returns (r: Report)
    ensures var l := LedgerOf(fills, eps);
      && r.realizedPnl == l.pnl && r.roundTrips == l.trips && r.openSize == Size(l.lots) && r.openCost == Cost(l.lots)
    ensures r.totalFees == Fees(fills) && r.netPnl == r.realizedPnl - Fees(fills) && r.fillCount == |fills|
    ensures fills != [] ==> r.firstFillAt == fills[0].time && r.lastFillAt == fills[|fills|-1].time
    ensures r.avgPerRT == if r.roundTrips > 0 then (r.realizedPnl as real) / (r.roundTrips as real) else 0.0
  {
    if fills == [] {
      r := Report(0, 0, 0, 0, 0.0, 0, 0, 0, 0, 0);
      return;
    }
    var lots: seq<Lot> := [];
    var realizedPnl, totalFees, roundTrips := 0, 0, 0;
    for i := 0 to |fills|
      invariant Shows(LedgerOf(fills[..i], eps), lots, realizedPnl, roundTrips)
      invariant totalFees == Fees(fills[..i])
    {
      var f := fills[i];
      assert fills[..i+1][..i] == fills[..i];
      totalFees := totalFees + f.fee;
      if f.isBuyer {
        lots := lots + [Lot(f.price, f.size)];
      } else {
        lots, realizedPnl, roundTrips :=
          ConsumeSell(lots, realizedPnl, roundTrips, f.price, f.size, eps, LedgerOf(fills[..i], eps));
      }
    }
    assert fills[..|fills|] == fills;
    var openSize, openCost := Totals(lots);
    var avg := if roundTrips > 0 then (realizedPnl as real) / (roundTrips as real) else 0.0;
    r := Report(realizedPnl, totalFees, realizedPnl - totalFees, roundTrips, avg, |fills|, openSize, openCost,
                fills[0].time, fills[|fills|-1].time);
  }

  method Totals(lots: seq<Lot>) returns (size: nat, cost: int)
    ensures size == Size(lots) && cost == Cost(lots)
  {
    size, cost := 0, 0;
    for i := 0 to |lots|
      invariant size == Size(lots[..i]) && cost == Cost(lots[..i])
    {
      assert lots[..i+1] == lots[..i] + [lots[i]];
      UnitsAppend(lots[..i], lots[i]);
      size, cost := size + lots[i].qty, cost + Value(lots[i].price, lots[i].qty);
    }
    assert lots[..|lots|] == lots;
  }
}
