/**
 What the orders of a close are good for: they are on the side that reduces the position, at a price
 that crosses the market, and one filled for its whole size leaves less than a hundredth.
 */
module ClosePrice {
  import opened GridLevels
  import opened Numbers
  import opened Exchange
  import opened CloseRun
  import opened CloseRetry
  import opened Options

  lemma WithinACent(x: real)
    ensures x - 0.01 < Floor2(x) <= x
  {
  }

  lemma Share(price: real, part: real, least: real, most: real)
    requires price >= 0.0 && least <= part <= most
    ensures Times(price, least) <= Times(price, part) <= Times(price, most)
  {
  }

  lemma AggressionWithin(attempt: nat)
    requires attempt <= CLOSE_MAX_REPRICE_RETRIES
    ensures 0.005 <= Aggression(attempt) <= 0.02
  {
  }

  /** Every limit price is at least half a percent through the last price and at most two percent, to
      the cent: a sell goes under the market and a buy over it. */
  lemma CrossesTheMarket(price: real, attempt: nat)
    requires price >= 0.0 && attempt <= CLOSE_MAX_REPRICE_RETRIES
    ensures Times(price, 0.98) - 0.01 < AggressivePrice(Sell, price, attempt) <= Times(price, 0.995)
    ensures Times(price, 1.005) - 0.01 < AggressivePrice(Buy, price, attempt) <= Times(price, 1.02)
  {
    hide Times, Floor2, Aggression;
    AggressionWithin(attempt);
    Share(price, 1.0 - Aggression(attempt), 0.98, 0.995);
    Share(price, 1.0 + Aggression(attempt), 1.005, 1.02);
    WithinACent(Times(price, 1.0 - Aggression(attempt)));
    WithinACent(Times(price, 1.0 + Aggression(attempt)));
  }

  lemma FloorsInOrder(x: real, y: real)
    requires x <= y
    ensures Floor2(x) <= Floor2(y)
    ensures y >= x + 0.01 ==> Floor2(x) < Floor2(y)
  {
    assert (x * 100.0).Floor <= (y * 100.0).Floor;
    assert y >= x + 0.01 ==> (y * 100.0).Floor >= (x * 100.0).Floor + 1;
  }

  lemma NextAggression(attempt: nat)
    ensures Aggression(attempt + 1) == Aggression(attempt) + 0.005
  {
  }

  lemma Farther(price: real, a: real, b: real)
    requires price >= 0.0 && b == a + 0.005
    ensures Times(price, a) <= Times(price, b) && (price >= 2.0 ==> Times(price, b) >= Times(price, a) + 0.01)
  {
    assert price * b == price * a + price * 0.005;
  }

  /** A later attempt is never less aggressive, and with a last price of two or more it is more so. */
  lemma MoreAggressive(price: real, attempt: nat)
    requires price >= 0.0
    ensures AggressivePrice(Sell, price, attempt + 1) <= AggressivePrice(Sell, price, attempt)
    ensures AggressivePrice(Buy, price, attempt) <= AggressivePrice(Buy, price, attempt + 1)
    ensures price >= 2.0 ==>
      && AggressivePrice(Sell, price, attempt + 1) < AggressivePrice(Sell, price, attempt)
      && AggressivePrice(Buy, price, attempt) < AggressivePrice(Buy, price, attempt + 1)
  {
    hide Times, Floor2, Aggression;
    var a, b := Aggression(attempt), Aggression(attempt + 1);
    NextAggression(attempt);
    Farther(price, 1.0 - b, 1.0 - a);
    Farther(price, 1.0 + a, 1.0 + b);
    FloorsInOrder(Times(price, 1.0 - b), Times(price, 1.0 - a));
    FloorsInOrder(Times(price, 1.0 + a), Times(price, 1.0 + b));
  }

  /** An order against a position read as `read`: on the side that reduces it, for all of it to the cent. */
  predicate Reduces(read: real, o: Sent) {
    && o.reduceOnly && Abs(read) - 0.01 < o.size <= Abs(read)
    && (read > 0.0 ==> o.side == Sell) && (read < 0.0 ==> o.side == Buy)
  }

  /** A limit price through the last price, by half a percent to two percent. */
  predicate Crosses(last: real, o: Sent) {
    if o.side == Sell then Times(last, 0.98) - 0.01 < o.price <= Times(last, 0.995)
    else Times(last, 1.005) - 0.01 < o.price <= Times(last, 1.02)
  }

  /** What a limit attempt sends, once the ticker has answered: one order that reduces the position read
      and crosses the last price. */
  lemma LimitOrderSent(a: Account, w: Behaviour, p: Plan, attempt: nat, read: real)
    requires Answer(a, w).ok && Answer(a, w).price >= 0.0 && attempt <= CLOSE_MAX_REPRICE_RETRIES
    ensures var sent := LimitSent(a, w, p, attempt, read).a.sent;
      && |sent| == |a.sent| + 1 && a.sent <= sent
      && !sent[|a.sent|].market && Reduces(read, sent[|a.sent|]) && Crosses(Answer(a, w).price, sent[|a.sent|])
  {
    WaitedFewer(a, w);
    var b := Waited(a, w);
    var price := AggressivePrice(CloseSide(read), Answer(a, w).price, attempt);
    var c := Created(b, w, false, CloseSide(read), Floor2(Abs(read)), price, true);
    WaitedFewer(b, w);
    WaitedFewer(c, w);
    var r := Resolved(c, w, CreatedAs(b, w), price);
    PolledFewer(r.a, w, p.polls, p.dust, read);
    CrossesTheMarket(Answer(a, w).price, attempt);
    WithinACent(Abs(read));
  }

  /** What the escalation sends: one market order that reduces the position read. */
  lemma MarketOrderSent(a: Account, w: Behaviour, p: Plan, read: real)
    requires Answer(a, w).ok
    ensures var sent := MarketSent(a, w, p, read).a.sent;
      && |sent| == |a.sent| + 1 && a.sent <= sent
      && sent[|a.sent|].market && Reduces(read, sent[|a.sent|]) && sent[|a.sent|].price == Answer(a, w).price
  {
    WaitedFewer(a, w);
    var b := Waited(a, w);
    var c := Created(b, w, true, CloseSide(read), Floor2(Abs(read)), Answer(a, w).price, true);
    WaitedFewer(b, w);
    PolledFewer(c, w, p.polls, p.dust, read);
    WithinACent(Abs(read));
  }

  // ----- a filled closing order

  /** The order that a close sends against a position read as p, filled for its whole size: the position
      keeps its side and less than a hundredth of it is left. */
  lemma FullFillCloses(p: real, id: nat, price: real)
    ensures var o := Order(id, CloseSide(p), Floor2(Abs(p)), price, true);
      Shrunk(p, PositionAfter(p, o, o.size)) && Abs(PositionAfter(p, o, o.size)) < 0.01
  {
    WithinACent(Abs(p));
  }

  /** Calm, except that the n-th call's order is executed for its size, or fills during the call after. */
  function FilledAt(n: nat, size: real): Behaviour {
    Behaviour(true, (i: nat) =>
      if i == n then CALM.(amount := size)
      else if i == n + 1 then CALM.(happenings := [Fills(0, size)])
      else CALM)
  }

  lemma OneHappening(a: Account, h: Happening)
    ensures HappenedAll(a, [h]) == Happened(a, h)
  {
    assert [h][..0] == [];
  }

  /** The poll that follows a limit order which fills during it. */
  lemma LimitFills(d: Account, p: Plan)
    requires d.live == [] && p.dust >= 0.01 && !Flat(d.position, p.dust) && p.polls > 0
    ensures var s := LimitSent(d, FilledAt(d.turn + 1, Floor2(Abs(d.position))), p, 0, d.position); s.ok && s.flattened
  {
    var size := Floor2(Abs(d.position));
    var w := FilledAt(d.turn + 1, size);
    QuietWait(d, w);
    var b := d.(turn := d.turn + 1);
    QuietWait(b, w);
    var price := AggressivePrice(CloseSide(d.position), 1.0, 0);
    var c := Created(b, w, false, CloseSide(d.position), size, price, true);
    FullFillCloses(d.position, b.nextId, price);
    OneHappening(c, Fills(0, size));
    WithinACent(Abs(d.position));
    assert c.live == [Order(b.nextId, CloseSide(d.position), size, price, true)];
    assert Abs(Waited(c, w).position) < 0.01;
  }

  lemma MarketFills(d: Account, p: Plan)
    requires d.live == [] && p.dust >= 0.01 && !Flat(d.position, p.dust) && p.polls > 0
    ensures var s := MarketSent(d, FilledAt(d.turn + 1, Floor2(Abs(d.position))), p, d.position); s.ok && s.flattened
  {
    var size := Floor2(Abs(d.position));
    var w := FilledAt(d.turn + 1, size);
    QuietWait(d, w);
    var b := d.(turn := d.turn + 1);
    QuietWait(b, w);
    var c := Created(b, w, true, CloseSide(d.position), size, 1.0, true);
    FullFillCloses(d.position, b.nextId, 1.0);
    OneHappening(c, Fills(0, size));
    WithinACent(Abs(d.position));
    assert c.live == [];
    assert Waited(c, w).position == c.position;
  }

  /** The two reads of a close that nothing disturbs. */
  lemma QuietReads(a: Account, w: Behaviour, p: Plan)
    requires w.reliable && forall i: nat | i < a.turn + CallsBefore(p) :: w.will(i) == CALM
    requires a.live == [] && !Flat(a.position, p.dust)
    ensures AtSend(a, w, p) == Some(a.(turn := a.turn + CallsBefore(p)))
  {
    QuietWait(a, w);
    QuietWait(a.(turn := a.turn + 1), w);
    if StartsLate(p) {
      QuietWait(a.(turn := a.turn + 2), w);
    }
  }

  lemma FirstSendCloses(a: Account, w: Behaviour, p: Plan)
    requires AtSend(a, w, p).Some?
    requires var d := AtSend(a, w, p).value;
      var s := if SkipsLimit(p) || StartsLate(p) then MarketSent(d, w, p, d.position) else LimitSent(d, w, p, 0, d.position);
      s.ok && s.flattened
    ensures ClosedFrom(a, w, p).outcome == Closed
  {
    var b := Waited(a, w);
    if !SkipsLimit(p) && !StartsLate(p) {
      FirstAttempt(b, w, p, b.position);
    }
  }

  /** A close can succeed: from an account without orders and a position that is not flat, some behaviour
      ends it closed, whatever the plan. */
  lemma CanClose(a: Account, p: Plan)
    requires a.live == [] && p.dust >= 0.01 && p.polls > 0
    ensures exists w: Behaviour :: w.reliable && ClosedFrom(a, w, p).outcome == Closed
  {
    var d := a.(turn := a.turn + CallsBefore(p));
    var w := FilledAt(d.turn + 1, Floor2(Abs(a.position)));
    if Flat(a.position, p.dust) {
      QuietWait(a, Calm());
      assert Calm().reliable;
    } else {
      QuietReads(a, w, p);
      if SkipsLimit(p) || StartsLate(p) {
        MarketFills(d, p);
      } else {
        LimitFills(d, p);
      }
      FirstSendCloses(a, w, p);
      assert w.reliable;
    }
  }
}
