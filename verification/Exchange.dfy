/**
 The exchange as the engine's adversary. Resting orders may fill, in part or in whole, or
 vanish, whenever the engine waits for a call; a reduce-only fill is clipped to the opposing
 position; calls may fail, create may answer with a zero id or none, a failed create may have
 gone through all the same, and cancels may silently do nothing unless `reliable`.
 */
module Exchange {
  import opened GridLevels
  import opened Numbers

  datatype Order = Order(id: nat, side: Side, size: real, price: real, reduceOnly: bool)

  /** How much of `amount` an order can fill at this position. */
  function Fillable(position: real, o: Order, amount: real): (a: real)
    ensures a <= amount
    ensures o.reduceOnly && o.side == Sell && amount > 0.0 && position >= 0.0 ==> 0.0 <= a <= position
    ensures o.reduceOnly && o.side == Buy && amount > 0.0 && position <= 0.0 ==> 0.0 <= a <= -position
  {
    if !o.reduceOnly then amount
    else if o.side == Sell then Min(amount, if position > 0.0 then position else 0.0)
    else Min(amount, if position < 0.0 then -position else 0.0)
  }

  /** A plain order fills whatever is asked; a reduce-only one as much of it as the opposing position
      holds, and nothing without one. */
  lemma FillableExactly(position: real, o: Order, amount: real)
    requires amount > 0.0
    ensures !o.reduceOnly ==> Fillable(position, o, amount) == amount
    ensures o.reduceOnly ==>
      var room := if o.side == Sell then position else -position;
      Fillable(position, o, amount) == if room <= 0.0 then 0.0 else if room < amount then room else amount
  {
  }

  function PositionAfter(position: real, o: Order, amount: real): real {
    if o.side == Buy then position + Fillable(position, o, amount) else position - Fillable(position, o, amount)
  }

  /** The position kept its sign, or became flat, and did not grow. */
  predicate Shrunk(before: real, after: real) {
    if before >= 0.0 then 0.0 <= after <= before else before <= after <= 0.0
  }

  ghost predicate ShrinksFrom(path: seq<real>, from: nat) {
    from < |path| && forall i, j | from <= i <= j < |path| :: Shrunk(path[i], path[j])
  }

  predicate AllReduceOnly(orders: seq<Order>) {
    forall k | 0 <= k < |orders| :: orders[k].reduceOnly
  }

  function LiveIds(orders: seq<Order>): set<nat> {
    set k | 0 <= k < |orders| :: orders[k].id
  }

  function Without(orders: seq<Order>, id: nat): (r: seq<Order>)
    ensures |r| <= |orders| && id !in LiveIds(r) && LiveIds(r) <= LiveIds(orders)
    ensures AllReduceOnly(orders) ==> AllReduceOnly(r)
  {
    if orders == [] then []
    else
      var n := |orders| - 1;
      var r := Without(orders[..n], id);
      assert LiveIds(orders) == LiveIds(orders[..n]) + {orders[n].id} by {
        assert orders == orders[..n] + [orders[n]];
        LiveIdsAppend(orders[..n], orders[n]);
      }
      LiveIdsAppend(r, orders[n]);
      if orders[n].id == id then r else r + [orders[n]]
  }

  lemma LiveIdsAppend(orders: seq<Order>, o: Order)
    ensures LiveIds(orders + [o]) == LiveIds(orders) + {o.id}
  {
    var all := orders + [o];
    assert all[|orders|] == o;
    forall x | x in LiveIds(orders) ensures x in LiveIds(all) {
      var k :| 0 <= k < |orders| && orders[k].id == x;
      assert all[k].id == x;
    }
  }

  lemma LiveIdsRemove(orders: seq<Order>, k: nat)
    requires k < |orders|
    ensures LiveIds(orders[..k] + orders[k+1..]) <= LiveIds(orders)
  {
    var rest := orders[..k] + orders[k+1..];
    forall x | x in LiveIds(rest) ensures x in LiveIds(orders) {
      var j :| 0 <= j < |rest| && rest[j].id == x;
      assert orders[if j < k then j else j + 1].id == x;
    }
  }

  lemma LiveIdsResize(orders: seq<Order>, k: nat, size: real)
    requires k < |orders|
    ensures LiveIds(orders[k := orders[k].(size := size)]) == LiveIds(orders)
  {
    var next := orders[k := orders[k].(size := size)];
    assert forall j | 0 <= j < |orders| :: next[j].id == orders[j].id;
  }

  /** An order as it was sent. */
  datatype Sent = Sent(market: bool, side: Side, size: real, price: real, reduceOnly: bool)

  /** What create answers: an id, a zero id, or no id at all. */
  datatype CreatedId = RealId(id: nat) | ZeroId | Undefined

  /** A cancelAllOrders as it ended: where the account's history stood, and what was still live. */
  datatype Sweep = Sweep(at: nat, left: seq<Order>)

  // ----- the exchange's choices

  /** What may happen to a live order while a call waits. */
  datatype Happening = Fills(k: nat, amount: real) | Leaves(k: nat)

  datatype Reply = SaysId | SaysZero | SaysNothing

  /** Everything the exchange decides about one call: what happens while it waits, whether it answers
      or fails, whether a cancel is carried out, how much of the open orders it shows, the price it
      quotes, and what becomes of an order. */
  datatype Turn = Turn(
    happenings: seq<Happening>, ok: bool, heard: bool, shown: nat, price: real, reply: Reply, accepted: bool, amount: real)

  /** The decisions for every call of a run; with reliable cancels they do what they say. */
  datatype Behaviour = Behaviour(reliable: bool, will: nat -> Turn)

  /** The account, how many calls were made, the orders sent, and how many orders were live right after
      each create: the only call that adds one. */
  datatype Account = Account(
    position: real, live: seq<Order>, nextId: nat, turn: nat, sent: seq<Sent>, crowd: seq<nat>)

  function Happened(a: Account, h: Happening): Account {
    match h
    case Fills(k, amount) =>
      if k < |a.live| && 0.0 < amount <= a.live[k].size then
        var o := a.live[k];
        a.(position := PositionAfter(a.position, o, amount),
           live := a.live[k := o.(size := o.size - Fillable(a.position, o, amount))])
      else a
    case Leaves(k) => if k < |a.live| then a.(live := a.live[..k] + a.live[k+1..]) else a
  }

  /** What fills of an order leaves it, and moves the position. */
  lemma FilledPartLeaves(a: Account, k: nat, amount: real)
    requires k < |a.live| && 0.0 < amount <= a.live[k].size
    ensures var o, b := a.live[k], Happened(a, Fills(k, amount));
      && |b.live| == |a.live| && b.live[k] == o.(size := b.live[k].size) && 0.0 <= b.live[k].size <= o.size
      && b.position - a.position == (if o.side == Buy then o.size - b.live[k].size else b.live[k].size - o.size)
      && (!o.reduceOnly ==> b.live[k].size == o.size - amount)
  {
  }

  function HappenedAll(a: Account, hs: seq<Happening>): Account {
    if hs == [] then a else Happened(HappenedAll(a, hs[..|hs|-1]), hs[|hs|-1])
  }

  function Answer(a: Account, w: Behaviour): Turn {
    w.will(a.turn)
  }

  /** The account when the next call answers. */
  function Waited(a: Account, w: Behaviour): Account {
    HappenedAll(a, Answer(a, w).happenings).(turn := a.turn + 1)
  }

  function Shown(a: Account, shown: nat): seq<Order> {
    if shown <= |a.live| then a.live[..shown] else a.live
  }

  function OrderCancelled(a: Account, w: Behaviour, id: nat): Account {
    var b := Waited(a, w);
    if w.reliable || Answer(a, w).heard then b.(live := Without(b.live, id)) else b
  }

  function AllCancelled(a: Account, w: Behaviour): Account {
    var b := Waited(a, w);
    if w.reliable || Answer(a, w).heard then b.(live := []) else b
  }

  function CreatedAs(a: Account, w: Behaviour): CreatedId {
    match Answer(a, w).reply
    case SaysId => RealId(a.nextId)
    case SaysZero => ZeroId
    case SaysNothing => Undefined
  }

  /** A market order never rests; a limit order may rest even when the call reports a failure. */
  function Created(a: Account, w: Behaviour, market: bool, side: Side, size: real, price: real, reduceOnly: bool): Account {
    var t, b := Answer(a, w), Waited(a, w);
    var o := Order(b.nextId, side, size, price, reduceOnly);
    var live := if t.accepted && !market then b.live + [o] else b.live;
    var position :=
      if t.accepted && market && 0.0 < t.amount <= size then PositionAfter(b.position, o, t.amount) else b.position;
    Account(position, live, b.nextId + 1, b.turn, b.sent + [Sent(market, side, size, price, reduceOnly)], b.crowd + [|live|])
  }

  /** How bad the exchange may be: a cancel works exactly when cancels are reliable or this one is heard,
      an open order may vanish, the shown orders may be cut short, and a market order may trade any
      part of its size at once. */
  lemma ExchangeMay(a: Account, w: Behaviour, id: nat, k: nat, side: Side, size: real, price: real)
    ensures AllCancelled(a, w).live == (if w.reliable || w.will(a.turn).heard then [] else Waited(a, w).live)
    ensures id in LiveIds(OrderCancelled(a, w, id).live) <==>
      id in LiveIds(Waited(a, w).live) && !w.reliable && !w.will(a.turn).heard
    ensures k < |a.live| ==> Happened(a, Leaves(k)).live == a.live[..k] + a.live[k+1..]
    ensures k <= |a.live| ==> |Shown(a, k)| == k
    ensures var t, c := w.will(a.turn), Created(a, w, true, side, size, price, false);
      t.accepted && 0.0 < t.amount <= size ==>
        c.position - Waited(a, w).position == if side == Buy then t.amount else -t.amount
  {
  }

  /** Nothing new while the calls wait: no order is added, and the records stay. */
  ghost predicate Fewer(a: Account, b: Account) {
    && |b.live| <= |a.live| && LiveIds(b.live) <= LiveIds(a.live)
    && b.nextId == a.nextId && b.sent == a.sent && b.crowd == a.crowd
  }

  lemma HappenedFewer(a: Account, h: Happening)
    ensures Fewer(a, Happened(a, h))
  {
    match h
    case Fills(k, amount) =>
      if k < |a.live| {
        LiveIdsResize(a.live, k, a.live[k].size - Fillable(a.position, a.live[k], amount));
      }
    case Leaves(k) =>
      if k < |a.live| {
        LiveIdsRemove(a.live, k);
      }
  }

  lemma {:induction false} HappenedAllFewer(a: Account, hs: seq<Happening>)
    ensures Fewer(a, HappenedAll(a, hs))
  {
    if hs != [] {
      HappenedAllFewer(a, hs[..|hs|-1]);
      HappenedFewer(HappenedAll(a, hs[..|hs|-1]), hs[|hs|-1]);
    }
  }

  lemma WaitedFewer(a: Account, w: Behaviour)
    ensures Fewer(a, Waited(a, w)) && Waited(a, w).turn == a.turn + 1
  {
    HappenedAllFewer(a, Answer(a, w).happenings);
  }

  /** While only reduce-only orders are live the position keeps its side and only shrinks. */
  lemma {:induction false} HappenedAllShrinks(a: Account, hs: seq<Happening>)
    requires AllReduceOnly(a.live)
    ensures AllReduceOnly(HappenedAll(a, hs).live) && Shrunk(a.position, HappenedAll(a, hs).position)
  {
    if hs != [] {
      var b := HappenedAll(a, hs[..|hs|-1]);
      HappenedAllShrinks(a, hs[..|hs|-1]);
      HappenedShrinks(b, hs[|hs|-1]);
    }
  }

  lemma HappenedShrinks(a: Account, h: Happening)
    requires AllReduceOnly(a.live)
    ensures AllReduceOnly(Happened(a, h).live) && Shrunk(a.position, Happened(a, h).position)
  {
  }

  // ----- the client

  class Client {
    /** Cancels do what they say. */
    const reliable: bool
    const will: nat -> Turn
    var position: real
    var live: seq<Order>
    var nextId: nat
    /** How many calls were made. */
    var turn: nat
    ghost var path: seq<real>
    ghost var sent: seq<Sent>
    /** How many orders were live right after each create. */
    ghost var crowd: seq<nat>
    /** How many calls have answered with an error. */
    ghost var failures: nat
    ghost var swept: seq<Sweep>
    /** Where in the history the last successful position read was. */
    ghost var readAt: nat

    constructor (position: real, live: seq<Order>, nextId: nat, w: Behaviour)
      ensures this.position == position && this.live == live && Ways() == w
      ensures Now() == Account(position, live, nextId, 0, [], [])
      ensures path == [position] && failures == 0 && swept == [] && readAt == 0
    {
      this.position, this.live, this.nextId, this.reliable, this.will := position, live, nextId, w.reliable, w.will;
      turn, path, sent, crowd, failures, swept, readAt := 0, [position], [], [], 0, [], 0;
    }

    ghost function Ways(): Behaviour {
      Behaviour(reliable, will)
    }

    ghost function Now(): Account
      reads this
    {
      Account(position, live, nextId, turn, sent, crowd)
    }

    ghost predicate Consistent()
      reads this
    {
      path != [] && path[|path|-1] == position
    }

    /** Since path index `from` only reduce-only orders have been live. */
    ghost predicate Tracked(from: nat)
      reads this
    {
      && Consistent()
      && ShrinksFrom(path, from)
      && AllReduceOnly(live)
    }

    /** What every wait keeps: the history only grows, and tracking stays. */
    ghost predicate Kept(from: nat, tracked: bool, pathBefore: seq<real>)
      reads this
    {
      Consistent() && pathBefore <= path && (tracked ==> Tracked(from))
    }

    /** Time passes until the call answers: any number of fills and expiries. */
    method Advance(ghost from: nat) returns (t: Turn)
      requires Consistent()
      modifies this`position, this`live, this`path, this`turn
      ensures t == Answer(old(Now()), Ways()) && Now() == Waited(old(Now()), Ways())
      ensures Kept(from, old(Tracked(from)), old(path))
    {
      t := will(turn);
      var hs := t.happenings;
      ghost var before := Now();
      for i := 0 to |hs|
        invariant turn == before.turn && Now() == HappenedAll(before, hs[..i])
        invariant Kept(from, old(Tracked(from)), old(path))
      {
        assert hs[..i+1][..i] == hs[..i];
        Suffer(from, hs[i]);
      }
      assert hs[..|hs|] == hs;
      turn := turn + 1;
    }

    /** One order fills by some amount, or goes away, or nothing happens. */
    method Suffer(ghost from: nat, h: Happening)
      requires Consistent()
      modifies this`position, this`live, this`path
      ensures Now() == Happened(old(Now()), h)
      ensures Kept(from, old(Tracked(from)), old(path))
    {
      match h {
        case Leaves(k) =>
          if k < |live| {
            live := live[..k] + live[k+1..];
          }
        case Fills(k, amount) =>
          if k < |live| && 0.0 < amount <= live[k].size {
            var o := live[k];
            live := live[k := o.(size := o.size - Fillable(position, o, amount))];
            assert Tracked(from) ==> live[k].reduceOnly;
            MoveTo(PositionAfter(position, o, amount), from);
          }
      }
    }

    /** The position moves. */
    method MoveTo(p: real, ghost from: nat)
      requires Consistent() && (Tracked(from) ==> Shrunk(position, p))
      modifies this`position, this`path
      ensures Consistent() && (old(Tracked(from)) ==> Tracked(from))
      ensures position == p && path == old(path) + [p]
    {
      position := p;
      path := path + [p];
    }

    /** getPositions, reduced to this pair: what it answers was true when it answered. */
    method GetPosition(ghost from: nat) returns (ok: bool, size: real)
      requires Consistent()
      modifies this`position, this`live, this`path, this`turn, this`failures, this`readAt
      ensures ok == Answer(old(Now()), Ways()).ok && Now() == Waited(old(Now()), Ways())
      ensures failures == old(failures) + if ok then 0 else 1
      ensures Kept(from, old(Tracked(from)), old(path))
      ensures size == position && (ok ==> readAt == |path| - 1) && (!ok ==> readAt == old(readAt))
    {
      var t := Advance(from);
      ok, size := t.ok, position;
      if ok {
        readAt := |path| - 1;
      }
      failures := failures + if ok then 0 else 1;
    }

    method GetTicker(ghost from: nat) returns (ok: bool, lastPrice: real)
      requires Consistent()
      modifies this`position, this`live, this`path, this`turn, this`failures
      ensures ok == Answer(old(Now()), Ways()).ok && lastPrice == Answer(old(Now()), Ways()).price
      ensures Now() == Waited(old(Now()), Ways())
      ensures failures == old(failures) + if ok then 0 else 1
      ensures Kept(from, old(Tracked(from)), old(path))
    {
      var t := Advance(from);
      ok, lastPrice := t.ok, t.price;
      failures := failures + if ok then 0 else 1;
    }

    /** open_orders may lag: any prefix of what is live. */
    method GetOpenOrders(ghost from: nat) returns (ok: bool, orders: seq<Order>)
      requires Consistent()
      modifies this`position, this`live, this`path, this`turn
      ensures Now() == Waited(old(Now()), Ways())
      ensures ok == Answer(old(Now()), Ways()).ok && orders == Shown(Now(), Answer(old(Now()), Ways()).shown)
      ensures Kept(from, old(Tracked(from)), old(path))
    {
      var t := Advance(from);
      ok := t.ok;
      orders := if t.shown <= |live| then live[..t.shown] else live;
    }

    /** cancelOrder never throws; its answer is ignored by every caller. */
    method CancelOrder(ghost from: nat, id: nat)
      requires Consistent()
      modifies this`position, this`live, this`path, this`turn
      ensures Now() == OrderCancelled(old(Now()), Ways(), id)
      ensures Kept(from, old(Tracked(from)), old(path))
    {
      var t := Advance(from);
      if reliable || t.heard {
        live := Without(live, id);
      }
    }

    /** cancelAllOrders swallows its failures. */
    method CancelAll(ghost from: nat)
      requires Consistent()
      modifies this`position, this`live, this`path, this`turn, this`swept
      ensures Now() == AllCancelled(old(Now()), Ways())
      ensures Kept(from, old(Tracked(from)), old(path))
      ensures reliable ==> live == []
      ensures swept == old(swept) + [Sweep(|path| - 1, live)]
    {
      var t := Advance(from);
      if reliable || t.heard {
        live := [];
      }
      swept := swept + [Sweep(|path| - 1, live)];
    }

    /** A market order never rests; a limit order may rest even when the call reports a failure. */
    method CreateOrder(ghost from: nat, market: bool, side: Side, size: real, price: real, reduceOnly: bool)
      returns (ok: bool, created: CreatedId)
      requires Consistent()
      modifies this
      ensures Now() == Created(old(Now()), Ways(), market, side, size, price, reduceOnly)
      ensures ok == Answer(old(Now()), Ways()).ok && created == CreatedAs(old(Now()), Ways())
      ensures Consistent() && (old(Tracked(from)) && reduceOnly ==> Tracked(from)) && old(path) <= path
      ensures failures == old(failures) + if ok then 0 else 1
      ensures swept == old(swept) && readAt == old(readAt)
    {
      ghost var before := Now();
      var id := nextId;
      var t := Advance(from);
      WaitedFewer(before, Ways());
      sent := sent + [Sent(market, side, size, price, reduceOnly)];
      nextId := id + 1;
      ok := t.ok;
      created := match t.reply case SaysId => RealId(id) case SaysZero => ZeroId case SaysNothing => Undefined;
      Settle(from, t, market, Order(id, side, size, price, reduceOnly));
      failures := failures + if ok then 0 else 1;
      crowd := crowd + [|live|];
    }

    /** What becomes of an order that was just sent. */
    method Settle(ghost from: nat, t: Turn, market: bool, o: Order)
      requires Consistent()
      modifies this`position, this`live, this`path
      ensures Consistent() && (old(Tracked(from)) && o.reduceOnly ==> Tracked(from)) && old(path) <= path
      ensures live == if t.accepted && !market then old(live) + [o] else old(live)
      ensures position ==
        if t.accepted && market && 0.0 < t.amount <= o.size then PositionAfter(old(position), o, t.amount) else old(position)
    {
      if t.accepted && !market {
        live := live + [o];
      } else if t.accepted && 0.0 < t.amount <= o.size {
        position := PositionAfter(position, o, t.amount);
        path := path + [position];
      }
    }
  }
}
