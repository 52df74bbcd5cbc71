/**
 The verified close: flatten the position with reduce-only orders, re-read it from the
 exchange, and mark the bot stopped only when it is seen flat. Limit attempts are repriced a
 bounded number of times, or escalate once to a market order; everything else fails closed.
 */
module CloseBot {
  import opened GridLevels
  import opened Numbers
  import opened Exchange
  import opened CloseRun
  import opened Options

  datatype Status = Running | Paused | Stopped

  /** An order the close may send: reduce-only, against the position, never larger than it. */
  predicate Closing(start: real, o: Sent) {
    && o.reduceOnly
    && (start > 0.0 ==> o.side == Sell) && (start < 0.0 ==> o.side == Buy)
    && 0.0 <= o.size <= Abs(start)
  }

  /** Every order is reduce-only, and closes the position of a clean start. */
  ghost predicate AllClosing(clean: bool, start: real, orders: seq<Sent>) {
    forall k | 0 <= k < |orders| :: orders[k].reduceOnly && (clean ==> Closing(start, orders[k]))
  }

  /** How many orders a close may send, and of which kind in which order. */
  ghost predicate WithinBudget(escalates: bool, immediate: bool, orders: seq<Sent>) {
    if !escalates then
      |orders| <= CLOSE_MAX_REPRICE_RETRIES + 1 && forall k | 0 <= k < |orders| :: !orders[k].market
    else
      && |orders| <= 2
      && (forall k | 0 <= k < |orders| - 1 :: !orders[k].market)
      && (|orders| == 2 ==> orders[1].market)
      && (immediate ==> |orders| <= 1 && forall k | 0 <= k < |orders| :: orders[k].market)
  }

  /** A close gives up only after everything it may send: all limit attempts, or the market order. */
  ghost predicate Exhausted(escalates: bool, orders: seq<Sent>) {
    if escalates then orders != [] && orders[|orders|-1].market else |orders| == CLOSE_MAX_REPRICE_RETRIES + 1
  }

  /** A phase ends early only because a call failed. */
  ghost predicate Failing(ok: bool, before: nat, after: nat) {
    before <= after && (!ok ==> before < after)
  }

  predicate SameSign(start: real, read: real) {
    (start > 0.0 ==> read > 0.0) && (start < 0.0 ==> read < 0.0)
  }

  /** A position read later than `start` has start's side or is flat, and is no larger. */
  lemma LaterRead(c: Client, from: nat)
    requires c.Tracked(from)
    ensures Shrunk(c.path[from], c.position)
    ensures Abs(c.position) <= Abs(c.path[from])
    ensures c.position != 0.0 ==> SameSign(c.path[from], c.position)
  {
  }

  /** The account is followed from index `from`; when the start is clean, nothing that could make the
      position grow or change sides has been live since. */
  ghost predicate Ready(c: Client, from: nat, clean: bool)
    reads c
  {
    c.Consistent() && from < |c.path| && (clean ==> c.Tracked(from))
  }

  /** A size is the last one that was read, and was read since `from`. */
  ghost predicate LastRead(c: Client, from: nat, size: real)
    reads c
  {
    from <= c.readAt < |c.path| && size == c.path[c.readAt]
  }

  /** The position was just read, and is flat. */
  ghost predicate FlatNow(c: Client, from: nat, dust: real)
    reads c
  {
    from <= c.readAt == |c.path| - 1 && Flat(c.position, dust)
  }

  /** The last position read was flat. */
  ghost predicate ReadFlat(c: Client, from: nat, dust: real)
    reads c
  {
    from <= c.readAt < |c.path| && Flat(c.path[c.readAt], dust)
  }

  /** All limit attempts were made, and the position was last seen open. */
  ghost predicate GaveUp(c: Client, from: nat, p: Plan, n: nat, size: real)
    reads c
  {
    && |c.sent| - n == CLOSE_MAX_REPRICE_RETRIES + 1
    && !p.escalates && !Flat(size, p.dust) && LastRead(c, from, size)
  }

  /** What a step of the close leaves: the record grew, and calls failed if it broke off. */
  ghost predicate Onward(c: Client, path: seq<real>, swept: seq<Sweep>, failures: nat, ok: bool)
    reads c
  {
    path <= c.path && swept <= c.swept && Failing(ok, failures, c.failures)
  }

  class Bot {
    var status: Status
    var positionSize: real
    /** close_escalation; on unless the column is 0. */
    const escalationEnabled: bool
    /** Whether the engine still holds an instance of this bot. */
    var registered: bool

    constructor (status: Status, positionSize: real, escalationEnabled: bool, registered: bool)
      ensures this.status == status && this.positionSize == positionSize
      ensures this.escalationEnabled == escalationEnabled && this.registered == registered
    {
      this.status, this.positionSize := status, positionSize;
      this.escalationEnabled, this.registered := escalationEnabled, registered;
    }

    /** Removes the instance, cancelling what it has live, and marks the row paused. The cancel's
        answer is ignored. */
    method PauseBot(c: Client, ghost from: nat)
      requires c.Consistent()
      modifies this`status, this`registered, c`position, c`live, c`path, c`turn, c`swept
      ensures c.Kept(from, old(c.Tracked(from)), old(c.path))
      ensures status == Paused && !registered
      ensures c.Now() == PausedAt(old(c.Now()), c.Ways(), old(registered))
      ensures c.swept == if old(registered) then old(c.swept) + [Sweep(|c.path| - 1, c.live)] else old(c.swept)
      ensures !old(registered) ==> c.path == old(c.path)
    {
      if registered {
        c.CancelAll(from);
        registered := false;
      }
      status := Paused;
    }

    /** An id the next attempt can cancel by, if there is one. */
    method ResolveId(c: Client, ghost from: nat, ghost clean: bool, created: CreatedId, price: real)
      returns (id: Option<nat>)
      requires Ready(c, from, clean)
      modifies c`position, c`live, c`path, c`turn
      ensures Resolution(c.Now(), id) == Resolved(old(c.Now()), c.Ways(), created, price)
      ensures Ready(c, from, clean) && old(c.path) <= c.path
    {
      match created {
        case RealId(known) => id := Some(known);
        case Undefined => id := None;
        case ZeroId =>
          var ok, orders := c.GetOpenOrders(from);
          id := None;
          if ok {
            id := FindByPrice(orders, price);
          }
      }
    }

    /** The first open order close to the price. */
    method FindByPrice(orders: seq<Order>, price: real) returns (id: Option<nat>)
      ensures id == IdAt(orders, price)
    {
      id := None;
      var k := 0;
      while k < |orders| && id.None?
        invariant 0 <= k <= |orders|
        invariant IdAt(orders, price) == if id.Some? then id else IdAt(orders[k..], price)
      {
        if Abs(orders[k].price - price) < CLOSE_ORDER_ID_PRICE_MATCH_TOL {
          id := Some(orders[k].id);
        }
        k := k + 1;
      }
    }

    /** Waits out one round of polls. */
    method Poll(c: Client, ghost from: nat, ghost clean: bool, polls: nat, dust: real, last: real)
      returns (ok: bool, flattened: bool, size: real)
      requires Ready(c, from, clean)
      modifies c`position, c`live, c`path, c`turn, c`failures, c`readAt
      ensures Stage(c.Now(), ok, flattened, None, size) == Polled(old(c.Now()), c.Ways(), polls, dust, last)
      ensures Failing(ok, old(c.failures), c.failures)
      ensures Ready(c, from, clean) && old(c.path) <= c.path
      ensures flattened ==> FlatNow(c, from, dust)
      ensures ok && polls > 0 && !flattened ==> !Flat(size, dust) && LastRead(c, from, size)
    {
      hide Waited;
      ok, flattened, size := true, false, last;
      var poll := 0;
      while poll < polls && ok && !flattened
        invariant 0 <= poll <= polls
        invariant Failing(ok, old(c.failures), c.failures)
        invariant Ready(c, from, clean) && old(c.path) <= c.path
        invariant Polled(old(c.Now()), c.Ways(), polls, dust, last)
          == if ok && !flattened then Polled(c.Now(), c.Ways(), polls - poll, dust, size)
             else Stage(c.Now(), ok, flattened, None, size)
        invariant flattened ==> FlatNow(c, from, dust)
        invariant poll > 0 && !flattened && ok ==> !Flat(size, dust) && LastRead(c, from, size)
      {
        var seen;
        ok, seen := c.GetPosition(from);
        if ok {
          size := seen;
          flattened := Flat(size, dust);
        }
        poll := poll + 1;
      }
    }

    /** Sends one limit order against a position read as `read`, and polls. */
    method SendLimit(c: Client, ghost from: nat, ghost clean: bool, p: Plan, attempt: nat, read: real)
      returns (ok: bool, flattened: bool, id: Option<nat>, size: real)
      requires Ready(c, from, clean) && p.polls > 0 && p.dust >= 0.0
      requires clean ==> Abs(read) <= Abs(c.path[from]) && SameSign(c.path[from], read)
      modifies c
      ensures Stage(c.Now(), ok, flattened, id, size) == LimitSent(old(c.Now()), c.Ways(), p, attempt, read)
      ensures Ready(c, from, clean)
      ensures Onward(c, old(c.path), old(c.swept), old(c.failures), ok)
      ensures Extends(clean, c.path[from], false, old(c.sent), c.sent)
      ensures ok && !flattened ==> |c.sent| == |old(c.sent)| + 1
      ensures flattened ==> FlatNow(c, from, p.dust)
      ensures ok && !flattened ==> !Flat(size, p.dust) && LastRead(c, from, size)
    {
      flattened, id, size := false, None, read;
      ghost var before := c.Now();
      WaitedFewer(before, c.Ways());
      var closeSide := CloseSide(read);
      var closeSize := Floor2(Abs(read));
      var lastPrice;
      ok, lastPrice := c.GetTicker(from);
      if !ok {
        return;
      }
      WaitedFewer(c.Now(), c.Ways());
      var price := AggressivePrice(closeSide, lastPrice, attempt);
      var created;
      ok, created := c.CreateOrder(from, false, closeSide, closeSize, price, true);
      if !ok {
        return;
      }
      id := ResolveId(c, from, clean, created, price);
      ok, flattened, size := Poll(c, from, clean, p.polls, p.dust, size);
    }

    /** One limit attempt: re-read, cancel the previous order, send the next one, poll. */
    method Attempt(c: Client, ghost from: nat, ghost clean: bool, p: Plan, attempt: nat, previous: Option<nat>)
      returns (ok: bool, flattened: bool, id: Option<nat>, size: real)
      requires Ready(c, from, clean) && p.polls > 0 && p.dust >= 0.0
      modifies c
      ensures Stage(c.Now(), ok, flattened, id, size) == Attempted(old(c.Now()), c.Ways(), p, attempt, previous)
      ensures Ready(c, from, clean)
      ensures Onward(c, old(c.path), old(c.swept), old(c.failures), ok)
      ensures Extends(clean, c.path[from], false, old(c.sent), c.sent)
      ensures ok && !flattened ==> |c.sent| == |old(c.sent)| + 1
      ensures flattened ==> FlatNow(c, from, p.dust)
      ensures ok && !flattened ==> !Flat(size, p.dust) && LastRead(c, from, size)
    {
      hide LimitSent;
      flattened, id := false, previous;
      ok, size := c.GetPosition(from);
      if !ok {
        return;
      }
      if Flat(size, p.dust) {
        flattened := true;
        return;
      }
      if clean {
        LaterRead(c, from);
      }
      CancelPrevious(c, from, clean, id, attempt > 0);
      ok, flattened, id, size := SendLimit(c, from, clean, p, attempt, size);
    }

    /** Cancel before replace: by id when it is known, otherwise everything if anything was sent. */
    method CancelPrevious(c: Client, ghost from: nat, ghost clean: bool, previous: Option<nat>, any: bool)
      requires Ready(c, from, clean)
      modifies c`position, c`live, c`path, c`turn, c`swept
      ensures c.Now() == PreviousCancelled(old(c.Now()), c.Ways(), previous, any)
      ensures Ready(c, from, clean) && old(c.path) <= c.path && old(c.swept) <= c.swept
    {
      if previous.Some? {
        c.CancelOrder(from, previous.value);
      } else if any {
        c.CancelAll(from);
      }
    }

    /** Sends one market order against a position read as `read`, and polls; a failed send is
        logged and ends the escalation unflattened. */
    method SendMarket(c: Client, ghost from: nat, ghost clean: bool, p: Plan, read: real)
      returns (ok: bool, flattened: bool, size: real)
      requires Ready(c, from, clean) && p.polls > 0 && p.dust >= 0.0
      requires clean ==> Abs(read) <= Abs(c.path[from]) && SameSign(c.path[from], read)
      requires !Flat(read, p.dust) && LastRead(c, from, read)
      modifies c
      ensures Stage(c.Now(), ok, flattened, None, size) == MarketSent(old(c.Now()), c.Ways(), p, read)
      ensures Ready(c, from, clean)
      ensures Onward(c, old(c.path), old(c.swept), old(c.failures), ok)
      ensures Extends(clean, c.path[from], true, old(c.sent), c.sent)
      ensures ok && !flattened ==> |c.sent| == |old(c.sent)| + 1
      ensures flattened ==> FlatNow(c, from, p.dust)
      ensures ok && !flattened ==> !Flat(size, p.dust) && LastRead(c, from, size)
    {
      flattened, size := false, read;
      WaitedFewer(c.Now(), c.Ways());
      var closeSide := CloseSide(read);
      var closeSize := Floor2(Abs(read));
      var refPrice;
      ok, refPrice := c.GetTicker(from);
      if !ok {
        return;
      }
      WaitedFewer(c.Now(), c.Ways());
      var marketSent, created := c.CreateOrder(from, true, closeSide, closeSize, refPrice, true);
      if marketSent {
        ok, flattened, size := Poll(c, from, clean, p.polls, p.dust, size);
      }
    }

    /** Escalation: cancel the limit order, re-read, and send the rest as one market order. */
    method Escalate(c: Client, ghost from: nat, ghost clean: bool, p: Plan, previous: Option<nat>, skippedLimit: bool)
      returns (ok: bool, flattened: bool, size: real)
      requires Ready(c, from, clean) && p.polls > 0 && p.dust >= 0.0
      modifies c
      ensures Stage(c.Now(), ok, flattened, None, size) == Escalated(old(c.Now()), c.Ways(), p, previous, skippedLimit)
      ensures Ready(c, from, clean)
      ensures Onward(c, old(c.path), old(c.swept), old(c.failures), ok)
      ensures Extends(clean, c.path[from], true, old(c.sent), c.sent)
      ensures ok && !flattened ==> |c.sent| == |old(c.sent)| + 1
      ensures flattened ==> FlatNow(c, from, p.dust)
      ensures ok && !flattened ==> !Flat(size, p.dust) && LastRead(c, from, size)
    {
      hide MarketSent;
      flattened := false;
      CancelPrevious(c, from, clean, previous, !skippedLimit);
      ok, size := c.GetPosition(from);
      if !ok {
        return;
      }
      if Flat(size, p.dust) {
        flattened := true;
        return;
      }
      if clean {
        LaterRead(c, from);
      }
      ok, flattened, size := SendMarket(c, from, clean, p, size);
    }

    /** The limit phase; with the gap fast path it is skipped. */
    method LimitPhase(c: Client, ghost from: nat, ghost clean: bool, p: Plan, lastRead: real)
      returns (ok: bool, flattened: bool, escalate: bool, lastId: Option<nat>, size: real)
      requires Ready(c, from, clean) && p.polls > 0 && p.dust >= 0.0
      modifies c
      ensures Limits(Stage(c.Now(), ok, flattened, lastId, size), escalate) == LimitPart(old(c.Now()), c.Ways(), p, lastRead)
      ensures Ready(c, from, clean)
      ensures Onward(c, old(c.path), old(c.swept), old(c.failures), ok)
      ensures LimitOrders(clean, c.path[from], old(c.sent), c.sent)
      ensures LimitsOnly(p.escalates, SkipsLimit(p), |old(c.sent)|, c.sent)
      ensures escalate ==> p.escalates
      ensures flattened ==> FlatNow(c, from, p.dust)
      ensures ok && !flattened && !escalate ==> GaveUp(c, from, p, |old(c.sent)|, size)
    {
      if SkipsLimit(p) {
        ok, flattened, escalate, lastId, size := true, false, true, None, lastRead;
      } else {
        ok, flattened, escalate, lastId, size := Reprice(c, from, clean, p, lastRead);
      }
    }

    /** The repricing loop: up to four limit attempts, or one when escalation is on. */
    method Reprice(c: Client, ghost from: nat, ghost clean: bool, p: Plan, lastRead: real)
      returns (ok: bool, flattened: bool, escalate: bool, lastId: Option<nat>, size: real)
      requires Ready(c, from, clean) && p.polls > 0 && p.dust >= 0.0
      modifies c
      ensures Limits(Stage(c.Now(), ok, flattened, lastId, size), escalate)
        == LimitRun(old(c.Now()), c.Ways(), p, 0, None, lastRead)
      ensures Ready(c, from, clean)
      ensures Onward(c, old(c.path), old(c.swept), old(c.failures), ok)
      ensures LimitOrders(clean, c.path[from], old(c.sent), c.sent)
      ensures LimitsOnly(p.escalates, false, |old(c.sent)|, c.sent)
      ensures escalate ==> p.escalates
      ensures flattened ==> FlatNow(c, from, p.dust)
      ensures ok && !flattened && !escalate ==> GaveUp(c, from, p, |old(c.sent)|, size)
    {
      hide Attempted;
      ghost var was, start := c.Now(), c.path[from];
      ghost var goal := LimitRun(was, c.Ways(), p, 0, None, lastRead);
      ok, escalate, flattened, lastId, size := true, false, false, None, lastRead;
      var attempt := 0;
      while attempt <= CLOSE_MAX_REPRICE_RETRIES
        invariant 0 <= attempt <= CLOSE_MAX_REPRICE_RETRIES + 1 && ok && !flattened && !escalate
        invariant Ready(c, from, clean)
        invariant Onward(c, old(c.path), old(c.swept), old(c.failures), true)
        invariant c.path[from] == start && LimitOrders(clean, start, was.sent, c.sent)
        invariant |c.sent| == |was.sent| + attempt
        invariant goal == LimitRun(c.Now(), c.Ways(), p, attempt, lastId, size)
        invariant attempt > 0 ==> !Flat(size, p.dust) && LastRead(c, from, size)
        invariant p.escalates ==> attempt <= 1
      {
        LimitRunGoesOn(c.Now(), c.Ways(), p, attempt, lastId, size);
        if p.escalates && (attempt >= 1 || p.late) {
          escalate := true;
          return;
        }
        ghost var sent := c.sent;
        ok, flattened, lastId, size := Attempt(c, from, clean, p, attempt, lastId);
        OneMoreLimit(clean, start, was.sent, sent, c.sent);
        attempt := attempt + 1;
        if !ok || flattened {
          return;
        }
      }
    }

    /** The limit phase and, when it asks for it, the escalation. */
    method Flatten(c: Client, ghost from: nat, ghost clean: bool, p: Plan, lastRead: real)
      returns (ok: bool, flattened: bool, lastId: Option<nat>, size: real)
      requires Ready(c, from, clean) && p.polls > 0 && p.dust >= 0.0
      modifies c
      ensures Stage(c.Now(), ok, flattened, lastId, size) == FlattenRun(old(c.Now()), c.Ways(), p, lastRead)
      ensures Ready(c, from, clean)
      ensures Onward(c, old(c.path), old(c.swept), old(c.failures), ok)
      ensures old(c.sent) <= c.sent && AllClosing(clean, c.path[from], c.sent[|old(c.sent)|..])
      ensures WithinBudget(p.escalates, p.immediate, c.sent[|old(c.sent)|..])
      ensures ok && !flattened ==> Exhausted(p.escalates, c.sent[|old(c.sent)|..])
      ensures flattened ==> FlatNow(c, from, p.dust)
      ensures ok && !flattened ==> !Flat(size, p.dust) && LastRead(c, from, size)
    {
      ghost var n := |c.sent|;
      var escalate;
      ok, flattened, escalate, lastId, size := LimitPhase(c, from, clean, p, lastRead);
      LimitsFit(p.escalates, p.immediate, n, c.sent);
      if !ok {
        return;
      }
      if !flattened && escalate {
        ghost var sent := c.sent;
        ok, flattened, size := Escalate(c, from, clean, p, lastId, SkipsLimit(p));
        MoreSent(clean, c.path[from], true, n, sent, c.sent);
        EscalationFits(p.immediate, n, sent, c.sent);
        lastId := None;
        if !ok {
          return;
        }
      }
    }

    /** Where the account is followed from: the end of the pause's cancel, or the call itself when
        there was no cancel or nothing but reduce-only orders was live. */
    static ghost function Start(registered: bool, live: seq<Order>, path: seq<real>, before: nat, swept: seq<Sweep>): int
      requires registered ==> before < |swept|
    {
      if AllReduceOnly(live) || !registered then |path| - 1 else swept[before].at
    }

    /** The start is clean when only reduce-only orders were live there. */
    static ghost function CleanStart(registered: bool, live: seq<Order>, before: nat, swept: seq<Sweep>): bool
      requires registered ==> before < |swept|
    {
      AllReduceOnly(live) || (registered && AllReduceOnly(swept[before].left))
    }

    method BeginClose(c: Client) returns (ghost from: nat, ghost clean: bool)
      requires c.Consistent()
      modifies this`status, this`registered, c`position, c`live, c`path, c`turn, c`swept
      ensures status == Paused && old(c.swept) <= c.swept && (old(registered) ==> |c.swept| > |old(c.swept)|)
      ensures c.Now() == PausedAt(old(c.Now()), c.Ways(), old(registered))
      ensures from == Start(old(registered), old(c.live), old(c.path), |old(c.swept)|, c.swept)
      ensures clean == CleanStart(old(registered), old(c.live), |old(c.swept)|, c.swept)
      ensures Ready(c, from, clean) && old(c.path) <= c.path
    {
      ghost var entry := |c.path| - 1;
      PauseBot(c, entry);
      from := if old(AllReduceOnly(c.live)) then entry else |c.path| - 1;
      clean := old(AllReduceOnly(c.live)) || AllReduceOnly(c.live);
    }

    /** The close after the pause. */
    method CloseFrom(c: Client, ghost from: nat, ghost clean: bool, p: Plan)
      returns (outcome: Outcome)
      requires Ready(c, from, clean) && p.polls > 0 && p.dust >= 0.0 && status == Paused
      modifies this`status, this`positionSize, c
      ensures var r := ClosedFrom(old(c.Now()), c.Ways(), p); c.Now() == r.a && outcome == r.outcome
      ensures Ready(c, from, clean) && old(c.path) <= c.path && old(c.swept) <= c.swept
      ensures old(c.sent) <= c.sent && AllClosing(clean, c.path[from], c.sent[|old(c.sent)|..])
      ensures WithinBudget(p.escalates, p.immediate, c.sent[|old(c.sent)|..])
      ensures outcome == Closed ==> status == Stopped && positionSize == 0.0 && ReadFlat(c, from, p.dust)
      ensures outcome == Closed && clean ==> Flat(c.position, p.dust)
      ensures outcome == CloseFailed ==> status == Paused && !Flat(positionSize, p.dust) && LastRead(c, from, positionSize)
      ensures outcome == CloseFailed ==> Exhausted(p.escalates, c.sent[|old(c.sent)|..])
      ensures outcome == Threw ==> status == Paused && positionSize == old(positionSize) && c.failures > old(c.failures)
    {
      hide FlattenRun, Waited;
      var ok, size := c.GetPosition(from);
      if !ok {
        return Threw;
      }
      if Flat(size, p.dust) {
        status, positionSize := Stopped, 0.0;
        return Closed;
      }
      var flattened, lastId;
      ok, flattened, lastId, size := Flatten(c, from, clean, p, size);
      outcome := Finish(c, from, clean, p.dust, ok, flattened, lastId, size);
    }

    /** Books how the flattening ended. */
    method Finish(
      c: Client, ghost from: nat, ghost clean: bool, ghost dust: real, ok: bool, flattened: bool, lastId: Option<nat>, size: real)
      returns (outcome: Outcome)
      requires Ready(c, from, clean) && (flattened ==> FlatNow(c, from, dust)) && status == Paused
      requires ok && !flattened ==> !Flat(size, dust) && LastRead(c, from, size)
      modifies this`status, this`positionSize, c`position, c`live, c`path, c`turn
      ensures var r := EndedBy(Stage(old(c.Now()), ok, flattened, lastId, size), c.Ways()); c.Now() == r.a && outcome == r.outcome
      ensures Ready(c, from, clean) && old(c.path) <= c.path
      ensures outcome == Closed ==> status == Stopped && positionSize == 0.0 && ReadFlat(c, from, dust)
      ensures outcome == Closed && clean ==> Flat(c.position, dust)
      ensures outcome == CloseFailed ==> status == Paused && !Flat(positionSize, dust) && LastRead(c, from, positionSize)
      ensures outcome == Threw ==> status == Paused && positionSize == old(positionSize)
    {
      if !ok {
        return Threw;
      }
      if flattened {
        ghost var read := |c.path| - 1;
        if lastId.Some? {
          c.CancelOrder(from, lastId.value);
        }
        assert c.path[read] == old(c.position);
        if clean {
          LaterRead(c, from);
        }
        status, positionSize := Stopped, 0.0;
        return Closed;
      }
      status, positionSize := Paused, size;
      outcome := CloseFailed;
    }

    /** Pause, then flatten or fail closed, whatever was live and whatever the cancels do. From a clean
        start the position keeps its side and only shrinks from then on. */
    method CloseBot(c: Client, escalateImmediately: bool, late: bool, dust: real, polls: nat)
      returns (outcome: Outcome, ghost from: nat, ghost clean: bool)
      requires c.Consistent() && polls > 0 && dust >= 0.0
      modifies this, c
      ensures var r := ClosedAll(old(c.Now()), c.Ways(), old(registered), Plan(escalationEnabled, escalateImmediately, late, dust, polls));
        c.Now() == r.a && outcome == r.outcome
      ensures old(c.swept) <= c.swept && (old(registered) ==> |c.swept| > |old(c.swept)|)
      ensures from == Start(old(registered), old(c.live), old(c.path), |old(c.swept)|, c.swept)
      ensures clean == CleanStart(old(registered), old(c.live), |old(c.swept)|, c.swept)
      ensures Ready(c, from, clean) && old(c.path) <= c.path
      ensures old(c.sent) <= c.sent && AllClosing(clean, c.path[from], c.sent[|old(c.sent)|..])
      ensures WithinBudget(escalationEnabled, escalateImmediately, c.sent[|old(c.sent)|..])
      ensures c.reliable && (old(registered) || old(c.live) == []) ==>
        && Uncrowded(c.crowd, |old(c.crowd)|) && |c.live| <= 1
        && (outcome == CloseFailed && escalationEnabled ==> c.live == [])
      ensures outcome == Closed ==> status == Stopped && positionSize == 0.0 && ReadFlat(c, from, dust)
      ensures outcome == Closed && clean ==> Flat(c.position, dust)
      ensures outcome == CloseFailed ==> status == Paused && !Flat(positionSize, dust) && LastRead(c, from, positionSize)
      ensures outcome == CloseFailed ==> Exhausted(escalationEnabled, c.sent[|old(c.sent)|..])
      ensures outcome == Threw ==> status == Paused && positionSize == old(positionSize) && c.failures > old(c.failures)
    {
      WaitedFewer(c.Now(), c.Ways());
      from, clean := BeginClose(c);
      if c.reliable && c.live == [] {
        CloseAlone(c.Now(), c.Ways(), Plan(escalationEnabled, escalateImmediately, late, dust, polls));
      }
      outcome := CloseFrom(c, from, clean, Plan(escalationEnabled, escalateImmediately, late, dust, polls));
    }
  }

  /** What the limit phase may have sent after the first n orders. */
  ghost predicate LimitsOnly(escalates: bool, skipped: bool, n: nat, orders: seq<Sent>) {
    && n <= |orders|
    && |orders| - n <= (if skipped then 0 else if escalates then 1 else CLOSE_MAX_REPRICE_RETRIES + 1)
    && forall k | n <= k < |orders| :: !orders[k].market
  }

  /** Only closing limit orders were added. */
  ghost predicate LimitOrders(clean: bool, start: real, was: seq<Sent>, now: seq<Sent>) {
    && was <= now && AllClosing(clean, start, now[|was|..])
    && forall k | |was| <= k < |now| :: !now[k].market
  }

  lemma OneMoreLimit(clean: bool, start: real, was: seq<Sent>, before: seq<Sent>, after: seq<Sent>)
    requires LimitOrders(clean, start, was, before) && Extends(clean, start, false, before, after)
    ensures LimitOrders(clean, start, was, after) && |before| <= |after| <= |before| + 1
  {
    MoreSent(clean, start, false, |was|, before, after);
  }

  lemma LimitsFit(escalates: bool, immediate: bool, n: nat, orders: seq<Sent>)
    requires LimitsOnly(escalates, escalates && immediate, n, orders)
    ensures WithinBudget(escalates, immediate, orders[n..])
  {
  }

  lemma EscalationFits(immediate: bool, n: nat, before: seq<Sent>, after: seq<Sent>)
    requires LimitsOnly(true, immediate, n, before)
    requires before <= after && |after| <= |before| + 1
    requires forall k | |before| <= k < |after| :: after[k].market
    ensures WithinBudget(true, immediate, after[n..])
  {
    assert forall k | n <= k < |before| :: after[k] == before[k];
  }

  lemma MoreSent(clean: bool, start: real, market: bool, n: nat, before: seq<Sent>, after: seq<Sent>)
    requires n <= |before| && AllClosing(clean, start, before[n..]) && Extends(clean, start, market, before, after)
    ensures n <= |after| && AllClosing(clean, start, after[n..]) && before <= after
    ensures |after| <= |before| + 1
    ensures forall k | n <= k < |after| :: if k < |before| then after[k] == before[k] else after[k].market == market
  {
    forall k | 0 <= k < |after[n..]| ensures after[n..][k].reduceOnly && (clean ==> Closing(start, after[n..][k])) {
      if n + k < |before| {
        assert after[n + k] == before[n..][k];
      }
    }
  }

  /** At most one more order was sent: reduce-only, and closing when the start was clean. */
  ghost predicate Extends(clean: bool, start: real, market: bool, before: seq<Sent>, after: seq<Sent>) {
    || after == before
    || (&& |after| == |before| + 1 && before <= after
        && after[|before|].market == market && after[|before|].reduceOnly
        && (clean ==> Closing(start, after[|before|])))
  }
}
