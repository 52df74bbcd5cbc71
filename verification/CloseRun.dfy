/**
 The verified close as a function of what the exchange decides: the account that each step leaves,
 and how the step ends. The methods of `CloseBot` carry these steps out.
 */
module CloseRun {
  import opened GridLevels
  import opened Numbers
  import opened Exchange
  import opened Options

  const CLOSE_MAX_REPRICE_RETRIES: nat := 3
  const CLOSE_PRICE_AGGRESSION_PCT := 0.005
  const CLOSE_PRICE_AGGRESSION_STEP_PCT := 0.005
  const CLOSE_ORDER_ID_PRICE_MATCH_TOL := 1.0

  /** How the call ended: normally, with the close-failed error, or with some other error. */
  datatype Outcome = Closed | CloseFailed | Threw

  /** What a close is called with: close_escalation of the row, the gap fast path, whether the limit
      phase is out of time before its first attempt, the dust size, and the polls of an attempt. */
  datatype Plan = Plan(escalates: bool, immediate: bool, late: bool, dust: real, polls: nat)

  /** Sizes and prices are floored to two decimals. */
  function Floor2(x: real): (r: real)
    ensures r <= x < r + 0.01
    ensures x >= 0.0 ==> r >= 0.0
  {
    ((x * 100.0).Floor as real) / 100.0
  }

  predicate Flat(size: real, dust: real): (r: bool)
    ensures r <==> -dust <= size <= dust
  {
    Abs(size) <= dust
  }

  function CloseSide(size: real): Side {
    if size > 0.0 then Sell else Buy
  }

  function Aggression(attempt: nat): real {
    CLOSE_PRICE_AGGRESSION_PCT + (attempt as real) * CLOSE_PRICE_AGGRESSION_STEP_PCT
  }

  function AggressivePrice(side: Side, price: real, attempt: nat): real {
    if side == Sell then Floor2(Times(price, 1.0 - Aggression(attempt)))
    else Floor2(Times(price, 1.0 + Aggression(attempt)))
  }

  /** The account after a step; whether the step went through, whether the position was seen flat, the
      id the next step can cancel by, and the size last read. */
  datatype Stage = Stage(a: Account, ok: bool, flattened: bool, id: Option<nat>, size: real)

  function Polled(a: Account, w: Behaviour, polls: nat, dust: real, last: real): Stage
    decreases polls
  {
    if polls == 0 then Stage(a, true, false, None, last)
    else
      var b := Waited(a, w);
      if !Answer(a, w).ok then Stage(b, false, false, None, last)
      else if Flat(b.position, dust) then Stage(b, true, true, None, b.position)
      else Polled(b, w, polls - 1, dust, b.position)
  }

  function IdAt(orders: seq<Order>, price: real): Option<nat> {
    if orders == [] then None
    else if Abs(orders[0].price - price) < CLOSE_ORDER_ID_PRICE_MATCH_TOL then Some(orders[0].id)
    else IdAt(orders[1..], price)
  }

  /** The id is that of the first order less than 1 away from the price, and there is none without one. */
  lemma {:induction false} IdAtExactlyWhen(orders: seq<Order>, price: real)
    ensures var id := IdAt(orders, price);
      if id.Some? then
        exists k :: 0 <= k < |orders| && orders[k].id == id.value && -1.0 < orders[k].price - price < 1.0
          && forall j | 0 <= j < k :: orders[j].price <= price - 1.0 || price + 1.0 <= orders[j].price
      else forall j | 0 <= j < |orders| :: orders[j].price <= price - 1.0 || price + 1.0 <= orders[j].price
  {
    if orders != [] && !(Abs(orders[0].price - price) < CLOSE_ORDER_ID_PRICE_MATCH_TOL) {
      var rest := orders[1..];
      IdAtExactlyWhen(rest, price);
      assert forall j | 0 < j < |orders| :: orders[j] == rest[j-1];
      if IdAt(rest, price).Some? {
        var k :| 0 <= k < |rest| && rest[k].id == IdAt(rest, price).value && -1.0 < rest[k].price - price < 1.0
          && forall j | 0 <= j < k :: rest[j].price <= price - 1.0 || price + 1.0 <= rest[j].price;
        assert orders[k+1] == rest[k];
      }
    } else if orders != [] {
      assert orders[0].id == IdAt(orders, price).value;
    }
  }

  datatype Resolution = Resolution(a: Account, id: Option<nat>)

  /** A zero id is looked up among the open orders by its price. */
  function Resolved(a: Account, w: Behaviour, created: CreatedId, price: real): Resolution {
    match created
    case RealId(id) => Resolution(a, Some(id))
    case Undefined => Resolution(a, None)
    case ZeroId =>
      var b := Waited(a, w);
      Resolution(b, if Answer(a, w).ok then IdAt(Shown(b, Answer(a, w).shown), price) else None)
  }

  /** One limit order against a position read as `read`, and its polls. */
  function LimitSent(a: Account, w: Behaviour, p: Plan, attempt: nat, read: real): Stage {
    var b := Waited(a, w);
    if !Answer(a, w).ok then Stage(b, false, false, None, read)
    else
      var price := AggressivePrice(CloseSide(read), Answer(a, w).price, attempt);
      var c := Created(b, w, false, CloseSide(read), Floor2(Abs(read)), price, true);
      if !Answer(b, w).ok then Stage(c, false, false, None, read)
      else
        var r := Resolved(c, w, CreatedAs(b, w), price);
        Polled(r.a, w, p.polls, p.dust, read).(id := r.id)
  }

  /** Cancel before replace: by id when it is known, otherwise everything if anything was sent. */
  function PreviousCancelled(a: Account, w: Behaviour, previous: Option<nat>, any: bool): Account {
    if previous.Some? then OrderCancelled(a, w, previous.value) else if any then AllCancelled(a, w) else a
  }

  function Attempted(a: Account, w: Behaviour, p: Plan, attempt: nat, previous: Option<nat>): Stage {
    var b := Waited(a, w);
    if !Answer(a, w).ok then Stage(b, false, false, previous, b.position)
    else if Flat(b.position, p.dust) then Stage(b, true, true, previous, b.position)
    else LimitSent(PreviousCancelled(b, w, previous, attempt > 0), w, p, attempt, b.position)
  }

  /** One market order; a failed send ends the escalation unflattened. */
  function MarketSent(a: Account, w: Behaviour, p: Plan, read: real): Stage {
    var b := Waited(a, w);
    if !Answer(a, w).ok then Stage(b, false, false, None, read)
    else
      var c := Created(b, w, true, CloseSide(read), Floor2(Abs(read)), Answer(a, w).price, true);
      if Answer(b, w).ok then Polled(c, w, p.polls, p.dust, read) else Stage(c, true, false, None, read)
  }

  function Escalated(a: Account, w: Behaviour, p: Plan, previous: Option<nat>, skippedLimit: bool): Stage {
    var b := PreviousCancelled(a, w, previous, !skippedLimit);
    var c := Waited(b, w);
    if !Answer(b, w).ok then Stage(c, false, false, None, c.position)
    else if Flat(c.position, p.dust) then Stage(c, true, true, None, c.position)
    else MarketSent(c, w, p, c.position)
  }

  datatype Limits = Limits(stage: Stage, escalate: bool)

  predicate Attempts(p: Plan, attempt: nat) {
    attempt <= CLOSE_MAX_REPRICE_RETRIES && !(p.escalates && (attempt >= 1 || p.late))
  }

  function AttemptsLeft(p: Plan, attempt: nat): nat {
    if Attempts(p, attempt) then CLOSE_MAX_REPRICE_RETRIES + 1 - attempt else 0
  }

  /** The limit attempts from the given one on. */
  function LimitRun(a: Account, w: Behaviour, p: Plan, attempt: nat, previous: Option<nat>, size: real): Limits
    decreases AttemptsLeft(p, attempt)
  {
    if attempt > CLOSE_MAX_REPRICE_RETRIES then Limits(Stage(a, true, false, previous, size), false)
    else if p.escalates && (attempt >= 1 || p.late) then Limits(Stage(a, true, false, previous, size), true)
    else
      var s := Attempted(a, w, p, attempt, previous);
      if !s.ok || s.flattened then Limits(s, false) else LimitRun(s.a, w, p, attempt + 1, s.id, s.size)
  }

  predicate SkipsLimit(p: Plan) {
    p.escalates && p.immediate
  }

  function LimitPart(a: Account, w: Behaviour, p: Plan, size: real): Limits {
    if SkipsLimit(p) then Limits(Stage(a, true, false, None, size), true) else LimitRun(a, w, p, 0, None, size)
  }

  function AfterLimits(l: Limits, w: Behaviour, p: Plan): Stage {
    if !l.stage.ok || l.stage.flattened || !l.escalate then l.stage
    else Escalated(l.stage.a, w, p, l.stage.id, SkipsLimit(p)).(id := None)
  }

  function FlattenRun(a: Account, w: Behaviour, p: Plan, read: real): Stage {
    AfterLimits(LimitPart(a, w, p, read), w, p)
  }

  datatype Ended = Ended(a: Account, outcome: Outcome, size: real, id: Option<nat>)

  function EndedBy(s: Stage, w: Behaviour): Ended {
    if !s.ok then Ended(s.a, Threw, s.size, s.id)
    else if s.flattened then Ended(PreviousCancelled(s.a, w, s.id, false), Closed, 0.0, s.id)
    else Ended(s.a, CloseFailed, s.size, s.id)
  }

  /** The close after the pause. */
  function ClosedFrom(a: Account, w: Behaviour, p: Plan): Ended {
    var b := Waited(a, w);
    if !Answer(a, w).ok then Ended(b, Threw, b.position, None)
    else if Flat(b.position, p.dust) then Ended(b, Closed, 0.0, None)
    else EndedBy(FlattenRun(b, w, p, b.position), w)
  }

  /** A pause cancels only what an instance it still holds has live. */
  function PausedAt(a: Account, w: Behaviour, registered: bool): Account {
    if registered then AllCancelled(a, w) else a
  }

  function ClosedAll(a: Account, w: Behaviour, registered: bool, p: Plan): Ended {
    ClosedFrom(PausedAt(a, w, registered), w, p)
  }

  // ----- orders that are live together

  /** No create since the n-th left two orders live. */
  ghost predicate Uncrowded(crowd: seq<nat>, n: nat) {
    forall k | n <= k < |crowd| :: crowd[k] <= 1
  }

  /** At most one order is live, and a known id is its id. */
  ghost predicate KnownLive(live: seq<Order>, id: Option<nat>) {
    |live| <= 1 && (id.Some? ==> LiveIds(live) <= {id.value})
  }

  lemma EmptyIds(live: seq<Order>)
    ensures LiveIds(live) == {} ==> live == []
  {
    if live != [] {
      assert live[0].id in LiveIds(live);
    }
  }

  /** At most one create was added to the record, and it left at most one order live. */
  ghost predicate OneMore(before: seq<nat>, after: seq<nat>) {
    after == before || (|after| == |before| + 1 && before <= after && after[|before|] <= 1)
  }

  ghost predicate Alone(before: seq<nat>, after: seq<nat>) {
    before <= after && Uncrowded(after, |before|)
  }

  lemma AloneOn(a: seq<nat>, b: seq<nat>, c: seq<nat>)
    requires Alone(a, b) && Alone(b, c)
    ensures Alone(a, c)
  {
  }

  lemma {:induction false} PolledFewer(a: Account, w: Behaviour, polls: nat, dust: real, last: real)
    ensures Fewer(a, Polled(a, w, polls, dust, last).a)
    decreases polls
  {
    if polls > 0 {
      WaitedFewer(a, w);
      var b := Waited(a, w);
      if Answer(a, w).ok && !Flat(b.position, dust) {
        PolledFewer(b, w, polls - 1, dust, b.position);
      }
    }
  }

  lemma {:induction false} IdAtIsLive(orders: seq<Order>, price: real)
    ensures var id := IdAt(orders, price); id.Some? ==> id.value in LiveIds(orders)
  {
    if orders != [] {
      IdAtIsLive(orders[1..], price);
      assert orders[0].id in LiveIds(orders);
      forall x | x in LiveIds(orders[1..]) ensures x in LiveIds(orders) {
        var k :| 0 <= k < |orders[1..]| && orders[1..][k].id == x;
        assert orders[k + 1].id == x;
      }
    }
  }

  lemma OnlyOneId(live: seq<Order>, orders: seq<Order>, id: nat)
    requires orders <= live && id in LiveIds(orders)
    ensures |live| <= 1 ==> LiveIds(live) <= {id}
  {
    var k :| 0 <= k < |orders| && orders[k].id == id;
    assert live[k].id == id;
  }

  /** With at most one order live an id that is found is its id. */
  lemma ResolvedKnown(a: Account, w: Behaviour, created: CreatedId, price: real)
    requires |a.live| <= 1 && (created.RealId? ==> LiveIds(a.live) <= {created.id})
    ensures var r := Resolved(a, w, created, price); Fewer(a, r.a) && KnownLive(r.a.live, r.id)
  {
    if created.ZeroId? {
      WaitedFewer(a, w);
      var b := Waited(a, w);
      var orders := Shown(b, Answer(a, w).shown);
      var id := IdAt(orders, price);
      IdAtIsLive(orders, price);
      if id.Some? {
        OnlyOneId(b.live, orders, id.value);
      }
    }
  }

  lemma FewerKnown(a: Account, b: Account, id: Option<nat>)
    requires Fewer(a, b) && KnownLive(a.live, id)
    ensures KnownLive(b.live, id)
  {
  }

  /** An order created beside nothing is the only one. */
  lemma CreatedAlone(
    a: Account, w: Behaviour, market: bool, side: Side, size: real, price: real)
    requires a.live == []
    ensures var c := Created(a, w, market, side, size, price, true);
      && |c.live| <= 1 && (market ==> c.live == [])
      && (CreatedAs(a, w).RealId? ==> LiveIds(c.live) <= {CreatedAs(a, w).id})
      && |c.crowd| == |a.crowd| + 1 && a.crowd <= c.crowd && c.crowd[|a.crowd|] == |c.live|
  {
    WaitedFewer(a, w);
    assert Waited(a, w).live == [];
  }

  lemma LimitSentAlone(a: Account, w: Behaviour, p: Plan, attempt: nat, read: real)
    requires a.live == []
    ensures var s := LimitSent(a, w, p, attempt, read);
      OneMore(a.crowd, s.a.crowd) && |s.a.live| <= 1 && (s.ok ==> KnownLive(s.a.live, s.id))
  {
    WaitedFewer(a, w);
    var b := Waited(a, w);
    if Answer(a, w).ok {
      var price := AggressivePrice(CloseSide(read), Answer(a, w).price, attempt);
      CreatedAlone(b, w, false, CloseSide(read), Floor2(Abs(read)), price);
      var c := Created(b, w, false, CloseSide(read), Floor2(Abs(read)), price, true);
      if Answer(b, w).ok {
        ResolvedKnown(c, w, CreatedAs(b, w), price);
        var r := Resolved(c, w, CreatedAs(b, w), price);
        PolledFewer(r.a, w, p.polls, p.dust, read);
        FewerKnown(r.a, Polled(r.a, w, p.polls, p.dust, read).a, r.id);
      }
    }
  }

  /** With cancels that work, cancel before replace leaves nothing live. */
  lemma NothingLeft(a: Account, w: Behaviour, previous: Option<nat>, any: bool)
    requires w.reliable && KnownLive(a.live, previous) && (!any && previous.None? ==> a.live == [])
    ensures var b := PreviousCancelled(a, w, previous, any); b.live == [] && b.crowd == a.crowd
  {
    WaitedFewer(a, w);
    if previous.Some? {
      EmptyIds(Without(Waited(a, w).live, previous.value));
    }
  }

  /** One limit attempt: the order it sends, if it sends one, is live alone. */
  lemma AttemptedAlone(a: Account, w: Behaviour, p: Plan, attempt: nat, previous: Option<nat>)
    requires w.reliable && KnownLive(a.live, previous) && (attempt == 0 ==> a.live == [])
    ensures var s := Attempted(a, w, p, attempt, previous);
      OneMore(a.crowd, s.a.crowd) && |s.a.live| <= 1 && (s.ok ==> KnownLive(s.a.live, s.id))
  {
    WaitedFewer(a, w);
    var b := Waited(a, w);
    FewerKnown(a, b, previous);
    if Answer(a, w).ok && !Flat(b.position, p.dust) {
      NothingLeft(b, w, previous, attempt > 0);
      LimitSentAlone(PreviousCancelled(b, w, previous, attempt > 0), w, p, attempt, b.position);
    }
  }

  lemma MarketSentAlone(a: Account, w: Behaviour, p: Plan, read: real)
    requires a.live == []
    ensures var s := MarketSent(a, w, p, read); OneMore(a.crowd, s.a.crowd) && s.a.live == []
  {
    WaitedFewer(a, w);
    var b := Waited(a, w);
    if Answer(a, w).ok {
      CreatedAlone(b, w, true, CloseSide(read), Floor2(Abs(read)), Answer(a, w).price);
      var c := Created(b, w, true, CloseSide(read), Floor2(Abs(read)), Answer(a, w).price, true);
      PolledFewer(c, w, p.polls, p.dust, read);
    }
  }

  /** The escalation leaves nothing live. */
  lemma EscalatedAlone(a: Account, w: Behaviour, p: Plan, previous: Option<nat>, skippedLimit: bool)
    requires w.reliable && KnownLive(a.live, previous) && (skippedLimit ==> a.live == [])
    ensures var s := Escalated(a, w, p, previous, skippedLimit); OneMore(a.crowd, s.a.crowd) && s.a.live == []
  {
    NothingLeft(a, w, previous, !skippedLimit);
    var b := PreviousCancelled(a, w, previous, !skippedLimit);
    WaitedFewer(b, w);
    var c := Waited(b, w);
    if Answer(b, w).ok && !Flat(c.position, p.dust) {
      MarketSentAlone(c, w, p, c.position);
    }
  }

  /** What the limit phase keeps: no crowd, and at most one order, whose id is known or unknown. */
  ghost predicate LimitsAlone(before: seq<nat>, l: Limits) {
    && Alone(before, l.stage.a.crowd) && |l.stage.a.live| <= 1
    && (l.stage.ok ==> KnownLive(l.stage.a.live, l.stage.id))
  }

  lemma OneMoreAlone(a: seq<nat>, b: seq<nat>, l: Limits)
    requires OneMore(a, b) && LimitsAlone(b, l)
    ensures LimitsAlone(a, l)
  {
    AloneOn(a, b, l.stage.a.crowd);
  }

  lemma LimitRunGoesOn(a: Account, w: Behaviour, p: Plan, attempt: nat, previous: Option<nat>, size: real)
    ensures var l := LimitRun(a, w, p, attempt, previous, size);
      if Attempts(p, attempt) then
        var s := Attempted(a, w, p, attempt, previous);
        l == if !s.ok || s.flattened then Limits(s, false) else LimitRun(s.a, w, p, attempt + 1, s.id, s.size)
      else l.stage == Stage(a, true, false, previous, size)
  {
  }

  lemma {:induction false} LimitRunAlone(a: Account, w: Behaviour, p: Plan, attempt: nat, previous: Option<nat>, size: real)
    requires w.reliable && KnownLive(a.live, previous) && (attempt == 0 ==> a.live == [])
    ensures LimitsAlone(a.crowd, LimitRun(a, w, p, attempt, previous, size))
    decreases CLOSE_MAX_REPRICE_RETRIES + 1 - attempt
  {
    LimitRunGoesOn(a, w, p, attempt, previous, size);
    if Attempts(p, attempt) {
      AttemptedAlone(a, w, p, attempt, previous);
      var s := Attempted(a, w, p, attempt, previous);
      if s.ok && !s.flattened {
        LimitRunAlone(s.a, w, p, attempt + 1, s.id, s.size);
        OneMoreAlone(a.crowd, s.a.crowd, LimitRun(s.a, w, p, attempt + 1, s.id, s.size));
      }
    }
  }

  /** With escalation a limit phase that fails asks for it. */
  lemma AsksForMarket(a: Account, w: Behaviour, p: Plan, attempt: nat, previous: Option<nat>, size: real)
    requires p.escalates && attempt <= 1
    ensures var l := LimitRun(a, w, p, attempt, previous, size); l.stage.ok && !l.stage.flattened ==> l.escalate
    decreases 1 - attempt
  {
    if attempt == 0 {
      var s := Attempted(a, w, p, 0, previous);
      AsksForMarket(s.a, w, p, 1, s.id, s.size);
    }
  }

  lemma AfterLimitsAlone(before: seq<nat>, l: Limits, w: Behaviour, p: Plan)
    requires w.reliable && LimitsAlone(before, l) && (l.escalate && SkipsLimit(p) ==> l.stage.a.live == [])
    ensures LimitsAlone(before, Limits(AfterLimits(l, w, p), l.escalate))
    ensures var s := AfterLimits(l, w, p); l.stage.ok && !l.stage.flattened && l.escalate ==> s.a.live == []
  {
    if l.stage.ok && !l.stage.flattened && l.escalate {
      EscalatedAlone(l.stage.a, w, p, l.stage.id, SkipsLimit(p));
      OneMoreAfter(before, l.stage.a.crowd, Escalated(l.stage.a, w, p, l.stage.id, SkipsLimit(p)).a.crowd);
    }
  }

  lemma OneMoreAfter(a: seq<nat>, b: seq<nat>, c: seq<nat>)
    requires Alone(a, b) && OneMore(b, c)
    ensures Alone(a, c)
  {
  }

  /** What the flattening may leave live: with escalation an order stays only when the position was flat
      or a call failed before the market order. */
  lemma FlattenAlone(a: Account, w: Behaviour, p: Plan, read: real)
    requires w.reliable && a.live == []
    ensures var s := FlattenRun(a, w, p, read);
      && Alone(a.crowd, s.a.crowd) && |s.a.live| <= 1
      && (s.ok ==> KnownLive(s.a.live, s.id))
      && (p.escalates && s.ok && !s.flattened ==> s.a.live == [])
      && (SkipsLimit(p) || (p.escalates && p.late) ==> s.a.live == [])
  {
    var l := LimitPart(a, w, p, read);
    if !SkipsLimit(p) {
      LimitRunAlone(a, w, p, 0, None, read);
      if p.escalates {
        AsksForMarket(a, w, p, 0, None, read);
      }
    }
    AfterLimitsAlone(a.crowd, l, w, p);
  }

  /** With cancels that work and nothing live at the start, no two close orders are ever live together,
      at most one is left, and a close that escalated and failed leaves none. */
  lemma CloseAlone(a: Account, w: Behaviour, p: Plan)
    requires w.reliable && a.live == []
    ensures var r := ClosedFrom(a, w, p);
      && Alone(a.crowd, r.a.crowd) && |r.a.live| <= 1
      && (r.outcome == Closed && r.id.Some? ==> r.a.live == [])
      && (r.outcome == CloseFailed && p.escalates ==> r.a.live == [])
      && (SkipsLimit(p) || (p.escalates && p.late) ==> r.a.live == [])
  {
    WaitedFewer(a, w);
    var b := Waited(a, w);
    if Answer(a, w).ok && !Flat(b.position, p.dust) {
      FlattenAlone(b, w, p, b.position);
      var s := FlattenRun(b, w, p, b.position);
      if s.ok && s.flattened {
        if s.id.Some? {
          NothingLeft(s.a, w, s.id, false);
        }
      }
    }
  }
}
