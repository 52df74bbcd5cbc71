/**
 Closing a bot again after a close that failed. The instance is gone by then, so the pause cancels
 nothing, and the first attempt cancels nothing either: it knows of no earlier order.
 */
module CloseRetry {
  import opened GridLevels
  import opened Numbers
  import opened Exchange
  import opened CloseRun
  import opened Options

  // ----- the first order of a close

  /** The limit phase is over before its first attempt; then everything is cancelled first. */
  predicate StartsLate(p: Plan) {
    p.escalates && p.late && !p.immediate
  }

  /** How many calls a close makes before it sends its first order. */
  function CallsBefore(p: Plan): nat {
    if StartsLate(p) then 3 else 2
  }

  /** The account when the first order is due: both reads have answered, and neither was flat. */
  function AtSend(a: Account, w: Behaviour, p: Plan): Option<Account> {
    var b := Waited(a, w);
    if !Answer(a, w).ok || Flat(b.position, p.dust) then None
    else
      var c := if StartsLate(p) then AllCancelled(b, w) else b;
      var d := Waited(c, w);
      if !Answer(c, w).ok || Flat(d.position, p.dust) then None else Some(d)
  }

  /** So many live orders when the first order is due that some continuation has two live together: a
      limit order rests beside one, and a market order, which does not rest, is sent beside two. */
  predicate TooMany(p: Plan, live: nat) {
    if SkipsLimit(p) then live >= 2 else !StartsLate(p) && live >= 1
  }

  ghost predicate Grown(a: seq<nat>, b: seq<nat>) {
    a <= b
  }

  lemma CancelledKeeps(a: Account, w: Behaviour, previous: Option<nat>, any: bool)
    ensures PreviousCancelled(a, w, previous, any).crowd == a.crowd
  {
    WaitedFewer(a, w);
  }

  /** What a first order finds live, and what the record of creates then says. */
  lemma CreatedBeside(a: Account, w: Behaviour, market: bool, side: Side, size: real, price: real)
    ensures var c := Created(a, w, market, side, size, price, true);
      && c.crowd == a.crowd + [|c.live|]
      && |c.live| <= |a.live| + if market then 0 else 1
  {
    WaitedFewer(a, w);
  }

  lemma LimitSentGrows(a: Account, w: Behaviour, p: Plan, attempt: nat, read: real)
    ensures Grown(a.crowd, LimitSent(a, w, p, attempt, read).a.crowd)
  {
    WaitedFewer(a, w);
    var b := Waited(a, w);
    if Answer(a, w).ok {
      var price := AggressivePrice(CloseSide(read), Answer(a, w).price, attempt);
      CreatedBeside(b, w, false, CloseSide(read), Floor2(Abs(read)), price);
      var c := Created(b, w, false, CloseSide(read), Floor2(Abs(read)), price, true);
      WaitedFewer(c, w);
      var r := Resolved(c, w, CreatedAs(b, w), price);
      PolledFewer(r.a, w, p.polls, p.dust, read);
    }
  }

  /** A market order adds at most one entry to the record: the orders that were live anyway. */
  lemma MarketSentFew(a: Account, w: Behaviour, p: Plan, read: real)
    ensures var s := MarketSent(a, w, p, read);
      s.a.crowd == a.crowd || (exists k: nat :: k <= |a.live| && s.a.crowd == a.crowd + [k])
  {
    WaitedFewer(a, w);
    var b := Waited(a, w);
    if Answer(a, w).ok {
      CreatedBeside(b, w, true, CloseSide(read), Floor2(Abs(read)), Answer(a, w).price);
      var c := Created(b, w, true, CloseSide(read), Floor2(Abs(read)), Answer(a, w).price, true);
      PolledFewer(c, w, p.polls, p.dust, read);
    }
  }

  lemma AttemptedGrows(a: Account, w: Behaviour, p: Plan, attempt: nat, previous: Option<nat>)
    ensures Grown(a.crowd, Attempted(a, w, p, attempt, previous).a.crowd)
  {
    WaitedFewer(a, w);
    var b := Waited(a, w);
    CancelledKeeps(b, w, previous, attempt > 0);
    LimitSentGrows(PreviousCancelled(b, w, previous, attempt > 0), w, p, attempt, b.position);
  }

  lemma EscalatedGrows(a: Account, w: Behaviour, p: Plan, previous: Option<nat>, skippedLimit: bool)
    ensures Grown(a.crowd, Escalated(a, w, p, previous, skippedLimit).a.crowd)
  {
    CancelledKeeps(a, w, previous, !skippedLimit);
    var b := PreviousCancelled(a, w, previous, !skippedLimit);
    WaitedFewer(b, w);
    MarketSentFew(Waited(b, w), w, p, Waited(b, w).position);
  }

  lemma {:induction false} LimitRunGrows(a: Account, w: Behaviour, p: Plan, attempt: nat, previous: Option<nat>, size: real)
    ensures Grown(a.crowd, LimitRun(a, w, p, attempt, previous, size).stage.a.crowd)
    decreases CLOSE_MAX_REPRICE_RETRIES + 1 - attempt
  {
    LimitRunGoesOn(a, w, p, attempt, previous, size);
    if Attempts(p, attempt) {
      AttemptedGrows(a, w, p, attempt, previous);
      var s := Attempted(a, w, p, attempt, previous);
      if s.ok && !s.flattened {
        LimitRunGrows(s.a, w, p, attempt + 1, s.id, s.size);
      }
    }
  }

  lemma EndedKeeps(s: Stage, w: Behaviour)
    ensures EndedBy(s, w).a.crowd == s.a.crowd
  {
    CancelledKeeps(s.a, w, s.id, false);
  }

  /** Nothing is sent before the first order is due. */
  lemma BeforeSend(a: Account, w: Behaviour, p: Plan)
    ensures AtSend(a, w, p).Some? ==>
      var d := AtSend(a, w, p).value;
      d.crowd == a.crowd && d.turn == a.turn + CallsBefore(p) && |d.live| <= |a.live|
      && (StartsLate(p) && w.reliable ==> d.live == [])
  {
    WaitedFewer(a, w);
    var b := Waited(a, w);
    WaitedFewer(b, w);
    var c := if StartsLate(p) then AllCancelled(b, w) else b;
    WaitedFewer(c, w);
  }

  /** A close whose first order is a market order, because the limit phase is skipped or over. */
  lemma MarketFirst(a: Account, w: Behaviour, p: Plan)
    requires SkipsLimit(p) || StartsLate(p)
    ensures var r := ClosedFrom(a, w, p);
      match AtSend(a, w, p)
      case None => r.a.crowd == a.crowd
      case Some(d) => r.a.crowd == MarketSent(d, w, p, d.position).a.crowd
  {
    WaitedFewer(a, w);
    var b := Waited(a, w);
    if Answer(a, w).ok && !Flat(b.position, p.dust) {
      var l := LimitPart(b, w, p, b.position);
      assert l == Limits(Stage(b, true, false, None, b.position), true);
      var c := PreviousCancelled(b, w, None, !SkipsLimit(p));
      CancelledKeeps(b, w, None, !SkipsLimit(p));
      WaitedFewer(c, w);
      var s := Escalated(b, w, p, None, SkipsLimit(p));
      EndedKeeps(s.(id := None), w);
    }
  }

  /** The close after its first limit attempt. */
  function AfterFirst(s: Stage, w: Behaviour, p: Plan): Stage {
    AfterLimits(if !s.ok || s.flattened then Limits(s, false) else LimitRun(s.a, w, p, 1, s.id, s.size), w, p)
  }

  lemma AfterFirstGrows(s: Stage, w: Behaviour, p: Plan)
    ensures Grown(s.a.crowd, AfterFirst(s, w, p).a.crowd)
  {
    var l := if !s.ok || s.flattened then Limits(s, false) else LimitRun(s.a, w, p, 1, s.id, s.size);
    if s.ok && !s.flattened {
      LimitRunGrows(s.a, w, p, 1, s.id, s.size);
    }
    EscalatedGrows(l.stage.a, w, p, l.stage.id, SkipsLimit(p));
  }

  lemma AfterFirstAlone(s: Stage, w: Behaviour, p: Plan)
    requires w.reliable && !SkipsLimit(p) && |s.a.live| <= 1 && (s.ok ==> KnownLive(s.a.live, s.id))
    ensures Alone(s.a.crowd, AfterFirst(s, w, p).a.crowd)
  {
    var l := if !s.ok || s.flattened then Limits(s, false) else LimitRun(s.a, w, p, 1, s.id, s.size);
    if s.ok && !s.flattened {
      LimitRunAlone(s.a, w, p, 1, s.id, s.size);
    }
    AfterLimitsAlone(s.a.crowd, l, w, p);
  }

  lemma FirstAttempt(b: Account, w: Behaviour, p: Plan, read: real)
    requires !SkipsLimit(p) && !StartsLate(p)
    ensures FlattenRun(b, w, p, read) == AfterFirst(Attempted(b, w, p, 0, None), w, p)
  {
    LimitRunGoesOn(b, w, p, 0, None, read);
  }

  /** A close whose first order is a limit order. */
  lemma LimitFirst(a: Account, w: Behaviour, p: Plan)
    requires !SkipsLimit(p) && !StartsLate(p)
    ensures var r := ClosedFrom(a, w, p);
      match AtSend(a, w, p)
      case None => r.a.crowd == a.crowd
      case Some(d) => r.a.crowd == AfterFirst(LimitSent(d, w, p, 0, d.position), w, p).a.crowd
  {
    WaitedFewer(a, w);
    var b := Waited(a, w);
    if Answer(a, w).ok && !Flat(b.position, p.dust) {
      WaitedFewer(b, w);
      FirstAttempt(b, w, p, b.position);
      EndedKeeps(FlattenRun(b, w, p, b.position), w);
    }
  }

  // ----- when two close orders can be live together

  /** Some create of the close left two orders live. */
  ghost predicate Crowds(a: Account, w: Behaviour, p: Plan) {
    !Uncrowded(ClosedFrom(a, w, p).a.crowd, |a.crowd|)
  }

  /** Without enough live orders no two are live together in what follows. */
  lemma FewStayFew(a: Account, w: Behaviour, p: Plan)
    requires w.reliable && Crowds(a, w, p)
    ensures AtSend(a, w, p).Some? && TooMany(p, |AtSend(a, w, p).value.live|)
  {
    BeforeSend(a, w, p);
    if SkipsLimit(p) || StartsLate(p) {
      MarketFirst(a, w, p);
    } else {
      LimitFirst(a, w, p);
    }
    if AtSend(a, w, p).Some? {
      var d := AtSend(a, w, p).value;
      if SkipsLimit(p) || StartsLate(p) {
        MarketSentFew(d, w, p, d.position);
      } else if d.live == [] {
        LimitSentAlone(d, w, p, 0, d.position);
        var s := LimitSent(d, w, p, 0, d.position);
        AfterFirstAlone(s, w, p);
        AloneOn(d.crowd, s.a.crowd, AfterFirst(s, w, p).a.crowd);
      }
    }
  }

  /** Nothing happens, every call answers, and orders are accepted. */
  const CALM: Turn := Turn([], true, true, 0, 1.0, SaysId, true, 0.0)

  /** The choices of w for the first n calls, then calm. */
  function CalmFrom(w: Behaviour, n: nat): Behaviour {
    Behaviour(w.reliable, (i: nat) => if i < n then w.will(i) else CALM)
  }

  ghost predicate SameUntil(w: Behaviour, v: Behaviour, n: nat) {
    w.reliable == v.reliable && forall i: nat | i < n :: w.will(i) == v.will(i)
  }

  lemma CalmWait(a: Account, w: Behaviour)
    requires Answer(a, w) == CALM
    ensures Waited(a, w) == a.(turn := a.turn + 1)
  {
  }

  lemma SameWait(a: Account, w: Behaviour, v: Behaviour, n: nat)
    requires SameUntil(w, v, n) && a.turn < n
    ensures Answer(a, w) == Answer(a, v) && Waited(a, w) == Waited(a, v)
  {
  }

  lemma SameSend(a: Account, w: Behaviour, v: Behaviour, p: Plan)
    requires SameUntil(w, v, a.turn + CallsBefore(p))
    ensures AtSend(a, w, p) == AtSend(a, v, p)
  {
    var n := a.turn + CallsBefore(p);
    SameWait(a, w, v, n);
    WaitedFewer(a, w);
    var b := Waited(a, w);
    SameWait(b, w, v, n);
    WaitedFewer(b, w);
    if StartsLate(p) {
      SameWait(AllCancelled(b, w), w, v, n);
    }
  }

  lemma CalmLimit(d: Account, w: Behaviour, p: Plan)
    requires Answer(d, w) == CALM && Answer(d.(turn := d.turn + 1), w) == CALM
    ensures d.crowd + [|d.live| + 1] <= LimitSent(d, w, p, 0, d.position).a.crowd
  {
    CalmWait(d, w);
    var b := Waited(d, w);
    CalmWait(b, w);
    var price := AggressivePrice(CloseSide(d.position), 1.0, 0);
    var c := Created(b, w, false, CloseSide(d.position), Floor2(Abs(d.position)), price, true);
    var r := Resolved(c, w, CreatedAs(b, w), price);
    PolledFewer(r.a, w, p.polls, p.dust, d.position);
  }

  lemma CalmMarket(d: Account, w: Behaviour, p: Plan)
    requires Answer(d, w) == CALM && Answer(d.(turn := d.turn + 1), w) == CALM
    ensures d.crowd + [|d.live|] <= MarketSent(d, w, p, d.position).a.crowd
  {
    CalmWait(d, w);
    var b := Waited(d, w);
    CalmWait(b, w);
    var c := Created(b, w, true, CloseSide(d.position), Floor2(Abs(d.position)), 1.0, true);
    PolledFewer(c, w, p.polls, p.dust, d.position);
  }

  lemma EntryStays(before: seq<nat>, k: nat, mid: seq<nat>, after: seq<nat>)
    requires before + [k] <= mid && mid <= after && k >= 2
    ensures !Uncrowded(after, |before|)
  {
    assert mid[|before|] == k && after[|before|] == k;
  }

  /** With enough of them a calm continuation has two live together. */
  lemma CalmCrowds(a: Account, w: Behaviour, p: Plan)
    requires AtSend(a, w, p).Some? && TooMany(p, |AtSend(a, w, p).value.live|)
    ensures Crowds(a, CalmFrom(w, a.turn + CallsBefore(p)), p)
  {
    var v := CalmFrom(w, a.turn + CallsBefore(p));
    SameSend(a, w, v, p);
    BeforeSend(a, v, p);
    var d := AtSend(a, v, p).value;
    if SkipsLimit(p) {
      MarketFirst(a, v, p);
      CalmMarket(d, v, p);
      EntryStays(a.crowd, |d.live|, MarketSent(d, v, p, d.position).a.crowd, ClosedFrom(a, v, p).a.crowd);
    } else {
      LimitFirst(a, v, p);
      CalmLimit(d, v, p);
      var s := LimitSent(d, v, p, 0, d.position);
      AfterFirstGrows(s, v, p);
      EntryStays(a.crowd, |d.live| + 1, s.a.crowd, ClosedFrom(a, v, p).a.crowd);
    }
  }

  /** Once the first reads have answered, some continuation with working cancels has two close orders
      live together exactly when neither read was flat and too many orders are still live; the limit
      phase must not have been over by then. */
  lemma CrowdsExactlyWhen(a: Account, w: Behaviour, p: Plan)
    requires w.reliable
    ensures (exists v: Behaviour :: SameUntil(v, w, a.turn + CallsBefore(p)) && Crowds(a, v, p))
      <==> AtSend(a, w, p).Some? && TooMany(p, |AtSend(a, w, p).value.live|)
  {
    var n := a.turn + CallsBefore(p);
    if AtSend(a, w, p).Some? && TooMany(p, |AtSend(a, w, p).value.live|) {
      CalmCrowds(a, w, p);
      assert SameUntil(CalmFrom(w, n), w, n);
    }
    if v: Behaviour :| SameUntil(v, w, n) && Crowds(a, v, p) {
      SameSend(a, v, w, p);
      FewStayFew(a, v, p);
    }
  }

  lemma FlatStaysFlat(before: real, after: real, dust: real)
    requires Shrunk(before, after) && Flat(before, dust)
    ensures Flat(after, dust)
  {
  }

  lemma ReadsShrink(a: Account, w: Behaviour, p: Plan)
    requires AllReduceOnly(a.live) && Flat(a.position, p.dust)
    ensures AtSend(a, w, p).None?
  {
    HappenedAllShrinks(a, Answer(a, w).happenings);
    FlatStaysFlat(a.position, Waited(a, w).position, p.dust);
  }

  ghost predicate AlwaysCalm(w: Behaviour) {
    w.reliable && forall i: nat :: w.will(i) == CALM
  }

  function Calm(): Behaviour {
    Behaviour(true, _ => CALM)
  }

  lemma CalmSend(a: Account, w: Behaviour, p: Plan)
    requires AlwaysCalm(w) && !Flat(a.position, p.dust) && !StartsLate(p)
    ensures AtSend(a, w, p) == Some(a.(turn := a.turn + 2))
  {
    CalmWait(a, w);
    CalmWait(a.(turn := a.turn + 1), w);
  }

  /** What a caller can check before closing: with working cancels no two close orders are ever live
      together exactly when the engine still holds the instance, or the position is flat, or too few
      orders are live. Without an instance only reduce-only orders, left by earlier closes, are
      considered here; `CrowdsExactlyWhen` covers the others. */
  lemma RetrySafeExactlyWhen(a: Account, registered: bool, p: Plan)
    requires registered || AllReduceOnly(a.live)
    ensures (forall w: Behaviour | w.reliable :: Uncrowded(ClosedAll(a, w, registered, p).a.crowd, |a.crowd|))
      <==> registered || Flat(a.position, p.dust) || !TooMany(p, |a.live|)
  {
    if registered {
      forall w: Behaviour | w.reliable ensures Uncrowded(ClosedAll(a, w, registered, p).a.crowd, |a.crowd|) {
        WaitedFewer(a, w);
        CloseAlone(AllCancelled(a, w), w, p);
      }
    } else if Flat(a.position, p.dust) || !TooMany(p, |a.live|) {
      forall w: Behaviour | w.reliable ensures !Crowds(a, w, p) {
        BeforeSend(a, w, p);
        if Crowds(a, w, p) {
          FewStayFew(a, w, p);
        }
        if Flat(a.position, p.dust) {
          ReadsShrink(a, w, p);
        }
      }
    } else {
      CalmSend(a, Calm(), p);
      CalmCrowds(a, Calm(), p);
    }
  }

  // ----- what a close leaves live

  lemma {:induction false} CalmPolls(a: Account, w: Behaviour, polls: nat, dust: real, last: real)
    requires AlwaysCalm(w) && !Flat(a.position, dust)
    ensures var s := Polled(a, w, polls, dust, last);
      s.ok && !s.flattened && s.a == a.(turn := a.turn + polls)
    decreases polls
  {
    if polls > 0 {
      CalmWait(a, w);
      CalmPolls(a.(turn := a.turn + 1), w, polls - 1, dust, a.position);
    }
  }

  /** Exactly one order, which closes, and its id is known. */
  predicate OneLeft(a: Account, id: Option<nat>) {
    |a.live| == 1 && a.live[0].reduceOnly && id == Some(a.live[0].id)
  }

  /** A step that never saw the position flat and left its order. */
  predicate StillOpen(position: real, s: Stage) {
    s.ok && !s.flattened && s.a.position == position && OneLeft(s.a, s.id)
  }

  lemma CalmSent(d: Account, w: Behaviour, p: Plan, attempt: nat)
    requires AlwaysCalm(w) && !Flat(d.position, p.dust) && d.live == []
    ensures StillOpen(d.position, LimitSent(d, w, p, attempt, d.position))
  {
    CalmWait(d, w);
    var b := d.(turn := d.turn + 1);
    CalmWait(b, w);
    var price := AggressivePrice(CloseSide(d.position), 1.0, attempt);
    var c := Created(b, w, false, CloseSide(d.position), Floor2(Abs(d.position)), price, true);
    CalmPolls(c, w, p.polls, p.dust, d.position);
  }

  /** Nothing is live before the first attempt, and one order before every other. */
  predicate AtAttempt(a: Account, attempt: nat, previous: Option<nat>) {
    if attempt == 0 then a.live == [] && previous.None? else OneLeft(a, previous)
  }

  lemma CalmAttempt(a: Account, w: Behaviour, p: Plan, attempt: nat, previous: Option<nat>)
    requires AlwaysCalm(w) && !Flat(a.position, p.dust) && AtAttempt(a, attempt, previous)
    ensures StillOpen(a.position, Attempted(a, w, p, attempt, previous))
  {
    CalmWait(a, w);
    var b := a.(turn := a.turn + 1);
    CalmWait(b, w);
    assert KnownLive(b.live, previous);
    NothingLeft(b, w, previous, attempt > 0);
    CalmSent(PreviousCancelled(b, w, previous, attempt > 0), w, p, attempt);
  }

  lemma {:induction false} CalmLimits(a: Account, w: Behaviour, p: Plan, attempt: nat, previous: Option<nat>, size: real)
    requires AlwaysCalm(w) && !p.escalates && !Flat(a.position, p.dust) && attempt <= CLOSE_MAX_REPRICE_RETRIES + 1
    requires AtAttempt(a, attempt, previous)
    ensures var l := LimitRun(a, w, p, attempt, previous, size); !l.escalate && StillOpen(a.position, l.stage)
    decreases CLOSE_MAX_REPRICE_RETRIES + 1 - attempt
  {
    LimitRunGoesOn(a, w, p, attempt, previous, size);
    if Attempts(p, attempt) {
      CalmAttempt(a, w, p, attempt, previous);
      var s := Attempted(a, w, p, attempt, previous);
      CalmLimits(s.a, w, p, attempt + 1, s.id, s.size);
    }
  }

  /** Without escalation a close that never sees the position flat fails and leaves its last order. */
  lemma CalmClose(a: Account, w: Behaviour, p: Plan)
    requires AlwaysCalm(w) && !p.escalates && a.live == [] && !Flat(a.position, p.dust)
    ensures var r := ClosedFrom(a, w, p);
      r.outcome == CloseFailed && r.a.position == a.position && |r.a.live| == 1 && AllReduceOnly(r.a.live)
  {
    hide LimitRun, Escalated;
    CalmWait(a, w);
    var b := a.(turn := a.turn + 1);
    CalmLimits(b, w, p, 0, None, b.position);
  }

  lemma CalmStacks(b: Account, w: Behaviour, p: Plan)
    requires AlwaysCalm(w) && !Flat(b.position, p.dust) && |b.live| == 1 && !SkipsLimit(p) && !StartsLate(p)
    ensures var r := ClosedFrom(b, w, p); |r.a.crowd| > |b.crowd| && r.a.crowd[|b.crowd|] == 2
  {
    CalmSend(b, w, p);
    LimitFirst(b, w, p);
    var d := b.(turn := b.turn + 2);
    CalmLimit(d, w, p);
    var s := LimitSent(d, w, p, 0, d.position);
    AfterFirstGrows(s, w, p);
    EntryIs(b.crowd, 2, s.a.crowd, ClosedFrom(b, w, p).a.crowd);
  }

  /** Closing again after that: the account holds the first close's last order, and the second close's
      first order rests beside it, although every cancel works. */
  lemma RetryStacks(a: Account, w: Behaviour, p: Plan)
    requires AlwaysCalm(w) && !p.escalates && a.live == [] && !Flat(a.position, p.dust)
    ensures var first := ClosedAll(a, w, true, p);
      var second := ClosedAll(first.a, w, false, p);
      && first.outcome == CloseFailed && |first.a.live| == 1 && AllReduceOnly(first.a.live)
      && |second.a.crowd| > |first.a.crowd| && second.a.crowd[|first.a.crowd|] == 2
  {
    CalmWait(a, w);
    CalmClose(AllCancelled(a, w), w, p);
    CalmStacks(ClosedFrom(AllCancelled(a, w), w, p).a, w, p);
  }

  lemma EntryIs(before: seq<nat>, k: nat, mid: seq<nat>, after: seq<nat>)
    requires before + [k] <= mid && mid <= after
    ensures |after| > |before| && after[|before|] == k
  {
    assert mid[|before|] == k && after[|before|] == k;
  }

  /** Calm, but for the n-th call, which fails. */
  function FailsAt(n: nat): Behaviour {
    Behaviour(true, (i: nat) => if i == n then CALM.(ok := false) else CALM)
  }

  lemma QuietWait(a: Account, w: Behaviour)
    requires Answer(a, w).happenings == []
    ensures Waited(a, w) == a.(turn := a.turn + 1)
  {
  }

  lemma FailedPoll(d: Account, p: Plan)
    requires d.live == [] && p.polls > 0
    ensures var s := LimitSent(d, FailsAt(d.turn + 2), p, 0, d.position); !s.ok && |s.a.live| == 1
  {
    var w := FailsAt(d.turn + 2);
    QuietWait(d, w);
    var b := d.(turn := d.turn + 1);
    QuietWait(b, w);
    var price := AggressivePrice(CloseSide(d.position), 1.0, 0);
    var c := Created(b, w, false, CloseSide(d.position), Floor2(Abs(d.position)), price, true);
    QuietWait(c, w);
  }

  /** A close that throws after it has sent leaves its order too. */
  lemma ThrowLeaves(a: Account, p: Plan)
    requires a.live == [] && !Flat(a.position, p.dust) && p.polls > 0 && !SkipsLimit(p) && !StartsLate(p)
    ensures var r := ClosedFrom(a, FailsAt(a.turn + 4), p); r.outcome == Threw && r.a.live != []
  {
    var w := FailsAt(a.turn + 4);
    QuietWait(a, w);
    var b := a.(turn := a.turn + 1);
    QuietWait(b, w);
    var d := b.(turn := b.turn + 1);
    FailedPoll(d, p);
    assert Attempted(b, w, p, 0, None) == LimitSent(d, w, p, 0, d.position);
    FirstAttempt(b, w, p, b.position);
  }

  /** With working cancels and nothing live at the start, a close that did not succeed may leave an
      order exactly when a limit order could be sent, and for a failed close only without escalation. */
  lemma LeavesExactlyWhen(a: Account, p: Plan, o: Outcome)
    requires a.live == [] && !Flat(a.position, p.dust) && p.polls > 0 && o != Closed
    ensures (exists w: Behaviour :: w.reliable && ClosedFrom(a, w, p).outcome == o && ClosedFrom(a, w, p).a.live != [])
      <==> !SkipsLimit(p) && !StartsLate(p) && (o == CloseFailed ==> !p.escalates)
  {
    if !SkipsLimit(p) && !StartsLate(p) {
      if o == Threw {
        ThrowLeaves(a, p);
        assert FailsAt(a.turn + 4).reliable;
      } else if !p.escalates {
        CalmClose(a, Calm(), p);
      }
    }
    if w: Behaviour :| w.reliable && ClosedFrom(a, w, p).outcome == o && ClosedFrom(a, w, p).a.live != [] {
      CloseAlone(a, w, p);
    }
  }
}
