/**
 Which calls a close gives up on, stated on the exchange's answers: a read, a price and the create of
 a limit order must answer; cancels, the lookup of an id and the create of the market order need not.
 */
module CloseFaults {
  import opened GridLevels
  import opened Numbers
  import opened Exchange
  import opened CloseRun
  import opened Options

  /** Every call from `from` up to `to` answers. */
  ghost predicate Answered(w: Behaviour, from: nat, to: nat) {
    forall t | from <= t < to :: w.will(t).ok
  }

  lemma {:induction false} HappenedTurn(a: Account, hs: seq<Happening>)
    ensures HappenedAll(a, hs).turn == a.turn
  {
    if hs != [] {
      HappenedTurn(a, hs[..|hs|-1]);
    }
  }

  lemma OneCall(a: Account, w: Behaviour)
    ensures Waited(a, w).turn == a.turn + 1 && Answer(a, w) == w.will(a.turn)
  {
    HappenedTurn(a, Answer(a, w).happenings);
  }

  /** The polls go on until one shows a flat position, or they are used up, or a read fails. */
  lemma {:induction false} PollsExactlyWhen(a: Account, w: Behaviour, polls: nat, dust: real, last: real)
    ensures var s := Polled(a, w, polls, dust, last);
      && a.turn <= s.a.turn <= a.turn + polls
      && (s.ok <==> Answered(w, a.turn, s.a.turn))
      && (s.flattened ==> s.ok && -dust <= s.size <= dust && s.size == s.a.position)
      && (s.ok && !s.flattened ==> s.a.turn == a.turn + polls && (polls > 0 ==> Abs(s.size) > dust))
    decreases polls
  {
    if polls > 0 {
      OneCall(a, w);
      var b := Waited(a, w);
      if Answer(a, w).ok && !Flat(b.position, dust) {
        PollsExactlyWhen(b, w, polls - 1, dust, b.position);
        var s := Polled(b, w, polls - 1, dust, b.position);
        assert Answered(w, a.turn, s.a.turn) <==> w.will(a.turn).ok && Answered(w, b.turn, s.a.turn);
      }
    }
  }

  lemma ResolvedTurn(a: Account, w: Behaviour, created: CreatedId, price: real)
    ensures var r := Resolved(a, w, created, price);
      r.a.turn == a.turn + if created == ZeroId then 1 else 0
  {
    if created == ZeroId {
      OneCall(a, w);
    }
  }

  /** A zero id becomes known exactly when the open orders were shown and one of those shown is less than
      1 away from the price. */
  lemma ZeroIdFoundExactlyWhen(a: Account, w: Behaviour, price: real)
    ensures var t, b := w.will(a.turn), Waited(a, w);
      Resolved(a, w, ZeroId, price).id.Some? <==>
        t.ok && exists k :: 0 <= k < t.shown && k < |b.live| && -1.0 < b.live[k].price - price < 1.0
  {
    var t, b := w.will(a.turn), Waited(a, w);
    var shown := Shown(b, t.shown);
    IdAtExactlyWhen(shown, price);
    assert forall k | 0 <= k < |shown| :: shown[k] == b.live[k];
    if k :| 0 <= k < t.shown && k < |b.live| && -1.0 < b.live[k].price - price < 1.0 {
      assert shown[k] == b.live[k];
    }
  }

  /** The turn of the first poll of a limit attempt: after price, create and, for a zero id, its lookup. */
  function FirstPoll(w: Behaviour, turn: nat): nat {
    turn + 2 + if w.will(turn + 1).reply == SaysZero then 1 else 0
  }

  /** A limit order that is sent goes on exactly when price, create and every poll answered; whether the
      lookup of its id did makes no difference. */
  lemma LimitGoesOnExactlyWhen(a: Account, w: Behaviour, p: Plan, attempt: nat, read: real)
    ensures var s := LimitSent(a, w, p, attempt, read);
      && (s.ok <==> Answered(w, a.turn, a.turn + 2) && Answered(w, FirstPoll(w, a.turn), s.a.turn))
      && (s.flattened ==> s.ok && -p.dust <= s.size <= p.dust)
  {
    OneCall(a, w);
    var b := Waited(a, w);
    OneCall(b, w);
    assert Answered(w, a.turn, a.turn + 2) <==> w.will(a.turn).ok && w.will(a.turn + 1).ok;
    if Answer(a, w).ok {
      var price := AggressivePrice(CloseSide(read), Answer(a, w).price, attempt);
      var c := Created(b, w, false, CloseSide(read), Floor2(Abs(read)), price, true);
      if Answer(b, w).ok {
        ResolvedTurn(c, w, CreatedAs(b, w), price);
        PollsExactlyWhen(Resolved(c, w, CreatedAs(b, w), price).a, w, p.polls, p.dust, read);
      }
    }
  }

  /** A market order goes on exactly when its price answered and, if its create did, every poll; a create
      that fails ends the escalation without an error and with the position as it was read. */
  lemma MarketGoesOnExactlyWhen(a: Account, w: Behaviour, p: Plan, read: real)
    ensures var s := MarketSent(a, w, p, read);
      && (s.ok <==> w.will(a.turn).ok && (w.will(a.turn + 1).ok ==> Answered(w, a.turn + 2, s.a.turn)))
      && (s.ok && !w.will(a.turn + 1).ok ==> !s.flattened && s.size == read && s.a.turn == a.turn + 2)
      && (s.flattened ==> s.ok && -p.dust <= s.size <= p.dust)
  {
    OneCall(a, w);
    var b := Waited(a, w);
    OneCall(b, w);
    if Answer(a, w).ok && Answer(b, w).ok {
      var c := Created(b, w, true, CloseSide(read), Floor2(Abs(read)), Answer(a, w).price, true);
      PollsExactlyWhen(c, w, p.polls, p.dust, read);
    }
  }

  /** An attempt, or the escalation, starts with a read: when it fails the step fails, and when it shows a
      position within dust the step is done with that size and sends nothing. */
  lemma ReadComesFirst(a: Account, w: Behaviour, p: Plan, attempt: nat, previous: Option<nat>, skipped: bool)
    ensures var s := Attempted(a, w, p, attempt, previous);
      && (!w.will(a.turn).ok ==> !s.ok && !s.flattened && s.a == Waited(a, w))
      && (w.will(a.turn).ok && -p.dust <= Waited(a, w).position <= p.dust ==>
            s.ok && s.flattened && s.size == Waited(a, w).position && s.a == Waited(a, w))
    ensures var b := PreviousCancelled(a, w, previous, !skipped);
      var s := Escalated(a, w, p, previous, skipped);
      && (!w.will(b.turn).ok ==> !s.ok && !s.flattened && s.a == Waited(b, w))
      && (w.will(b.turn).ok && -p.dust <= Waited(b, w).position <= p.dust ==>
            s.ok && s.flattened && s.size == Waited(b, w).position && s.a == Waited(b, w))
  {
  }

  // ----- the whole close

  ghost predicate AllAnswer(w: Behaviour) {
    forall t :: w.will(t).ok
  }

  lemma AttemptAnswers(a: Account, w: Behaviour, p: Plan, attempt: nat, previous: Option<nat>)
    requires AllAnswer(w)
    ensures var s := Attempted(a, w, p, attempt, previous); s.ok && (s.flattened ==> -p.dust <= s.size <= p.dust)
  {
    LimitGoesOnExactlyWhen(PreviousCancelled(Waited(a, w), w, previous, attempt > 0), w, p, attempt, Waited(a, w).position);
  }

  lemma EscalationAnswers(a: Account, w: Behaviour, p: Plan, previous: Option<nat>, skipped: bool)
    requires AllAnswer(w)
    ensures Escalated(a, w, p, previous, skipped).ok
  {
    var b := PreviousCancelled(a, w, previous, !skipped);
    MarketGoesOnExactlyWhen(Waited(b, w), w, p, Waited(b, w).position);
  }

  lemma {:induction false} LimitsAnswer(a: Account, w: Behaviour, p: Plan, attempt: nat, previous: Option<nat>, size: real)
    requires AllAnswer(w)
    ensures LimitRun(a, w, p, attempt, previous, size).stage.ok
    decreases AttemptsLeft(p, attempt)
  {
    hide Attempted, AllAnswer;
    if Attempts(p, attempt) {
      AttemptAnswers(a, w, p, attempt, previous);
      var s := Attempted(a, w, p, attempt, previous);
      if !s.flattened {
        LimitsAnswer(s.a, w, p, attempt + 1, s.id, s.size);
      }
    }
  }

  /** While every call answers a close ends closed or failed, and never in another error. */
  lemma AnswersMeanNoError(a: Account, w: Behaviour, p: Plan)
    requires AllAnswer(w)
    ensures ClosedFrom(a, w, p).outcome != Threw
  {
    hide LimitRun, Escalated;
    var b := Waited(a, w);
    LimitsAnswer(b, w, p, 0, None, b.position);
    var l := LimitPart(b, w, p, b.position);
    EscalationAnswers(l.stage.a, w, p, l.stage.id, SkipsLimit(p));
  }

  /** How a step that was not flat, was flat or failed ends the close, and what it says is left. */
  lemma OutcomeOfStage(s: Stage, w: Behaviour)
    ensures var e := EndedBy(s, w);
      && (e.outcome == Threw <==> !s.ok)
      && (e.outcome == Closed <==> s.ok && s.flattened)
      && e.size == if e.outcome == Closed then 0.0 else s.size
  {
  }

  /** Right after the pause: a read that fails is an error, and one within dust closes at once. */
  lemma FirstRead(a: Account, w: Behaviour, p: Plan)
    ensures var e := ClosedFrom(a, w, p);
      && (!w.will(a.turn).ok ==> e.outcome == Threw && e.a == Waited(a, w))
      && (w.will(a.turn).ok && -p.dust <= Waited(a, w).position <= p.dust ==>
            e.outcome == Closed && e.size == 0.0 && e.a == Waited(a, w))
  {
  }
}
