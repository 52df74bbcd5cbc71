/**
 What may happen to an account after the pause. cancelAllOrders swallows its failures and the pause
 ignores its answer, so orders of the grid can survive it; from there on only closing orders are sent.
 */
module AfterPause {
  import opened GridLevels
  import opened Exchange
  import opened LongSafety
  import opened Numbers

  /** Fills, expiries and closing orders, in any order. */
  ghost predicate ClosingOnly(events: seq<Event>) {
    forall k | 0 <= k < |events| :: events[k].Send? ==> events[k].call.CloseLimit? || events[k].call.CloseMarket?
  }

  /** An order that can still fill, and is not clipped to the position. */
  predicate FillablePlain(o: Order) {
    !o.reduceOnly && o.size > 0.0
  }

  ghost predicate NoneFillablePlain(live: seq<Order>) {
    forall k | 0 <= k < |live| :: !FillablePlain(live[k])
  }

  lemma TradeShrinks(s: State, o: Order, amount: real)
    requires !FillablePlain(o)
    ensures Shrunk(s.position, Trade(s, o, amount).position) && Trade(s, o, amount).live == s.live
    ensures !FillablePlain(o.(size := o.size - Traded(s, o, amount)))
  {
  }

  lemma ShrinksOn(a: real, b: real, c: real)
    requires Shrunk(a, b) && Shrunk(b, c)
    ensures Shrunk(a, c)
  {
  }

  lemma StepShrinks(s: State, e: Event)
    requires NoneFillablePlain(s.live) && ClosingOnly([e])
    ensures Shrunk(s.position, Step(s, e, Long).position) && NoneFillablePlain(Step(s, e, Long).live)
  {
    assert [e][0] == e;
    match e
    case Send(call, id, accepted, filled) =>
      var o := OrderOf(call, Long, id);
      TradeShrinks(s, o, filled);
      assert NoneFillablePlain(s.live + [o.(size := o.size - Traded(s, o, filled))]);
    case Fill(k, amount) =>
      if k < |s.live| {
        var o := s.live[k];
        TradeShrinks(s, o, amount);
        assert NoneFillablePlain(s.live[k := o.(size := o.size - Traded(s, o, amount))]);
      }
    case Gone(k) =>
      if k < |s.live| {
        assert NoneFillablePlain(s.live[..k] + s.live[k+1..]);
      }
  }

  lemma {:induction false} RunShrinks(s: State, events: seq<Event>)
    requires NoneFillablePlain(s.live) && ClosingOnly(events)
    ensures Shrunk(s.position, Run(s, events, Long).position) && NoneFillablePlain(Run(s, events, Long).live)
  {
    if events != [] {
      var before, e := events[..|events|-1], events[|events|-1];
      RunShrinks(s, before);
      StepShrinks(Run(s, before, Long), e);
      ShrinksOn(s.position, Run(s, before, Long).position, Run(s, events, Long).position);
    }
  }

  /** A fill on the position's own side makes it grow; one against it waits until a closing order has
      flattened it, and then changes its side. */
  function Breaking(s: State, k: nat): (r: seq<Event>)
    requires k < |s.live|
    ensures ClosingOnly(r)
  {
    var o := s.live[k];
    if (s.position > 0.0 && o.side == Sell) || (s.position < 0.0 && o.side == Buy) then
      [Send(CloseMarket(s.position, 0.0), 0, true, Abs(s.position)), Fill(k, o.size)]
    else [Fill(k, o.size)]
  }

  lemma RunOne(s: State, e: Event)
    ensures Run(s, [e], Long) == Step(s, e, Long)
  {
    assert [e][..0] == [];
  }

  lemma RunTwo(s: State, e: Event, f: Event)
    ensures Run(s, [e, f], Long) == Step(Step(s, e, Long), f, Long)
  {
    assert [e, f][..1] == [e];
    RunOne(s, e);
  }

  lemma PlainFill(s: State, k: nat)
    requires k < |s.live| && FillablePlain(s.live[k])
    ensures var o := s.live[k];
      Step(s, Fill(k, o.size), Long).position == if o.side == Buy then s.position + o.size else s.position - o.size
  {
  }

  lemma BreakingBreaks(s: State, k: nat)
    requires k < |s.live| && FillablePlain(s.live[k])
    ensures !Shrunk(s.position, Run(s, Breaking(s, k), Long).position)
  {
    var o := s.live[k];
    if (s.position > 0.0 && o.side == Sell) || (s.position < 0.0 && o.side == Buy) {
      var close := Send(CloseMarket(s.position, 0.0), 0, true, Abs(s.position));
      RunTwo(s, close, Fill(k, o.size));
      var flat := Step(s, close, Long);
      assert flat.position == 0.0 && flat.live == s.live;
      PlainFill(flat, k);
    } else {
      RunOne(s, Fill(k, o.size));
      PlainFill(s, k);
    }
  }

  /** After the pause the position keeps its side and only shrinks in every continuation exactly when
      no order that can fill and is not reduce-only has survived. */
  lemma ShrinksExactlyWhen(s: State)
    ensures (forall events | ClosingOnly(events) :: Shrunk(s.position, Run(s, events, Long).position))
       <==> NoneFillablePlain(s.live)
  {
    if NoneFillablePlain(s.live) {
      forall events | ClosingOnly(events) ensures Shrunk(s.position, Run(s, events, Long).position) {
        RunShrinks(s, events);
      }
    } else {
      var k :| 0 <= k < |s.live| && FillablePlain(s.live[k]);
      BreakingBreaks(s, k);
      assert ClosingOnly(Breaking(s, k));
    }
  }

  /** One sell of the grid that survived the pause: the close flattens the long position, and the
      survivor turns it short. */
  lemma SurvivorFlips()
    ensures exists s: State, events ::
      s.position == 1.0 && |s.live| == 1 && ClosingOnly(events) && Run(s, events, Long).position == -1.0
  {
    var s := State(1.0, [Order(7, Sell, 1.0, 100.0, false)], 0.0, 0.0);
    var close := Send(CloseMarket(1.0, 0.0), 0, true, 1.0);
    RunTwo(s, close, Fill(0, 1.0));
    PlainFill(Step(s, close, Long), 0);
    assert ClosingOnly([close, Fill(0, 1.0)]);
  }
}
