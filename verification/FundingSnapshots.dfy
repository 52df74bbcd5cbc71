/**
 Net funding per bot from a cumulative counter that may be reset: one row per (bot,
 instrument) holds the baseline, the latest value and the net carried over from closed epochs.
 */
module FundingSnapshots {

  /** A row of funding_snapshots; (bot, instrument) is unique. */
  datatype Row = Row(bot: nat, instrument: nat, baseline: real, latest: real, carried: real)

  function NetOf(r: Row): real {
    r.carried + (r.latest - r.baseline)
  }

  /** ON CONFLICT DO UPDATE: a value below the baseline closes the epoch. */
  function Updated(r: Row, cumulative: real): Row {
    if cumulative < r.baseline then
      r.(carried := r.carried + (r.latest - r.baseline), baseline := cumulative, latest := cumulative)
    else r.(latest := cumulative)
  }

  function Inserted(bot: nat, instrument: nat, cumulative: real): Row {
    Row(bot, instrument, cumulative, cumulative, 0.0)
  }

  // ----- one pair over a sequence of polls

  function After(bot: nat, instrument: nat, polls: seq<real>): Row
    requires polls != []
  {
    var n := |polls| - 1;
    if n == 0 then Inserted(bot, instrument, polls[0]) else Updated(After(bot, instrument, polls[..n]), polls[n])
  }

  function Min(s: seq<real>): real
    requires s != []
  {
    var n := |s| - 1;
    if n == 0 then s[0]
    else
      var m := Min(s[..n]);
      if s[n] < m then s[n] else m
  }

  /** The increments of the polls that set no new minimum. */
  function Increments(polls: seq<real>): real
    requires polls != []
  {
    var n := |polls| - 1;
    if n == 0 then 0.0
    else Increments(polls[..n]) + if polls[n] < Min(polls[..n]) then 0.0 else polls[n] - polls[n-1]
  }

  /** Over any polls: the baseline is the running minimum, the latest value is the last poll, the
      net is the sum of the increments that set no new minimum, and no poll lowers what is
      carried. */
  lemma {:induction false} SnapshotMeaning(bot: nat, instrument: nat, polls: seq<real>)
    requires polls != []
    ensures var r := After(bot, instrument, polls);
      && r.bot == bot && r.instrument == instrument
      && r.baseline == Min(polls) && r.latest == polls[|polls|-1] && r.baseline <= r.latest
      && NetOf(r) == Increments(polls)
      && r.carried >= 0.0
    ensures |polls| > 1 ==> After(bot, instrument, polls).carried >= After(bot, instrument, polls[..|polls|-1]).carried
  {
    var n := |polls| - 1;
    if n > 0 {
      SnapshotMeaning(bot, instrument, polls[..n]);
    }
  }

  /** No value of the epoch is below its first. */
  predicate NeverBelowStart(epoch: seq<real>) {
    epoch != [] && forall k | 0 <= k < |epoch| :: epoch[0] <= epoch[k]
  }

  function Gain(epoch: seq<real>): real
    requires epoch != []
  {
    epoch[|epoch|-1] - epoch[0]
  }

  lemma {:induction false} MinIsMin(s: seq<real>)
    requires s != []
    ensures forall k | 0 <= k < |s| :: Min(s) <= s[k]
    ensures exists k :: 0 <= k < |s| && s[k] == Min(s)
  {
    var n := |s| - 1;
    if n == 0 {
      assert s[0] == Min(s);
    } else {
      MinIsMin(s[..n]);
      var k :| 0 <= k < n && s[..n][k] == Min(s[..n]);
      assert s[k] == Min(s[..n]);
      assert s[n] < Min(s[..n]) ==> s[n] == Min(s);
      forall j | 0 <= j < |s| ensures Min(s) <= s[j] {
        assert j < n ==> s[j] == s[..n][j];
      }
    }
  }

  /** After earlier polls, an epoch whose values never fall below a start that is already the
      minimum adds its gain. */
  lemma {:induction false} EpochAdds(before: seq<real>, epoch: seq<real>)
    requires NeverBelowStart(epoch)
    requires before == [] || epoch[0] < Min(before)
    ensures Increments(before + epoch) == (if before == [] then 0.0 else Increments(before)) + Gain(epoch)
    ensures Min(before + epoch) == epoch[0]
  {
    var n := |epoch| - 1;
    var all := before + epoch;
    if n == 0 {
      assert all[..|all|-1] == before;
    } else {
      var e := epoch[..n];
      EpochAdds(before, e);
      assert all[..|all|-1] == before + e;
      assert all[|all|-2] == epoch[n-1];
    }
  }

  function Flatten(epochs: seq<seq<real>>): seq<real> {
    if epochs == [] then [] else Flatten(epochs[..|epochs|-1]) + epochs[|epochs|-1]
  }

  predicate NoneEmpty(epochs: seq<seq<real>>) {
    forall k | 0 <= k < |epochs| :: epochs[k] != []
  }

  function Gains(epochs: seq<seq<real>>): real
    requires NoneEmpty(epochs)
  {
    if epochs == [] then 0.0 else Gains(epochs[..|epochs|-1]) + Gain(epochs[|epochs|-1])
  }

  /** Every epoch starts below everything before it and never falls below its own start. */
  ghost predicate Epochs(epochs: seq<seq<real>>) {
    epochs != [] ==>
      var before, last := epochs[..|epochs|-1], epochs[|epochs|-1];
      && Epochs(before) && NeverBelowStart(last)
      && (forall k | 0 <= k < |Flatten(before)| :: last[0] < Flatten(before)[k])
  }

  lemma {:induction false} EpochsNonEmpty(epochs: seq<seq<real>>)
    requires Epochs(epochs)
    ensures NoneEmpty(epochs)
  {
    if epochs != [] {
      EpochsNonEmpty(epochs[..|epochs|-1]);
      forall k | 0 <= k < |epochs| ensures epochs[k] != [] {
        assert k < |epochs| - 1 ==> epochs[k] == epochs[..|epochs|-1][k];
      }
    }
  }

  /** For such epochs the net is the sum over the epochs of last minus first. */
  lemma {:induction false} NetIsSumOfEpochs(epochs: seq<seq<real>>)
    requires epochs != [] && Epochs(epochs)
    ensures NoneEmpty(epochs) && Flatten(epochs) != [] && Increments(Flatten(epochs)) == Gains(epochs)
  {
    EpochsNonEmpty(epochs);
    var before, last := epochs[..|epochs|-1], epochs[|epochs|-1];
    var polls := Flatten(before);
    if before == [] {
      assert polls + last == last;
      EpochAdds([], last);
      assert [] + last == last;
    } else {
      NetIsSumOfEpochs(before);
      MinIsMin(polls);
      EpochAdds(polls, last);
    }
  }

  lemma {:induction false} NoReset(before: seq<real>, more: seq<real>)
    requires before != [] && forall k | 0 <= k < |more| :: more[k] >= Min(before)
    ensures var all := before + more;
      Increments(all) == Increments(before) + (all[|all|-1] - before[|before|-1]) && Min(all) == Min(before)
  {
    var all := before + more;
    if more == [] {
      assert all == before;
    } else {
      var m := more[..|more|-1];
      NoReset(before, m);
      assert all[..|all|-1] == before + m;
    }
  }

  /** After any polls, an epoch that never falls below its own start is booked with its gain exactly when
      it starts below everything before, or where the last poll ended: any other restart goes unseen. */
  lemma ReopenSeenExactlyWhen(before: seq<real>, epoch: seq<real>)
    requires before != [] && NeverBelowStart(epoch)
    ensures Increments(before + epoch) == Increments(before) + Gain(epoch)
      <==> epoch[0] < Min(before) || epoch[0] == before[|before|-1]
  {
    hide Increments, Min;
    if epoch[0] < Min(before) {
      EpochAdds(before, epoch);
    } else {
      NoReset(before, epoch);
      assert (before + epoch)[|before + epoch|-1] == epoch[|epoch|-1];
    }
  }

  // ----- the table

  function Find(rows: seq<Row>, bot: nat, instrument: nat): (k: int)
    ensures -1 <= k < |rows|
    ensures k >= 0 ==> rows[k].bot == bot && rows[k].instrument == instrument
    ensures k < 0 ==> forall j | 0 <= j < |rows| :: !(rows[j].bot == bot && rows[j].instrument == instrument)
  {
    if rows == [] then -1
    else
      var n := |rows| - 1;
      var k := Find(rows[..n], bot, instrument);
      if k >= 0 then k else if rows[n].bot == bot && rows[n].instrument == instrument then n else -1
  }

  function Net(rows: seq<Row>, bot: nat): real {
    if rows == [] then 0.0
    else Net(rows[..|rows|-1], bot) + if rows[|rows|-1].bot == bot then NetOf(rows[|rows|-1]) else 0.0
  }

  lemma {:induction false} NetUpdate(rows: seq<Row>, k: nat, r: Row, bot: nat)
    requires k < |rows| && r.bot == rows[k].bot
    ensures Net(rows[k := r], bot) == Net(rows, bot) + if r.bot == bot then NetOf(r) - NetOf(rows[k]) else 0.0
  {
    var n := |rows| - 1;
    if k < n {
      NetUpdate(rows[..n], k, r, bot);
      assert rows[k := r][..n] == rows[..n][k := r];
    } else {
      assert rows[k := r][..n] == rows[..n];
    }
  }

  // ----- runs of the table

  datatype Poll = Poll(bot: nat, instrument: nat, cumulative: real)

  function Upserted(rows: seq<Row>, p: Poll): seq<Row> {
    var k := Find(rows, p.bot, p.instrument);
    if k >= 0 then rows[k := Updated(rows[k], p.cumulative)]
    else rows + [Inserted(p.bot, p.instrument, p.cumulative)]
  }

  function Table(polls: seq<Poll>): seq<Row> {
    if polls == [] then [] else Upserted(Table(polls[..|polls|-1]), polls[|polls|-1])
  }

  predicate IsOf(p: Poll, bot: nat, instrument: nat) {
    p.bot == bot && p.instrument == instrument
  }

  /** The values polled for one pair. */
  function PollsOf(polls: seq<Poll>, bot: nat, instrument: nat): seq<real> {
    if polls == [] then []
    else
      var before := PollsOf(polls[..|polls|-1], bot, instrument);
      if IsOf(polls[|polls|-1], bot, instrument) then before + [polls[|polls|-1].cumulative] else before
  }

  ghost predicate OneRowEach(rows: seq<Row>) {
    forall j, k | 0 <= j < k < |rows| :: rows[j].bot != rows[k].bot || rows[j].instrument != rows[k].instrument
  }

  lemma FindOnly(rows: seq<Row>, k: nat)
    requires OneRowEach(rows) && k < |rows|
    ensures Find(rows, rows[k].bot, rows[k].instrument) == k
  {
  }

  lemma UpsertFinds(rows: seq<Row>, p: Poll, bot: nat, instrument: nat)
    requires OneRowEach(rows)
    ensures OneRowEach(Upserted(rows, p))
    ensures var k, n := Find(rows, bot, instrument), Find(Upserted(rows, p), bot, instrument);
      if IsOf(p, bot, instrument) then
        && n >= 0
        && Upserted(rows, p)[n] == (if k >= 0 then Updated(rows[k], p.cumulative) else Inserted(bot, instrument, p.cumulative))
      else n == k && (k >= 0 ==> Upserted(rows, p)[k] == rows[k])
  {
    var after := Upserted(rows, p);
    var k := Find(rows, bot, instrument);
    assert OneRowEach(after);
    if k >= 0 {
      FindOnly(after, k);
    } else if IsOf(p, bot, instrument) {
      FindOnly(after, |rows|);
    }
  }

  /** After any interleaving of the polls a pair has one row, made from its own polls alone, and none
      exactly when it was never polled. */
  lemma {:induction false} RowIsOwnHistory(polls: seq<Poll>, bot: nat, instrument: nat)
    ensures OneRowEach(Table(polls))
    ensures var own, k := PollsOf(polls, bot, instrument), Find(Table(polls), bot, instrument);
      if own == [] then k < 0 else k >= 0 && Table(polls)[k] == After(bot, instrument, own)
  {
    if polls != [] {
      var n := |polls| - 1;
      RowIsOwnHistory(polls[..n], bot, instrument);
      UpsertFinds(Table(polls[..n]), polls[n], bot, instrument);
      var before := PollsOf(polls[..n], bot, instrument);
      assert (before + [polls[n].cumulative])[..|before|] == before;
    }
  }

  /** What one poll books: the increment over its own pair's last poll, and nothing for a new minimum. */
  function Booking(before: seq<Poll>, p: Poll): real {
    var own := PollsOf(before, p.bot, p.instrument);
    if own == [] || p.cumulative < Min(own) then 0.0 else p.cumulative - own[|own|-1]
  }

  function Booked(polls: seq<Poll>, bot: nat): real {
    if polls == [] then 0.0
    else
      var p := polls[|polls|-1];
      Booked(polls[..|polls|-1], bot) + if p.bot == bot then Booking(polls[..|polls|-1], p) else 0.0
  }

  lemma UpsertMovesNet(rows: seq<Row>, p: Poll, bot: nat)
    ensures var k := Find(rows, p.bot, p.instrument);
      Net(Upserted(rows, p), bot) == Net(rows, bot)
        + if p.bot == bot && k >= 0 then NetOf(Updated(rows[k], p.cumulative)) - NetOf(rows[k]) else 0.0
  {
    var k := Find(rows, p.bot, p.instrument);
    if k >= 0 {
      NetUpdate(rows, k, Updated(rows[k], p.cumulative), bot);
    } else {
      assert (rows + [Inserted(p.bot, p.instrument, p.cumulative)])[..|rows|] == rows;
    }
  }

  /** A bot's net is the sum of what its polls booked, whatever was polled in between. */
  lemma {:induction false} NetIsWhatWasBooked(polls: seq<Poll>, bot: nat)
    ensures Net(Table(polls), bot) == Booked(polls, bot)
  {
    if polls != [] {
      var n := |polls| - 1;
      var p := polls[n];
      NetIsWhatWasBooked(polls[..n], bot);
      UpsertMovesNet(Table(polls[..n]), p, bot);
      RowIsOwnHistory(polls[..n], p.bot, p.instrument);
      var own := PollsOf(polls[..n], p.bot, p.instrument);
      if own != [] {
        SnapshotMeaning(p.bot, p.instrument, own);
      }
    }
  }

  class Database {
    var rows: seq<Row>

    constructor ()
      ensures rows == []
    {
      rows := [];
    }

    /** Updates the pair's row or adds it; the bot's net moves by what that row's net moves, and no
        other bot's net moves. */
    method UpsertFundingSnapshot(bot: nat, instrument: nat, cumulative: real)
      modifies this
      ensures rows == Upserted(old(rows), Poll(bot, instrument, cumulative))
      ensures forall other: nat | other != bot :: Net(rows, other) == Net(old(rows), other)
      ensures var k := Find(old(rows), bot, instrument);
        Net(rows, bot) == Net(old(rows), bot)
          + if k >= 0 then NetOf(Updated(old(rows)[k], cumulative)) - NetOf(old(rows)[k]) else 0.0
    {
      forall other: nat
        ensures var k := Find(rows, bot, instrument);
          Net(Upserted(rows, Poll(bot, instrument, cumulative)), other) == Net(rows, other)
            + if bot == other && k >= 0 then NetOf(Updated(rows[k], cumulative)) - NetOf(rows[k]) else 0.0
      {
        UpsertMovesNet(rows, Poll(bot, instrument, cumulative), other);
      }
      var k := Find(rows, bot, instrument);
      if k >= 0 {
        rows := rows[k := Updated(rows[k], cumulative)];
      } else {
        rows := rows + [Inserted(bot, instrument, cumulative)];
      }
    }

    method GetNetFundingForBot(bot: nat) returns (net: real)
      ensures net == Net(rows, bot)
    {
      net := 0.0;
      for i := 0 to |rows|
        invariant net == Net(rows[..i], bot)
      {
        assert rows[..i+1][..i] == rows[..i];
        if rows[i].bot == bot {
          net := net + NetOf(rows[i]);
        }
      }
      assert rows[..|rows|] == rows;
    }
  }
}
