/**
 Backfilling missed fills: paging the exchange's history backwards until the watermark, with an
 insert-or-ignore archive keyed on the event time.
 */
module Backfill {
  import opened Collections
  import opened Options

  /** A fill as the exchange reports it; the event time may be missing. */
  datatype Fill = Fill(time: Option<int>, instrument: nat, isBuyer: bool, price: real, size: real, fee: real)

  /** A row of fills_archive, under its unique fill_id, which is the event time. */
  datatype Row = Row(isBuyer: bool, price: real, size: real, fee: real, botId: nat, instrument: nat)

  type Archive = map<int, Row>

  /** One run for one bot, down to a watermark. */
  datatype Target = Target(botId: nat, instrument: nat, since: int)

  predicate Wanted(f: Fill, t: Target) {
    f.time.Some? && f.instrument == t.instrument && f.time.value > t.since
  }

  function RowOf(f: Fill, t: Target): Row {
    Row(f.isBuyer, f.price, f.size, f.fee, t.botId, t.instrument)
  }

  /** The row tells what the fill was, and whose. */
  predicate Records(r: Row, f: Fill, t: Target) {
    && (r.isBuyer <==> f.isBuyer) && r.price == f.price && r.size == f.size && r.fee == f.fee
    && r.botId == t.botId && r.instrument == t.instrument
  }

  predicate IsNew(a: Archive, f: Fill, t: Target) {
    Wanted(f, t) && f.time.value !in a
  }

  function InsertFill(a: Archive, f: Fill, t: Target): Archive {
    if IsNew(a, f, t) then a[f.time.value := RowOf(f, t)] else a
  }

  /** The archive after inserting the wanted fills of a list. */
  function Absorb(a: Archive, fills: seq<Fill>, t: Target): Archive {
    if fills == [] then a else InsertFill(Absorb(a, fills[..|fills|-1], t), fills[|fills|-1], t)
  }

  /** The fills that this adds a row for. */
  function NewOnes(a: Archive, fills: seq<Fill>, t: Target): (r: seq<Fill>)
    ensures forall k | 0 <= k < |r| :: Wanted(r[k], t)
  {
    if fills == [] then []
    else
      var n := |fills| - 1;
      var r := NewOnes(a, fills[..n], t);
      if IsNew(Absorb(a, fills[..n], t), fills[n], t) then r + [fills[n]] else r
  }

  function CountWanted(fills: seq<Fill>, t: Target): nat {
    if fills == [] then 0
    else CountWanted(fills[..|fills|-1], t) + (if Wanted(fills[|fills|-1], t) then 1 else 0)
  }

  predicate Carries(fills: seq<Fill>, t: Target, time: int) {
    exists k :: 0 <= k < |fills| && Wanted(fills[k], t) && fills[k].time.value == time
  }

  lemma CarriesStep(fills: seq<Fill>, t: Target, time: int)
    requires fills != []
    ensures Carries(fills, t, time) <==>
      || Carries(fills[..|fills|-1], t, time)
      || (Wanted(fills[|fills|-1], t) && fills[|fills|-1].time.value == time)
  {
    var n := |fills| - 1;
    if Carries(fills[..n], t, time) {
      var k :| 0 <= k < n && Wanted(fills[..n][k], t) && fills[..n][k].time.value == time;
      assert Wanted(fills[k], t);
    }
    if Carries(fills, t, time) {
      var k :| 0 <= k < |fills| && Wanted(fills[k], t) && fills[k].time.value == time;
      assert k == n || fills[..n][k] == fills[k];
    }
  }

  /** Old rows are never touched, and the new keys are exactly the times of the wanted fills. */
  lemma {:induction false} AbsorbMeaning(a: Archive, fills: seq<Fill>, t: Target, time: int)
    ensures time in Absorb(a, fills, t) <==> time in a || Carries(fills, t, time)
    ensures time in a ==> Absorb(a, fills, t)[time] == a[time]
    ensures time !in a && Carries(fills, t, time) ==>
      exists k :: 0 <= k < |fills| && fills[k].time == Some(time) && Records(Absorb(a, fills, t)[time], fills[k], t)
  {
    if fills != [] {
      var n := |fills| - 1;
      AbsorbMeaning(a, fills[..n], t, time);
      CarriesStep(fills, t, time);
      var before := Absorb(a, fills[..n], t);
      if time !in a && Carries(fills, t, time) {
        if Carries(fills[..n], t, time) {
          var k :| 0 <= k < n && fills[..n][k].time == Some(time) && Records(before[time], fills[..n][k], t);
          assert fills[k] == fills[..n][k];
        } else {
          assert fills[n].time == Some(time);
        }
      }
    }
  }

  /** Exactly the times of the pair's own fills after the watermark are added; a fill without a time, of
      another pair, or at or before the watermark adds nothing. */
  lemma AddedExactlyWhen(a: Archive, fills: seq<Fill>, t: Target, time: int)
    requires time !in a
    ensures time in Absorb(a, fills, t) <==>
      time > t.since && exists k :: 0 <= k < |fills| && fills[k].time == Some(time) && fills[k].instrument == t.instrument
  {
    AbsorbMeaning(a, fills, t, time);
    if k :| 0 <= k < |fills| && fills[k].time == Some(time) && fills[k].instrument == t.instrument {
      assert time > t.since ==> Wanted(fills[k], t);
    }
  }

  /** One new row per new fill, none of them there before and no two for the same time. */
  lemma {:induction false} NewOnesAreNew(a: Archive, fills: seq<Fill>, t: Target)
    ensures |Absorb(a, fills, t)| == |a| + |NewOnes(a, fills, t)|
    ensures forall k | 0 <= k < |NewOnes(a, fills, t)| ::
      var time := NewOnes(a, fills, t)[k].time.value; time !in a && time in Absorb(a, fills, t)
    ensures forall j, k | 0 <= j < k < |NewOnes(a, fills, t)| ::
      NewOnes(a, fills, t)[j].time != NewOnes(a, fills, t)[k].time
  {
    if fills != [] {
      var n := |fills| - 1;
      NewOnesAreNew(a, fills[..n], t);
      var before, f := Absorb(a, fills[..n], t), fills[n];
      if IsNew(before, f, t) {
        assert Absorb(a, fills, t).Keys == before.Keys + {f.time.value};
        AbsorbMeaning(a, fills[..n], t, f.time.value);
      }
    }
  }

  // ----- what the new rows add up to

  /** Bought or sold units, and fees, of fills. */
  function Units(fills: seq<Fill>, buys: bool): real {
    if fills == [] then 0.0
    else Units(fills[..|fills|-1], buys) + if fills[|fills|-1].isBuyer == buys then fills[|fills|-1].size else 0.0
  }

  function Fees(fills: seq<Fill>): real {
    if fills == [] then 0.0 else Fees(fills[..|fills|-1]) + fills[|fills|-1].fee
  }

  predicate AllArchived(a: Archive, fills: seq<Fill>) {
    forall k | 0 <= k < |fills| :: fills[k].time.Some? && fills[k].time.value in a
  }

  /** The same of the rows under the times of fills. */
  function RowUnits(a: Archive, fills: seq<Fill>, buys: bool): real
    requires AllArchived(a, fills)
  {
    if fills == [] then 0.0
    else
      var n := |fills| - 1;
      var r := a[fills[n].time.value];
      RowUnits(a, fills[..n], buys) + if r.isBuyer == buys then r.size else 0.0
  }

  function RowFees(a: Archive, fills: seq<Fill>): real
    requires AllArchived(a, fills)
  {
    if fills == [] then 0.0 else RowFees(a, fills[..|fills|-1]) + a[fills[|fills|-1].time.value].fee
  }

  lemma {:induction false} SameTotals(a: Archive, fills: seq<Fill>, t: Target, buys: bool)
    requires AllArchived(a, fills)
    requires forall k | 0 <= k < |fills| :: Records(a[fills[k].time.value], fills[k], t)
    ensures RowUnits(a, fills, buys) == Units(fills, buys) && RowFees(a, fills) == Fees(fills)
  {
    if fills != [] {
      SameTotals(a, fills[..|fills|-1], t, buys);
    }
  }

  lemma {:induction false} NewOnesRecorded(a: Archive, fills: seq<Fill>, t: Target)
    ensures var after, r := Absorb(a, fills, t), NewOnes(a, fills, t);
      AllArchived(after, r) && forall k | 0 <= k < |r| :: Records(after[r[k].time.value], r[k], t)
  {
    if fills != [] {
      NewOnesRecorded(a, fills[..|fills|-1], t);
    }
  }

  /** The units bought, the units sold and the fees of the rows that are added are those of the fills
      that they were added for. */
  lemma NewRowsBalance(a: Archive, fills: seq<Fill>, t: Target, buys: bool)
    ensures var after, r := Absorb(a, fills, t), NewOnes(a, fills, t);
      AllArchived(after, r) && RowUnits(after, r, buys) == Units(r, buys) && RowFees(after, r) == Fees(r)
  {
    NewOnesRecorded(a, fills, t);
    SameTotals(Absorb(a, fills, t), NewOnes(a, fills, t), t, buys);
  }

  lemma LastSplit(p: seq<Fill>, q: seq<Fill>)
    requires q != []
    ensures (p + q)[..|p + q| - 1] == p + q[..|q|-1] && (p + q)[|p + q| - 1] == q[|q|-1]
  {
  }

  lemma {:induction false} AbsorbAppend(a: Archive, p: seq<Fill>, q: seq<Fill>, t: Target)
    ensures Absorb(a, p + q, t) == Absorb(Absorb(a, p, t), q, t)
    ensures NewOnes(a, p + q, t) == NewOnes(a, p, t) + NewOnes(Absorb(a, p, t), q, t)
    ensures CountWanted(p + q, t) == CountWanted(p, t) + CountWanted(q, t)
  {
    if q == [] {
      assert p + q == p;
    } else {
      var n := |q| - 1;
      AbsorbAppend(a, p, q[..n], t);
      LastSplit(p, q);
    }
  }

  lemma {:induction false} NothingWanted(a: Archive, fills: seq<Fill>, t: Target)
    requires forall k | 0 <= k < |fills| :: !Wanted(fills[k], t)
    ensures Absorb(a, fills, t) == a
    ensures NewOnes(a, fills, t) == []
  {
    if fills != [] {
      NothingWanted(a, fills[..|fills|-1], t);
    }
  }

  lemma {:induction false} NothingNew(a: Archive, fills: seq<Fill>, t: Target)
    requires forall k | 0 <= k < |fills| && Wanted(fills[k], t) :: fills[k].time.value in a
    ensures Absorb(a, fills, t) == a
    ensures NewOnes(a, fills, t) == []
  {
    if fills != [] {
      NothingNew(a, fills[..|fills|-1], t);
    }
  }

  /** Running again over the same history adds nothing. */
  lemma RerunAddsNothing(a: Archive, fills: seq<Fill>, t: Target)
    ensures Absorb(Absorb(a, fills, t), fills, t) == Absorb(a, fills, t)
    ensures NewOnes(Absorb(a, fills, t), fills, t) == []
  {
    forall k | 0 <= k < |fills| && Wanted(fills[k], t) ensures fills[k].time.value in Absorb(a, fills, t) {
      AbsorbMeaning(a, fills, t, fills[k].time.value);
      assert Carries(fills, t, fills[k].time.value);
    }
    NothingNew(Absorb(a, fills, t), fills, t);
  }

  // ----- the exchange's history

  /** Every fill has its time, and the times strictly fall. */
  predicate NewestFirst(h: seq<Fill>) {
    && (forall k | 0 <= k < |h| :: h[k].time.Some?)
    && (forall j, k | 0 <= j < k < |h| :: h[j].time.value > h[k].time.value)
  }

  /** Fills can only have arrived at the new end. */
  predicate Grown(before: seq<Fill>, after: seq<Fill>) {
    |before| <= |after| && after[|after| - |before|..] == before
  }

  /** The part of the history at or before `end`. */
  function Visible(h: seq<Fill>, end: Option<int>): seq<Fill>
    requires NewestFirst(h)
  {
    if end.None? || h == [] || h[0].time.value <= end.value then h else Visible(h[1..], end)
  }

  lemma {:induction false} VisibleRest(h: seq<Fill>, m: nat, end: int)
    requires NewestFirst(h) && 0 < m <= |h| && end == h[m-1].time.value - 1
    ensures Visible(h, Some(end)) == h[m..]
  {
    if m > 1 {
      VisibleRest(h[1..], m - 1, end);
    } else {
      assert h[0].time.value > end;
      assert Visible(h[1..], Some(end)) == h[1..];
    }
  }

  /** The page below the n-th fill of `base` is the same however the history has grown since. */
  lemma NextPage(base: seq<Fill>, h: seq<Fill>, n: nat)
    requires NewestFirst(h) && Grown(base, h) && 0 < n <= |base|
    ensures base[n-1].time.Some?
    ensures Visible(h, Some(base[n-1].time.value - 1)) == base[n..]
  {
    var d := |h| - |base|;
    assert base[n-1] == h[d + n - 1];
    VisibleRest(h, d + n, base[n-1].time.value - 1);
    assert h[d + n..] == base[n..];
  }

  function FirstPage(h: seq<Fill>, limit: nat): seq<Fill> {
    h[..if |h| <= limit then |h| else limit]
  }

  const PAGE_LIMIT: nat := 1000

  ghost predicate Recording(asked: seq<seq<Fill>>) {
    && (forall k | 0 <= k < |asked| :: NewestFirst(asked[k]))
    && (forall k | 0 < k < |asked| :: Grown(asked[k-1], asked[k]))
  }

  ghost predicate Repeating(served: seq<seq<Fill>>, asked: seq<seq<Fill>>)
    requires |served| == |asked|
  {
    forall k | 0 <= k < |asked| :: served[k] == FirstPage(asked[k], PAGE_LIMIT)
  }

  ghost predicate RecordOk(ignores: bool, served: seq<seq<Fill>>, asked: seq<seq<Fill>>, h: seq<Fill>) {
    && NewestFirst(h) && |served| == |asked|
    && (asked != [] ==> Grown(asked[|asked|-1], h))
    && Recording(asked)
    && (ignores ==> Repeating(served, asked))
  }

  lemma RecordWaits(ignores: bool, served: seq<seq<Fill>>, asked: seq<seq<Fill>>, h: seq<Fill>, arrived: seq<Fill>)
    requires RecordOk(ignores, served, asked, h) && NewestFirst(arrived + h)
    ensures RecordOk(ignores, served, asked, arrived + h) && Grown(h, arrived + h)
  {
    assert (arrived + h)[|arrived|..] == h;
    if asked != [] {
      GrownTwice(asked[|asked|-1], h, arrived + h);
    }
  }

  /** getFillHistory. New fills may arrive at any request. An obedient server answers with a page of
      any positive length from the newest fill at or before `end` downwards; the other kind ignores
      `end` and answers with its newest page. What was answered, and the history it was answered
      from, is recorded. */
  class Server {
    const ignoresEndTime: bool
    var history: seq<Fill>
    ghost var served: seq<seq<Fill>>
    ghost var asked: seq<seq<Fill>>

    constructor (history: seq<Fill>, ignoresEndTime: bool)
      requires NewestFirst(history)
      ensures this.history == history && this.ignoresEndTime == ignoresEndTime && served == [] && asked == []
    {
      this.history, this.ignoresEndTime, served, asked := history, ignoresEndTime, [], [];
    }

    /** The record: histories that only grew, and what a server that ignores `end` answers. */
    ghost predicate Consistent()
      reads this
    {
      RecordOk(ignoresEndTime, served, asked, history)
    }

    method Arrive()
      requires Consistent()
      modifies this`history
      ensures Consistent() && Grown(old(history), history)
    {
      var arrived: seq<Fill> := *;
      if NewestFirst(arrived + history) {
        RecordWaits(ignoresEndTime, served, asked, history, arrived);
        history := arrived + history;
      }
    }

    method Answer(end: Option<int>) returns (page: seq<Fill>)
      requires NewestFirst(history)
      ensures ignoresEndTime ==> page == FirstPage(history, PAGE_LIMIT)
      ensures !ignoresEndTime ==> page <= Visible(history, end) && (page == [] ==> Visible(history, end) == [])
    {
      if ignoresEndTime {
        return FirstPage(history, PAGE_LIMIT);
      }
      var visible := Visible(history, end);
      var n: int := *;
      if n <= 0 || n > PAGE_LIMIT {
        n := 1;
      }
      page := visible[..if n <= |visible| then n else |visible|];
    }

    method GetFillHistory(end: Option<int>) returns (page: seq<Fill>)
      requires Consistent()
      modifies this
      ensures Consistent() && Grown(old(history), history)
      ensures served == old(served) + [page] && asked == old(asked) + [history]
      ensures !ignoresEndTime ==> page <= Visible(history, end) && (page == [] ==> Visible(history, end) == [])
    {
      Arrive();
      page := Answer(end);
      RecordGrows(ignoresEndTime, served, asked, history, page);
      served, asked := served + [page], asked + [history];
    }
  }

  lemma RecordGrows(ignores: bool, served: seq<seq<Fill>>, asked: seq<seq<Fill>>, h: seq<Fill>, page: seq<Fill>)
    requires RecordOk(ignores, served, asked, h) && (ignores ==> page == FirstPage(h, PAGE_LIMIT))
    ensures RecordOk(ignores, served + [page], asked + [h], h)
  {
  }

  /** Every archived fill of the bot is at or before `since`. */
  ghost predicate Covers(a: Archive, botId: nat, since: int) {
    forall k | k in a && a[k].botId == botId :: k <= since
  }

  lemma Inhabited(s: set<int>)
    ensures s == {} || exists k :: k in s
  {
    if !exists k :: k in s {
      assert s == {};
    }
  }

  class Database {
    var fillsArchive: Archive

    constructor ()
      ensures fillsArchive == map[]
    {
      fillsArchive := map[];
    }

    /** Whether the insert added a row: insert-or-ignore on the fill id. */
    method InsertFillArchive(fillId: int, row: Row) returns (wasNew: bool)
      modifies this
      ensures wasNew <==> fillId !in old(fillsArchive)
      ensures fillsArchive == if wasNew then old(fillsArchive)[fillId := row] else old(fillsArchive)
    {
      wasNew := fillId !in fillsArchive;
      if wasNew {
        fillsArchive := fillsArchive[fillId := row];
      }
    }

    /** The newest archived time of a bot. */
    method GetLatestFillEventTimeForBot(botId: nat) returns (latest: Option<int>)
      ensures latest.None? ==> forall k | k in fillsArchive :: fillsArchive[k].botId != botId
      ensures latest.Some? ==> latest.value in fillsArchive && fillsArchive[latest.value].botId == botId
      ensures latest.Some? ==> Covers(fillsArchive, botId, latest.value)
    {
      latest := None;
      var rest := fillsArchive.Keys;
      while |rest| > 0
        invariant rest <= fillsArchive.Keys
        invariant latest.None? ==> forall k | k in fillsArchive && k !in rest :: fillsArchive[k].botId != botId
        invariant latest.Some? ==> latest.value in fillsArchive && fillsArchive[latest.value].botId == botId
        invariant latest.Some? ==>
          forall k | k in fillsArchive && k !in rest && fillsArchive[k].botId == botId :: k <= latest.value
        decreases |rest|
      {
        Inhabited(rest);
        var k :| k in rest;
        rest := rest - {k};
        if fillsArchive[k].botId == botId && (latest.None? || k > latest.value) {
          latest := Some(k);
        }
      }
    }
  }

  method ArchivePage(db: Database, batch: seq<Fill>, t: Target) returns (scanned: nat, added: seq<Fill>)
    modifies db
    ensures db.fillsArchive == Absorb(old(db.fillsArchive), batch, t)
    ensures added == NewOnes(old(db.fillsArchive), batch, t)
    ensures scanned == CountWanted(batch, t)
  {
    scanned, added := 0, [];
    for i := 0 to |batch|
      invariant db.fillsArchive == Absorb(old(db.fillsArchive), batch[..i], t)
      invariant added == NewOnes(old(db.fillsArchive), batch[..i], t)
      invariant scanned == CountWanted(batch[..i], t)
    {
      var f := batch[i];
      assert batch[..i+1][..i] == batch[..i];
      if f.time.None? || f.instrument != t.instrument || f.time.value <= t.since {
        continue;
      }
      scanned := scanned + 1;
      var wasNew := db.InsertFillArchive(f.time.value, RowOf(f, t));
      if wasNew {
        added := added + [f];
      }
    }
    assert batch[..|batch|] == batch;
  }

  // ----- the run

  const NANOS_PER_MS: int := 1_000_000

  function CapNs(nowMs: int, lookbackMs: int): int {
    (if nowMs - lookbackMs >= 0 then nowMs - lookbackMs else 0) * NANOS_PER_MS
  }

  /** A time lies behind the cap exactly when it is further back than the lookback. */
  lemma BehindCapExactlyWhen(time: int, nowMs: int, lookbackMs: int)
    requires time >= 0
    ensures time < CapNs(nowMs, lookbackMs) <==> time + lookbackMs * 1_000_000 < nowMs * 1_000_000
  {
  }

  ghost predicate HasRow(a: Archive, botId: nat) {
    exists k :: k in a && a[k].botId == botId
  }

  /** The later of the lookback cap and the bot's newest archived fill, or its creation when it has
      no archived fill. */
  ghost predicate StartsAt(a: Archive, botId: nat, capNs: int, createdMs: Option<int>, since: int) {
    var created := if HasRow(a, botId) then None else createdMs;
    && since >= capNs && Covers(a, botId, since)
    && (created.Some? ==> since >= created.value * NANOS_PER_MS)
    && (|| since == capNs
        || (since in a && a[since].botId == botId)
        || (created.Some? && since == created.value * NANOS_PER_MS))
  }

  /** Where a run starts. */
  method Watermark(db: Database, botId: nat, nowMs: int, lookbackMs: int, createdMs: Option<int>) returns (since: int)
    ensures StartsAt(db.fillsArchive, botId, CapNs(nowMs, lookbackMs), createdMs, since)
  {
    var back := if nowMs - lookbackMs >= 0 then nowMs - lookbackMs else 0;
    var capNs := back * NANOS_PER_MS;
    since := capNs;
    var lastArchived := db.GetLatestFillEventTimeForBot(botId);
    if lastArchived.Some? {
      since := if lastArchived.value > capNs then lastArchived.value else capNs;
    } else if createdMs.Some? {
      var createdNs := createdMs.value * NANOS_PER_MS;
      since := if createdNs > capNs then createdNs else capNs;
    }
  }

  function InsertByTime(f: Fill, s: seq<Fill>): (r: seq<Fill>)
    requires f.time.Some? && forall k | 0 <= k < |s| :: s[k].time.Some?
    ensures multiset(r) == multiset(s) + multiset{f}
    ensures forall k | 0 <= k < |r| :: r[k].time.Some?
  {
    if s == [] || f.time.value <= s[0].time.value then [f] + s
    else
      assert s == [s[0]] + s[1..];
      [s[0]] + InsertByTime(f, s[1..])
  }

  /** newFills sorted oldest first. */
  function OldestFirst(s: seq<Fill>): (r: seq<Fill>)
    requires forall k | 0 <= k < |s| :: s[k].time.Some?
    ensures multiset(r) == multiset(s)
    ensures forall k | 0 <= k < |r| :: r[k].time.Some?
  {
    if s == [] then []
    else
      assert s == [s[0]] + s[1..];
      InsertByTime(s[0], OldestFirst(s[1..]))
  }

  ghost predicate Rising(s: seq<Fill>) {
    && (forall k | 0 <= k < |s| :: s[k].time.Some?)
    && (forall j, k | 0 <= j < k < |s| :: s[j].time.value < s[k].time.value)
  }

  ghost predicate Distinct(s: seq<Fill>) {
    forall j, k | 0 <= j < k < |s| :: s[j].time != s[k].time
  }

  lemma {:induction false} InsertByTimeRises(f: Fill, s: seq<Fill>)
    requires f.time.Some? && Rising(s) && forall k | 0 <= k < |s| :: s[k].time != f.time
    ensures Rising(InsertByTime(f, s))
  {
    if s != [] && f.time.value > s[0].time.value {
      InsertByTimeRises(f, s[1..]);
      var r := InsertByTime(f, s[1..]);
      SameElements(r, s[1..] + [f]);
      forall k | 0 <= k < |r| ensures s[0].time.value < r[k].time.value {
        assert r[k] in s[1..] + [f];
      }
    }
  }

  lemma {:induction false} OldestFirstRises(s: seq<Fill>)
    requires (forall k | 0 <= k < |s| :: s[k].time.Some?) && Distinct(s)
    ensures Rising(OldestFirst(s))
  {
    if s != [] {
      OldestFirstRises(s[1..]);
      var r := OldestFirst(s[1..]);
      SameElements(r, s[1..]);
      forall k | 0 <= k < |r| ensures r[k].time != s[0].time {
        assert r[k] in s[1..];
        var j :| 0 <= j < |s[1..]| && s[1..][j] == r[k];
        assert s[j + 1] == r[k];
      }
      InsertByTimeRises(s[0], r);
    }
  }

  lemma RestIsIdle(a: Archive, base: seq<Fill>, n: nat, t: Target)
    requires n <= |base| && forall k | n <= k < |base| :: !Wanted(base[k], t)
    ensures Absorb(a, base[..n], t) == Absorb(a, base, t)
    ensures NewOnes(a, base[..n], t) == NewOnes(a, base, t)
  {
    assert base == base[..n] + base[n..];
    AbsorbAppend(a, base[..n], base[n..], t);
    NothingWanted(Absorb(a, base[..n], t), base[n..], t);
  }

  lemma GrownTwice(a: seq<Fill>, b: seq<Fill>, c: seq<Fill>)
    requires Grown(a, b) && Grown(b, c)
    ensures Grown(a, c)
  {
    var d := |c| - |a|;
    forall k | 0 <= k < |a| ensures c[d..][k] == a[k] {
      assert b[|b| - |a|..][k] == a[k];
      assert c[|c| - |b|..][|b| - |a| + k] == b[|b| - |a| + k];
    }
    assert c[d..] == a;
  }

  /** Against an obedient server: the fills seen so far are the newest n of `base`, the history at
      the first request, and the next request starts right below them. */
  ghost predicate Progress(history: seq<Fill>, base: seq<Fill>, seen: seq<Fill>, end: Option<int>) {
    && NewestFirst(base) && Grown(base, history)
    && 0 < |seen| <= |base| && seen == base[..|seen|]
    && end == Some(base[|seen|-1].time.value - 1)
  }

  /** The next page continues where the last one stopped, and is empty only at the very end. */
  ghost predicate Continues(base: seq<Fill>, seen: seq<Fill>, page: seq<Fill>) {
    seen + page <= base && (page == [] ==> seen == base)
  }

  lemma PrefixContinues(base: seq<Fill>, seen: seq<Fill>, page: seq<Fill>)
    requires seen <= base && page <= base[|seen|..] && (page == [] ==> base[|seen|..] == [])
    ensures Continues(base, seen, page)
  {
    assert base == seen + base[|seen|..];
    assert base[..|seen| + |page|] == seen + page;
  }

  lemma PageStart(history: seq<Fill>, grown: seq<Fill>, base: seq<Fill>, seen: seq<Fill>, end: Option<int>)
    requires Progress(history, base, seen, end) && Grown(history, grown) && NewestFirst(grown)
    ensures Grown(base, grown) && seen <= base && Visible(grown, end) == base[|seen|..]
  {
    GrownTwice(base, history, grown);
    NextPage(base, grown, |seen|);
  }

  /** Against an obedient server the stall guard never fires: the oldest time keeps falling. */
  lemma OldestFalls(base: seq<Fill>, seen: seq<Fill>, page: seq<Fill>)
    requires NewestFirst(base) && seen + page <= base && page != []
    ensures page[|page|-1].time.Some?
    ensures seen != [] ==> seen[|seen|-1].time.Some? && page[|page|-1].time.value < seen[|seen|-1].time.value
  {
    assert page[|page|-1] == base[|seen| + |page| - 1];
    if seen != [] {
      assert seen[|seen|-1] == base[|seen|-1];
    }
  }

  /** What has been archived, counted and collected is what the seen fills say. */
  ghost predicate Books(a0: Archive, a: Archive, seen: seq<Fill>, t: Target, scanned: nat, newFills: seq<Fill>) {
    && a == Absorb(a0, seen, t)
    && newFills == NewOnes(a0, seen, t)
    && scanned == CountWanted(seen, t)
  }

  lemma BooksGrow(a0: Archive, a: Archive, seen: seq<Fill>, t: Target, scanned: nat, newFills: seq<Fill>, page: seq<Fill>)
    requires Books(a0, a, seen, t, scanned, newFills)
    ensures Books(a0, Absorb(a, page, t), seen + page, t, scanned + CountWanted(page, t), newFills + NewOnes(a, page, t))
  {
    AbsorbAppend(a0, seen, page, t);
  }

  // ----- the pages of one run

  function Joined(pages: seq<seq<Fill>>): seq<Fill> {
    if pages == [] then [] else Joined(pages[..|pages|-1]) + pages[|pages|-1]
  }

  function OldestOf(page: seq<Fill>): Option<int> {
    if page == [] then None else page[|page|-1].time
  }

  /** The stall guard's reference before page k: the oldest time of the page before it. */
  function LastOldest(pages: seq<seq<Fill>>, k: nat): Option<int>
    requires k <= |pages|
  {
    if k == 0 then None else OldestOf(pages[k-1])
  }

  /** Neither empty nor without times nor a repetition: the page is gone through. */
  predicate Fresh(last: Option<int>, page: seq<Fill>) {
    OldestOf(page).Some? && last != OldestOf(page)
  }

  /** Page k neither ended the loop nor reached the watermark. */
  predicate WentOn(pages: seq<seq<Fill>>, k: nat, since: int)
    requires k < |pages|
  {
    Fresh(LastOldest(pages, k), pages[k]) && OldestOf(pages[k]).value > since
  }

  ghost predicate AllWentOn(pages: seq<seq<Fill>>, n: nat, since: int)
    requires n <= |pages|
  {
    forall k: nat | k < n :: WentOn(pages, k, since)
  }

  lemma {:induction false} JoinedIsLong(pages: seq<seq<Fill>>, n: nat, since: int)
    requires n <= |pages| && AllWentOn(pages, n, since)
    ensures |Joined(pages[..n])| >= n
    ensures n > 0 ==> OldestOf(Joined(pages[..n])) == OldestOf(pages[n-1])
  {
    if n > 0 {
      JoinedIsLong(pages, n - 1, since);
      assert pages[..n][..n-1] == pages[..n-1];
      assert WentOn(pages, n - 1, since);
    }
  }

  // ----- a server that ignores the end time

  /** Something arrived in between, and the grown history no longer fits one page. */
  predicate Moved(before: seq<Fill>, after: seq<Fill>) {
    |after| > |before| && |after| > PAGE_LIMIT
  }

  /** Repeating its newest page gives such a server away at the next request exactly when nothing
      arrived in between or the grown history still fits one page. */
  lemma RepeatDetected(before: seq<Fill>, after: seq<Fill>)
    requires NewestFirst(before) && NewestFirst(after) && Grown(before, after) && before != []
    ensures OldestOf(FirstPage(before, PAGE_LIMIT)) == OldestOf(FirstPage(after, PAGE_LIMIT)) <==> !Moved(before, after)
  {
    var d := |after| - |before|;
    var i := if |before| <= PAGE_LIMIT then |before| - 1 else PAGE_LIMIT - 1;
    var j := if |after| <= PAGE_LIMIT then |after| - 1 else PAGE_LIMIT - 1;
    assert FirstPage(before, PAGE_LIMIT)[i] == after[d..][i] == after[d + i];
    assert FirstPage(after, PAGE_LIMIT)[j] == after[j];
    assert after[d + i].time == after[j].time <==> d + i == j;
  }

  function OneFill(time: int): Fill {
    Fill(Some(time), 0, true, 1.0, 1.0, 0.0)
  }

  /** One fill a nanosecond, the newest first. */
  function Steady(n: nat): (h: seq<Fill>)
    ensures |h| == n && NewestFirst(h)
  {
    seq(n, k requires 0 <= k < n => OneFill(n - k))
  }

  /** On an account whose history fills a page, one arrival hides the repetition. */
  lemma FullPageHides()
    ensures exists before: seq<Fill>, after: seq<Fill> ::
      && NewestFirst(before) && NewestFirst(after) && Grown(before, after) && |after| == |before| + 1
      && Fresh(OldestOf(FirstPage(before, PAGE_LIMIT)), FirstPage(after, PAGE_LIMIT))
  {
    var before, after := Steady(PAGE_LIMIT), Steady(PAGE_LIMIT + 1);
    assert after[1..] == before;
    RepeatDetected(before, after);
    assert NewestFirst(before) && NewestFirst(after) && Grown(before, after);
  }

  // ----- where the loop stands

  /** One run: the history when it began, and the histories and pages of its answers. */
  datatype Walk = Walk(start: seq<Fill>, asked: seq<seq<Fill>>, served: seq<seq<Fill>>)

  function Latest(w: Walk): seq<Fill> {
    if w.asked == [] then w.start else w.asked[|w.asked|-1]
  }

  /** The history at the first request. */
  function Base(w: Walk): seq<Fill> {
    if w.asked == [] then w.start else w.asked[0]
  }

  function Answered(w: Walk, h: seq<Fill>, page: seq<Fill>): Walk {
    Walk(w.start, w.asked + [h], w.served + [page])
  }

  /** What an obedient server's histories are. */
  ghost predicate WalkOk(w: Walk) {
    && NewestFirst(w.start) && NewestFirst(Base(w)) && NewestFirst(Latest(w))
    && Grown(w.start, Base(w)) && Grown(Base(w), Latest(w))
  }

  /** Before a request: every page so far was gone through, and an obedient server goes on below. */
  ghost predicate At(ignores: bool, w: Walk, end: Option<int>, last: Option<int>, since: int) {
    && |w.asked| == |w.served| && AllWentOn(w.served, |w.served|, since) && last == LastOldest(w.served, |w.served|)
    && (w.served == [] ==> end.None?)
    && (!ignores ==> WalkOk(w) && (w.served != [] ==> Progress(Latest(w), Base(w), Joined(w.served), end)))
  }

  /** After an answer, before anything is done with it. */
  ghost predicate Got(ignores: bool, w: Walk, since: int) {
    && |w.asked| == |w.served| && w.served != [] && AllWentOn(w.served, |w.served| - 1, since)
    && (!ignores ==> WalkOk(w) && GotBelow(w))
  }

  ghost predicate GotBelow(w: Walk)
    requires w.served != []
  {
    var n := |w.served| - 1;
    && Continues(Base(w), Joined(w.served[..n]), w.served[n])
    && (w.served[n] != [] ==> Fresh(LastOldest(w.served, n), w.served[n]))
  }

  lemma StillWentOn(pages: seq<seq<Fill>>, page: seq<Fill>, since: int)
    requires AllWentOn(pages, |pages|, since)
    ensures AllWentOn(pages + [page], |pages|, since)
  {
    forall k: nat | k < |pages| ensures WentOn(pages + [page], k, since) {
      assert WentOn(pages, k, since);
    }
  }

  lemma WalkGoesOn(w: Walk, h: seq<Fill>, page: seq<Fill>)
    requires WalkOk(w) && NewestFirst(h) && Grown(Latest(w), h)
    ensures WalkOk(Answered(w, h, page))
  {
    if w.asked != [] {
      GrownTwice(Base(w), Latest(w), h);
    }
  }

  lemma ObedientAnswer(w: Walk, h: seq<Fill>, page: seq<Fill>, end: Option<int>, since: int)
    requires At(false, w, end, LastOldest(w.served, |w.served|), since) && NewestFirst(h) && Grown(Latest(w), h)
    requires page <= Visible(h, end) && (page == [] ==> Visible(h, end) == [])
    ensures Continues(Base(Answered(w, h, page)), Joined(w.served), page)
    ensures page != [] ==> OldestOf(page).Some? && Fresh(LastOldest(w.served, |w.served|), page)
  {
    var base, seen := Base(Answered(w, h, page)), Joined(w.served);
    if w.served != [] {
      PageStart(Latest(w), h, base, seen, end);
      JoinedIsLong(w.served, |w.served|, since);
      assert w.served[..|w.served|] == w.served;
    }
    PrefixContinues(base, seen, page);
    if page != [] {
      OldestFalls(base, seen, page);
    }
  }

  lemma AnswerGot(ignores: bool, w: Walk, h: seq<Fill>, page: seq<Fill>, end: Option<int>, last: Option<int>, since: int)
    requires At(ignores, w, end, last, since) && NewestFirst(h) && Grown(Latest(w), h)
    requires !ignores ==> page <= Visible(h, end) && (page == [] ==> Visible(h, end) == [])
    ensures Got(ignores, Answered(w, h, page), since)
  {
    StillWentOn(w.served, page, since);
    assert Answered(w, h, page).served[..|w.served|] == w.served;
    if !ignores {
      WalkGoesOn(w, h, page);
      ObedientAnswer(w, h, page, end, since);
    }
  }

  /** The server's record of this run. */
  ghost predicate Recorded(client: Server, served: seq<seq<Fill>>, asked: seq<seq<Fill>>, w: Walk)
    reads client
  {
    client.served == served + w.served && client.asked == asked + w.asked && client.history == Latest(w)
  }

  /** A finished run. The cap ended it exactly when even its last page was gone through; every page
      but possibly the last was looked at, the last one when it was not empty or a repetition. An
      obedient server leaves nothing above the watermark unseen on any other exit. */
  ghost predicate Finished(ignores: bool, w: Walk, seen: seq<Fill>, capped: bool, maxBatches: nat, since: int) {
    && |w.asked| == |w.served| && 0 < |w.served| <= maxBatches
    && var n := |w.served| - 1;
    && AllWentOn(w.served, n, since)
    && (capped <==> WentOn(w.served, n, since)) && (capped ==> |w.served| == maxBatches)
    && seen == Joined(if Fresh(LastOldest(w.served, n), w.served[n]) then w.served else w.served[..n])
    && (!ignores ==> WalkOk(w) && seen <= Base(w) && (!capped ==> Exhausted(Base(w), seen, since)))
  }

  ghost predicate Exhausted(base: seq<Fill>, seen: seq<Fill>, since: int) {
    forall k | |seen| <= k < |base| :: base[k].time.Some? && base[k].time.value <= since
  }

  lemma AllSeen(base: seq<Fill>, seen: seq<Fill>, since: int)
    requires NewestFirst(base) && seen <= base && seen != []
    requires OldestOf(seen).Some? && OldestOf(seen).value <= since
    ensures Exhausted(base, seen, since)
  {
    assert seen[|seen|-1] == base[|seen|-1];
  }

  lemma OldestOfJoined(pages: seq<seq<Fill>>)
    requires pages != [] && pages[|pages|-1] != []
    ensures Joined(pages) != [] && OldestOf(Joined(pages)) == OldestOf(pages[|pages|-1])
  {
  }

  /** The loop breaks on an empty page or a repetition. */
  lemma BreakEarly(ignores: bool, w: Walk, maxBatches: nat, since: int)
    requires Got(ignores, w, since) && |w.served| <= maxBatches
    requires !Fresh(LastOldest(w.served, |w.served| - 1), w.served[|w.served|-1])
    ensures Finished(ignores, w, Joined(w.served[..|w.served|-1]), false, maxBatches, since)
  {
  }

  /** The loop breaks at the watermark. */
  lemma BreakBelow(ignores: bool, w: Walk, maxBatches: nat, since: int)
    requires Got(ignores, w, since) && |w.served| <= maxBatches
    requires Fresh(LastOldest(w.served, |w.served| - 1), w.served[|w.served|-1])
    requires OldestOf(w.served[|w.served|-1]).value <= since
    ensures Finished(ignores, w, Joined(w.served), false, maxBatches, since)
  {
    if !ignores {
      OldestOfJoined(w.served);
      AllSeen(Base(w), Joined(w.served), since);
    }
  }

  lemma AllOfThem(pages: seq<seq<Fill>>, since: int)
    requires pages != [] && AllWentOn(pages, |pages| - 1, since) && WentOn(pages, |pages| - 1, since)
    ensures AllWentOn(pages, |pages|, since)
  {
    forall k: nat | k < |pages| ensures WentOn(pages, k, since) {
      assert k == |pages| - 1 || WentOn(pages, k, since);
    }
  }

  lemma ObedientGoesOn(base: seq<Fill>, h: seq<Fill>, pages: seq<seq<Fill>>)
    requires pages != [] && pages[|pages|-1] != [] && OldestOf(pages[|pages|-1]).Some?
    requires NewestFirst(base) && Grown(base, h) && Joined(pages) <= base
    ensures Progress(h, base, Joined(pages), Some(OldestOf(pages[|pages|-1]).value - 1))
  {
    OldestOfJoined(pages);
    var seen := Joined(pages);
    assert seen[|seen|-1] == base[|seen|-1];
  }

  lemma AtAgain(ignores: bool, w: Walk, end: Option<int>, since: int)
    requires |w.asked| == |w.served| && w.served != [] && AllWentOn(w.served, |w.served|, since)
    requires !ignores ==> WalkOk(w) && Progress(Latest(w), Base(w), Joined(w.served), end)
    ensures At(ignores, w, end, OldestOf(w.served[|w.served|-1]), since)
  {
  }

  lemma GotSeen(w: Walk)
    requires w.served != [] && GotBelow(w)
    ensures Joined(w.served) <= Base(w)
  {
  }

  /** The loop goes on. */
  lemma GoesOn(ignores: bool, w: Walk, since: int)
    requires |w.asked| == |w.served| && w.served != [] && AllWentOn(w.served, |w.served|, since)
    requires WentOn(w.served, |w.served| - 1, since)
    requires !ignores ==> WalkOk(w) && Joined(w.served) <= Base(w)
    ensures var oldest := OldestOf(w.served[|w.served|-1]); At(ignores, w, Some(oldest.value - 1), oldest, since)
  {
    if !ignores {
      ObedientGoesOn(Base(w), Latest(w), w.served);
    }
    AtAgain(ignores, w, Some(OldestOf(w.served[|w.served|-1]).value - 1), since);
  }

  lemma ReachesCap(ignores: bool, w: Walk, end: Option<int>, last: Option<int>, since: int)
    requires At(ignores, w, end, last, since) && w.served != []
    ensures Finished(ignores, w, Joined(w.served), true, |w.served|, since)
  {
    assert WentOn(w.served, |w.served| - 1, since);
  }

  method ArchiveBatch(
    db: Database, batch: seq<Fill>, t: Target, scanned: nat, newFills: seq<Fill>, ghost a0: Archive, ghost seen: seq<Fill>)
    returns (scanned': nat, newFills': seq<Fill>)
    requires Books(a0, db.fillsArchive, seen, t, scanned, newFills)
    modifies db
    ensures Books(a0, db.fillsArchive, seen + batch, t, scanned', newFills')
  {
    BooksGrow(a0, db.fillsArchive, seen, t, scanned, newFills, batch);
    var count, added := ArchivePage(db, batch, t);
    scanned', newFills' := scanned + count, newFills + added;
  }

  /** What a turn leaves: the next standing point, or a finished run. */
  ghost predicate Turned(
    ignores: bool, done: bool, w: Walk, seen: seq<Fill>, end: Option<int>, last: Option<int>, maxBatches: nat, since: int)
  {
    if done then Finished(ignores, w, seen, false, maxBatches, since)
    else At(ignores, w, end, last, since) && w.served != [] && seen == Joined(w.served)
  }

  lemma AfterPage(ignores: bool, w: Walk, maxBatches: nat, since: int)
    requires Got(ignores, w, since) && |w.served| <= maxBatches
    requires Fresh(LastOldest(w.served, |w.served| - 1), w.served[|w.served|-1])
    ensures var oldest := OldestOf(w.served[|w.served|-1]);
      Turned(ignores, oldest.value <= since, w, Joined(w.served), Some(oldest.value - 1), oldest, maxBatches, since)
  {
    if OldestOf(w.served[|w.served|-1]).value <= since {
      BreakBelow(ignores, w, maxBatches, since);
    } else {
      AllOfThem(w.served, since);
      if !ignores {
        GotSeen(w);
      }
      GoesOn(ignores, w, since);
    }
  }

  lemma AppendLast(a: seq<seq<Fill>>, b: seq<seq<Fill>>, x: seq<Fill>)
    ensures a + b + [x] == a + (b + [x])
  {
  }

  /** The record ends with this page, and the one before it is the stall guard's reference. */
  ghost predicate Ends(after: seq<seq<Fill>>, before: seq<seq<Fill>>, page: seq<Fill>, last: Option<int>) {
    && |after| == |before| + 1 && after[|before|] == page && after[..|before|] == before
    && LastOldest(after, |before|) == last
  }

  lemma AnsweredEnds(w: Walk, h: seq<Fill>, page: seq<Fill>)
    ensures Ends(Answered(w, h, page).served, w.served, page, LastOldest(w.served, |w.served|))
  {
  }

  method Ask(client: Server, end: Option<int>, ghost w: Walk, ghost served: seq<seq<Fill>>, ghost asked: seq<seq<Fill>>)
    returns (page: seq<Fill>, ghost next: Walk)
    requires client.Consistent() && Recorded(client, served, asked, w)
    modifies client
    ensures client.Consistent() && next == Answered(w, client.history, page) && Recorded(client, served, asked, next)
    ensures Grown(Latest(w), client.history)
    ensures !client.ignoresEndTime ==>
      page <= Visible(client.history, end) && (page == [] ==> Visible(client.history, end) == [])
  {
    page := client.GetFillHistory(end);
    next := Answered(w, client.history, page);
    AppendLast(served, w.served, page);
    AppendLast(asked, w.asked, client.history);
  }

  method Request(
    client: Server, end: Option<int>, ghost w: Walk, ghost last: Option<int>, ghost since: int,
    ghost served: seq<seq<Fill>>, ghost asked: seq<seq<Fill>>)
    returns (page: seq<Fill>, ghost next: Walk)
    requires At(client.ignoresEndTime, w, end, last, since)
    requires client.Consistent() && Recorded(client, served, asked, w)
    modifies client
    ensures client.Consistent() && next == Answered(w, client.history, page) && Recorded(client, served, asked, next)
    ensures Got(client.ignoresEndTime, next, since)
    ensures Ends(next.served, w.served, page, last)
  {
    page, next := Ask(client, end, w, served, asked);
    AnsweredEnds(w, client.history, page);
    AnswerGot(client.ignoresEndTime, w, client.history, page, end, last, since);
  }

  /** The rest of a turn after the page that ends the run's record. */
  method Digest(
    db: Database, t: Target, batch: seq<Fill>, last: Option<int>, scanned: nat, newFills: seq<Fill>,
    ghost a0: Archive, ghost ignores: bool, ghost w: Walk, ghost maxBatches: nat)
    returns (done: bool, oldest: Option<int>, scanned': nat, newFills': seq<Fill>, ghost seen: seq<Fill>)
    requires Got(ignores, w, t.since) && |w.served| <= maxBatches
    requires batch == w.served[|w.served|-1] && last == LastOldest(w.served, |w.served| - 1)
    requires Books(a0, db.fillsArchive, Joined(w.served[..|w.served|-1]), t, scanned, newFills)
    modifies db
    ensures Books(a0, db.fillsArchive, seen, t, scanned', newFills')
    ensures oldest.None? ==> done
    ensures Turned(ignores, done, w, seen, if done then None else Some(oldest.value - 1), oldest, maxBatches, t.since)
  {
    oldest, scanned', newFills', seen := OldestOf(batch), scanned, newFills, Joined(w.served[..|w.served|-1]);
    if batch == [] || oldest.None? || (last.Some? && last == oldest) {
      BreakEarly(ignores, w, maxBatches, t.since);
      done := true;
      return;
    }
    AfterPage(ignores, w, maxBatches, t.since);
    scanned', newFills' := ArchiveBatch(db, batch, t, scanned, newFills, a0, seen);
    seen := seen + batch;
    done := oldest.value <= t.since;
  }

  /** One turn of the paging loop; `done` tells that it breaks. */
  method Turn(
    client: Server, db: Database, t: Target, end: Option<int>, last: Option<int>, scanned: nat, newFills: seq<Fill>,
    ghost a0: Archive, ghost w: Walk, ghost maxBatches: nat, ghost served: seq<seq<Fill>>, ghost asked: seq<seq<Fill>>)
    returns (
      done: bool, end': Option<int>, last': Option<int>, scanned': nat, newFills': seq<Fill>,
      ghost w': Walk, ghost seen: seq<Fill>)
    requires Books(a0, db.fillsArchive, Joined(w.served), t, scanned, newFills)
    requires At(client.ignoresEndTime, w, end, last, t.since) && |w.served| < maxBatches
    requires client.Consistent() && Recorded(client, served, asked, w)
    modifies client, db
    ensures client.Consistent()
    ensures |w'.served| == |w.served| + 1 && w'.start == w.start && Recorded(client, served, asked, w')
    ensures Books(a0, db.fillsArchive, seen, t, scanned', newFills')
    ensures Turned(client.ignoresEndTime, done, w', seen, end', last', maxBatches, t.since)
  {
    var batch;
    batch, w' := Request(client, end, w, last, t.since, served, asked);
    done, last', scanned', newFills', seen :=
      Digest(db, t, batch, last, scanned, newFills, a0, client.ignoresEndTime, w', maxBatches);
    end' := if done then None else Some(last'.value - 1);
  }

  /** Paging backwards, with at least one batch allowed. `seen` are the fills looked at, `w` is the
      run as the server has it, and `capped` tells that the batch cap ended the loop. */
  method PageBackwards(client: Server, db: Database, t: Target, maxBatches: nat)
    returns (scanned: nat, newFills: seq<Fill>, ghost seen: seq<Fill>, ghost w: Walk, ghost capped: bool)
    requires client.Consistent() && maxBatches > 0
    modifies client, db
    ensures Books(old(db.fillsArchive), db.fillsArchive, seen, t, scanned, newFills)
    ensures w.start == old(client.history)
    ensures client.Consistent() && Recorded(client, old(client.served), old(client.asked), w)
    ensures Finished(client.ignoresEndTime, w, seen, capped, maxBatches, t.since)
  {
    ghost var a0, served, asked := db.fillsArchive, client.served, client.asked;
    var endTime: Option<int> := None;
    var lastOldest: Option<int> := None;
    scanned, newFills, w := 0, [], Walk(client.history, [], []);
    for batchNo := 0 to maxBatches
      invariant w.start == old(client.history) && |w.served| == batchNo
      invariant client.Consistent() && Recorded(client, old(client.served), old(client.asked), w)
      invariant Books(a0, db.fillsArchive, Joined(w.served), t, scanned, newFills)
      invariant At(client.ignoresEndTime, w, endTime, lastOldest, t.since)
    {
      var done;
      done, endTime, lastOldest, scanned, newFills, w, seen :=
        Turn(client, db, t, endTime, lastOldest, scanned, newFills, a0, w, maxBatches, served, asked);
      if done {
        capped := false;
        return;
      }
    }
    capped, seen := true, Joined(w.served);
    ReachesCap(client.ignoresEndTime, w, endTime, lastOldest, t.since);
  }

  /** The result lists one fill per added row, oldest first. */
  ghost predicate Reported(before: Archive, after: Archive, newFills: seq<Fill>) {
    && Rising(newFills) && |after| == |before| + |newFills|
    && forall f | f in newFills :: f.time.value !in before && f.time.value in after
  }

  lemma SortedBatch(a: Archive, fills: seq<Fill>, t: Target)
    ensures |OldestFirst(NewOnes(a, fills, t))| == |NewOnes(a, fills, t)|
    ensures Reported(a, Absorb(a, fills, t), OldestFirst(NewOnes(a, fills, t)))
  {
    var n := NewOnes(a, fills, t);
    var r := OldestFirst(n);
    NewOnesAreNew(a, fills, t);
    OldestFirstRises(n);
    SameElements(r, n);
    assert |multiset(r)| == |r| && |multiset(n)| == |n|;
    forall f | f in r ensures f.time.value !in a && f.time.value in Absorb(a, fills, t) {
      var k :| 0 <= k < |n| && n[k] == f;
    }
  }

  lemma SeenIsEnough(a: Archive, base: seq<Fill>, seen: seq<Fill>, t: Target)
    requires seen <= base && Exhausted(base, seen, t.since)
    ensures Absorb(a, seen, t) == Absorb(a, base, t)
  {
    assert seen == base[..|seen|];
    RestIsIdle(a, base, |seen|, t);
  }

  /** The archive after a run: the fills looked at, and after any exit but the cap everything that an
      obedient server's history held at the first request. */
  ghost predicate Archived(ignores: bool, w: Walk, seen: seq<Fill>, capped: bool, before: Archive, after: Archive, t: Target) {
    && after == Absorb(before, seen, t)
    && (!ignores && !capped ==> after == Absorb(before, Base(w), t))
    && (!ignores && capped ==> |seen| >= |w.served| && OldestOf(seen).Some? && OldestOf(seen).value > t.since)
  }

  lemma ArchivedAll(ignores: bool, w: Walk, seen: seq<Fill>, capped: bool, maxBatches: nat, before: Archive, t: Target)
    requires Finished(ignores, w, seen, capped, maxBatches, t.since)
    ensures Archived(ignores, w, seen, capped, before, Absorb(before, seen, t), t)
  {
    if !ignores && !capped {
      SeenIsEnough(before, Base(w), seen, t);
    }
    if capped {
      JoinedIsLong(w.served, |w.served|, t.since);
      assert w.served[..|w.served|] == w.served;
    }
  }

  /** The part of a consistent record that belongs to a run. */
  lemma RunRecord(served0: seq<seq<Fill>>, asked0: seq<seq<Fill>>, w: Walk, h: seq<Fill>)
    requires |w.served| == |w.asked| && RecordOk(true, served0 + w.served, asked0 + w.asked, h)
    ensures Recording(w.asked) && Repeating(w.served, w.asked)
  {
    hide NewestFirst, Grown, FirstPage;
    var n, all := |asked0|, asked0 + w.asked;
    assert |served0| == n;
    forall k | 0 <= k < |w.asked| ensures NewestFirst(w.asked[k]) {
      assert w.asked[k] == all[n + k];
    }
    forall k | 0 <= k < |w.asked| ensures w.served[k] == FirstPage(w.asked[k], PAGE_LIMIT) {
      assert w.asked[k] == all[n + k] && w.served[k] == (served0 + w.served)[n + k];
    }
    forall k | 0 < k < |w.asked| ensures Grown(w.asked[k-1], w.asked[k]) {
      assert w.asked[k-1] == all[n + k - 1] && w.asked[k] == all[n + k];
    }
  }

  /** backfillFills up to the processing of the new fills. Any exit but the cap leaves the archive
      as if the whole history at the first request had been inserted; the cap means that every one
      of its requests was made and answered with fills newer than the watermark. */
  method BackfillFills(
    client: Server, db: Database, botId: nat, instrument: nat, nowMs: int, lookbackMs: int, createdMs: Option<int>,
    maxBatches: nat)
    returns (
      scanned: nat, inserted: nat, newFills: seq<Fill>,
      ghost t: Target, ghost seen: seq<Fill>, ghost w: Walk, ghost capped: bool)
    requires client.Consistent() && maxBatches > 0
    modifies client, db
    ensures t.botId == botId && t.instrument == instrument
    ensures StartsAt(old(db.fillsArchive), botId, CapNs(nowMs, lookbackMs), createdMs, t.since)
    ensures w.start == old(client.history)
    ensures client.Consistent() && Recorded(client, old(client.served), old(client.asked), w)
    ensures Finished(client.ignoresEndTime, w, seen, capped, maxBatches, t.since)
    ensures client.ignoresEndTime ==> Recording(w.asked) && Repeating(w.served, w.asked)
    ensures Archived(client.ignoresEndTime, w, seen, capped, old(db.fillsArchive), db.fillsArchive, t)
    ensures inserted == |newFills| && Reported(old(db.fillsArchive), db.fillsArchive, newFills)
    ensures scanned == CountWanted(seen, t)
  {
    var since := Watermark(db, botId, nowMs, lookbackMs, createdMs);
    var target := Target(botId, instrument, since);
    t := target;
    ghost var a0 := db.fillsArchive;
    ghost var served, asked := client.served, client.asked;
    scanned, newFills, seen, w, capped := PageBackwards(client, db, target, maxBatches);
    if client.ignoresEndTime {
      RunRecord(served, asked, w, client.history);
    }
    inserted := |newFills|;
    newFills := OldestFirst(newFills);
    SortedBatch(a0, seen, t);
    ArchivedAll(client.ignoresEndTime, w, seen, capped, maxBatches, a0, t);
  }

  /** Against a server that ignores the end time: the request after the k-th is the last one exactly
      when nothing arrived in between or the grown history still fits one page, unless the page
      reached the watermark or the cap ended the run there. */
  lemma IgnoredEndTimeIsNoticed(w: Walk, seen: seq<Fill>, capped: bool, maxBatches: nat, since: int, k: nat)
    requires Finished(true, w, seen, capped, maxBatches, since) && Recording(w.asked) && Repeating(w.served, w.asked)
    requires 0 < k < |w.served| && w.asked[k-1] != []
    ensures !Moved(w.asked[k-1], w.asked[k]) <==> k == |w.served| - 1 && !Fresh(LastOldest(w.served, k), w.served[k])
    ensures !Moved(w.asked[k-1], w.asked[k]) ==> !capped && seen == Joined(w.served[..k])
  {
    RepeatDetected(w.asked[k-1], w.asked[k]);
    if k < |w.served| - 1 {
      assert WentOn(w.served, k, since);
    }
  }

  /** After such an exit a fill of the pair is archived exactly when it was before or is newer than
      the watermark, and a new row is the row of that fill. */
  lemma CompleteRun(a: Archive, base: seq<Fill>, t: Target, i: nat)
    requires NewestFirst(base) && i < |base| && base[i].instrument == t.instrument
    ensures var time := base[i].time.value;
      && (time in Absorb(a, base, t) <==> time in a || time > t.since)
      && (time in a ==> Absorb(a, base, t)[time] == a[time])
      && (time !in a && time > t.since ==> Records(Absorb(a, base, t)[time], base[i], t))
  {
    var time := base[i].time.value;
    AbsorbMeaning(a, base, t, time);
    if time > t.since {
      assert Wanted(base[i], t);
      if time !in a {
        var k :| 0 <= k < |base| && base[k].time == Some(time) && Records(Absorb(a, base, t)[time], base[k], t);
        assert k == i;
      }
    }
  }

  /** A later backfill: the fills it saw, and its watermark. */
  datatype Pass = Pass(fills: seq<Fill>, since: int)

  function After(a: Archive, passes: seq<Pass>, botId: nat, instrument: nat): Archive {
    if passes == [] then a
    else
      var p := passes[|passes|-1];
      Absorb(After(a, passes[..|passes|-1], botId, instrument), p.fills, Target(botId, instrument, p.since))
  }

  /** Each pass starts from a watermark computed on the archive it finds. */
  ghost predicate Watermarked(a: Archive, passes: seq<Pass>, botId: nat, instrument: nat) {
    forall k | 0 <= k < |passes| :: Covers(After(a, passes[..k], botId, instrument), botId, passes[k].since)
  }

  /** What a capped run, or a live poll that archives a newer fill first, leaves out stays out:
      no later backfill of the bot ever looks below the bot's newest archived fill. */
  lemma {:induction false} HoleStaysOpen(
    a: Archive, passes: seq<Pass>, botId: nat, instrument: nat, hole: int, newer: int)
    requires Watermarked(a, passes, botId, instrument)
    requires hole !in a && hole <= newer && newer in a && a[newer].botId == botId
    ensures hole !in After(a, passes, botId, instrument)
    ensures newer in After(a, passes, botId, instrument) && After(a, passes, botId, instrument)[newer] == a[newer]
  {
    if passes != [] {
      var n := |passes| - 1;
      forall k | 0 <= k < n ensures Covers(After(a, passes[..n][..k], botId, instrument), botId, passes[..n][k].since) {
        assert passes[..n][..k] == passes[..k];
      }
      HoleStaysOpen(a, passes[..n], botId, instrument, hole, newer);
      var t := Target(botId, instrument, passes[n].since);
      AbsorbMeaning(After(a, passes[..n], botId, instrument), passes[n].fills, t, hole);
      AbsorbMeaning(After(a, passes[..n], botId, instrument), passes[n].fills, t, newer);
    }
  }
}
