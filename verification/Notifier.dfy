/**
 Batched round-trip notifications: every user has a cursor into one shared, append-only log,
 and each poll reads a limited window of the log that starts at the smallest cursor.
 */
module Notifier {
  import opened Options

  /** A round-trip row; a missing owner counts as user 1. */
  datatype Row = Row(id: nat, userId: Option<nat>)

  function Owner(r: Row): nat {
    match r.userId
    case Some(u) => u
    case None => 1
  }

  predicate Below(rows: seq<Row>, id: int) {
    forall k | 0 <= k < |rows| :: rows[k].id < id
  }

  /** Ids rise along the log. */
  ghost predicate IsLog(log: seq<Row>) {
    log != [] ==> IsLog(log[..|log|-1]) && Below(log[..|log|-1], log[|log|-1].id)
  }

  lemma {:induction false} LogSplit(a: seq<Row>, b: seq<Row>)
    requires IsLog(a + b)
    ensures IsLog(a) && IsLog(b)
    ensures forall k | 0 <= k < |b| :: Below(a, b[k].id)
  {
    if b == [] {
      assert a + b == a;
    } else {
      var c, last := b[..|b|-1], b[|b|-1];
      assert (a + b)[..|a + b|-1] == a + c && (a + b)[|a + b|-1] == last;
      LogSplit(a, c);
      BelowBoth(a, c, last.id);
      assert forall k | 0 <= k < |c| :: b[k] == c[k];
    }
  }

  lemma BelowBoth(a: seq<Row>, c: seq<Row>, id: int)
    requires Below(a + c, id)
    ensures Below(a, id) && Below(c, id)
  {
    assert forall k | 0 <= k < |a| :: (a + c)[k] == a[k];
    assert forall k | 0 <= k < |c| :: (a + c)[|a|+k] == c[k];
  }

  /** The rows of u with lo < id <= hi, in log order. */
  function Pick(rows: seq<Row>, u: nat, lo: int, hi: int): (r: seq<Row>)
    ensures forall k | 0 <= k < |r| :: Owner(r[k]) == u && lo < r[k].id <= hi
    ensures |r| <= |rows|
  {
    if rows == [] then []
    else
      var last := rows[|rows|-1];
      var r := Pick(rows[..|rows|-1], u, lo, hi);
      if Owner(last) == u && lo < last.id <= hi then r + [last] else r
  }

  /** The rows of u past lo, in log order. */
  function Fresh(rows: seq<Row>, u: nat, lo: int): (r: seq<Row>)
    ensures forall k | 0 <= k < |r| :: Owner(r[k]) == u && lo < r[k].id && r[k] in rows
  {
    if rows == [] then []
    else
      var last := rows[|rows|-1];
      var r := Fresh(rows[..|rows|-1], u, lo);
      if Owner(last) == u && lo < last.id then r + [last] else r
  }

  /** The rows past `since`: WHERE id > since ORDER BY id. */
  function Since(log: seq<Row>, since: int): (r: seq<Row>)
    ensures forall k | 0 <= k < |r| :: since < r[k].id
  {
    if log == [] then []
    else
      var r := Since(log[..|log|-1], since);
      if since < log[|log|-1].id then r + [log[|log|-1]] else r
  }

  /** ... LIMIT limit. */
  function WindowOf(log: seq<Row>, since: int, limit: nat): seq<Row> {
    var r := Since(log, since);
    if |r| <= limit then r else r[..limit]
  }

  ghost predicate IsMin(cursors: map<nat, int>, m: int) {
    if cursors == map[] then m == 0
    else (exists u :: u in cursors && cursors[u] == m) && forall u | u in cursors :: m <= cursors[u]
  }

  function CursorOf(cursors: map<nat, int>, u: nat): int {
    if u in cursors then cursors[u] else 0
  }

  /** What one poll that read `window` sends to u: nothing below the threshold. */
  function BatchFor(cursors: map<nat, int>, window: seq<Row>, u: nat, threshold: nat): seq<Row> {
    var rows := Fresh(window, u, CursorOf(cursors, u));
    if |rows| >= threshold then rows else []
  }

  // ----- windows are prefixes

  /** What lies before the rows past `since`. */
  lemma {:induction false} SinceParts(log: seq<Row>, since: int) returns (a: seq<Row>)
    requires IsLog(log)
    ensures log == a + Since(log, since)
    ensures forall k | 0 <= k < |a| :: a[k].id <= since
  {
    a := [];
    if log != [] {
      var t, last := log[..|log|-1], log[|log|-1];
      if last.id <= since {
        SinceNone(t, since);
        a := log;
      } else {
        a := SinceParts(t, since);
        assert log == t + [last];
      }
    }
  }

  lemma {:induction false} SinceNone(rows: seq<Row>, since: int)
    requires forall k | 0 <= k < |rows| :: rows[k].id <= since
    ensures Since(rows, since) == []
  {
    if rows != [] {
      SinceNone(rows[..|rows|-1], since);
    }
  }

  lemma {:induction false} SinceGrows(log: seq<Row>, more: seq<Row>, since: int)
    ensures Since(log + more, since) == Since(log, since) + Since(more, since)
  {
    if more == [] {
      assert log + more == log;
    } else {
      assert (log + more)[..|log + more|-1] == log + more[..|more|-1];
      SinceGrows(log, more[..|more|-1], since);
    }
  }

  /** Reading a window that reaches up to its last id misses no row of u in between. */
  lemma {:induction false} FreshIsPick(rows: seq<Row>, u: nat, lo: int, hi: int)
    requires forall k | 0 <= k < |rows| :: rows[k].id <= hi
    ensures Fresh(rows, u, lo) == Pick(rows, u, lo, hi)
  {
    if rows != [] {
      FreshIsPick(rows[..|rows|-1], u, lo, hi);
    }
  }

  lemma {:induction false} PickSplit(a: seq<Row>, b: seq<Row>, u: nat, lo: int, hi: int)
    ensures Pick(a + b, u, lo, hi) == Pick(a, u, lo, hi) + Pick(b, u, lo, hi)
  {
    if b == [] {
      assert a + b == a;
    } else {
      assert (a + b)[..|a + b|-1] == a + b[..|b|-1];
      PickSplit(a, b[..|b|-1], u, lo, hi);
    }
  }

  lemma {:induction false} PickNone(rows: seq<Row>, u: nat, lo: int, hi: int)
    requires forall k | 0 <= k < |rows| :: rows[k].id <= lo || rows[k].id > hi
    ensures Pick(rows, u, lo, hi) == []
  {
    if rows != [] {
      PickNone(rows[..|rows|-1], u, lo, hi);
    }
  }

  lemma {:induction false} PickChain(rows: seq<Row>, u: nat, lo: int, mid: int, hi: int)
    requires IsLog(rows) && lo <= mid <= hi
    ensures Pick(rows, u, lo, hi) == Pick(rows, u, lo, mid) + Pick(rows, u, mid, hi)
  {
    if rows != [] {
      var last, t := rows[|rows|-1], rows[..|rows|-1];
      PickChain(t, u, lo, mid, hi);
      if last.id <= mid {
        PickNone(rows, u, mid, hi);
        PickNone(t, u, mid, hi);
      }
    }
  }

  lemma {:induction false} PickLast(rows: seq<Row>, u: nat, lo: int)
    requires IsLog(rows) && Fresh(rows, u, lo) != []
    ensures var f := Fresh(rows, u, lo); Pick(rows, u, lo, f[|f|-1].id) == f
  {
    var last, t := rows[|rows|-1], rows[..|rows|-1];
    if Owner(last) == u && lo < last.id {
      FreshIsPick(t, u, lo, last.id);
    } else {
      PickLast(t, u, lo);
    }
  }

  /** Where the window lies in the log. */
  lemma WindowParts(log: seq<Row>, since: int, limit: nat)
    returns (a: seq<Row>, b: seq<Row>)
    requires IsLog(log)
    ensures var w := WindowOf(log, since, limit);
      && log == a + (w + b) && IsLog(w)
      && (forall k | 0 <= k < |a| :: a[k].id <= since)
      && (forall k | 0 <= k < |b| :: Below(w, b[k].id))
  {
    a := SinceParts(log, since);
    var all := Since(log, since);
    var m := if |all| <= limit then |all| else limit;
    b := all[m..];
    assert all[..m] + b == all;
    assert WindowOf(log, since, limit) == all[..m];
    LogParts(a, all[..m], b);
  }

  lemma LogParts(a: seq<Row>, w: seq<Row>, b: seq<Row>)
    requires IsLog(a + (w + b))
    ensures IsLog(w) && forall k | 0 <= k < |b| :: Below(w, b[k].id)
  {
    LogSplit(a, w + b);
    LogSplit(w, b);
  }

  /** A batch is the user's rows from the cursor to the batch's last id, with none missing. */
  lemma BatchIsContiguous(log: seq<Row>, since: int, limit: nat, u: nat, lo: int)
    requires IsLog(log) && since <= lo
    requires Fresh(WindowOf(log, since, limit), u, lo) != []
    ensures var f := Fresh(WindowOf(log, since, limit), u, lo);
      f == Pick(log, u, lo, f[|f|-1].id) && lo < f[|f|-1].id
  {
    var a, b := WindowParts(log, since, limit);
    OnlyInWindow(a, WindowOf(log, since, limit), b, u, lo);
  }

  lemma OnlyInWindow(a: seq<Row>, w: seq<Row>, b: seq<Row>, u: nat, lo: int)
    requires IsLog(w) && Fresh(w, u, lo) != []
    requires forall k | 0 <= k < |a| :: a[k].id <= lo
    requires forall k | 0 <= k < |b| :: Below(w, b[k].id)
    ensures var f := Fresh(w, u, lo);
      f == Pick(a + (w + b), u, lo, f[|f|-1].id) && lo < f[|f|-1].id
  {
    var f := Fresh(w, u, lo);
    var hi: int := f[|f|-1].id;
    PickSplit(a, w + b, u, lo, hi);
    PickSplit(w, b, u, lo, hi);
    PickNone(a, u, lo, hi);
    PickLast(w, u, lo);
    var k :| 0 <= k < |w| && w[k] == f[|f|-1];
    PickNone(b, u, lo, hi);
  }

  // ----- one poll

  /** The user's cursor after a poll that read `window`. */
  function NextCursor(cursors: map<nat, int>, window: seq<Row>, threshold: nat, u: nat): int {
    var b := BatchFor(cursors, window, u, threshold);
    if b == [] then CursorOf(cursors, u) else b[|b|-1].id
  }

  function Owners(window: seq<Row>): set<nat> {
    set k | 0 <= k < |window| :: Owner(window[k])
  }

  /** The cursors after the poll: a user without one gets one with the first batch. */
  function CursorsAfter(cursors: map<nat, int>, window: seq<Row>, threshold: nat): (r: map<nat, int>)
    ensures forall u | u in cursors :: u in r && r[u] == NextCursor(cursors, window, threshold, u)
    ensures forall u | u in r && u !in cursors :: r[u] == NextCursor(cursors, window, threshold, u)
                                                  && BatchFor(cursors, window, u, threshold) != []
  {
    map u | u in cursors.Keys + Owners(window) && (u in cursors || BatchFor(cursors, window, u, threshold) != [])
      :: NextCursor(cursors, window, threshold, u)
  }

  /** A poll never moves a cursor back, and the batch of a user that holds one is exactly what
      lies between the old and the new cursor. */
  lemma PollServes(log: seq<Row>, cursors: map<nat, int>, since: int, limit: nat, threshold: nat, u: nat)
    requires IsLog(log) && IsMin(cursors, since) && u in cursors
    ensures var w := WindowOf(log, since, limit);
      var next := NextCursor(cursors, w, threshold, u);
      cursors[u] <= next && BatchFor(cursors, w, u, threshold) == Pick(log, u, cursors[u], next)
  {
    var w := WindowOf(log, since, limit);
    var b := BatchFor(cursors, w, u, threshold);
    if b != [] {
      assert b == Fresh(w, u, cursors[u]);
      BatchIsContiguous(log, since, limit, u, cursors[u]);
    } else {
      PickNone(log, u, cursors[u], cursors[u]);
    }
  }

  // ----- runs of polls over a growing log

  /** The smallest cursor, as the poll computes it. */
  ghost function MinCursor(cursors: map<nat, int>): (m: int)
    ensures IsMin(cursors, m)
  {
    if cursors == map[] then 0
    else
      MinExists(cursors);
      var m :| IsMin(cursors, m);
      m
  }

  lemma {:induction false} MinExists(cursors: map<nat, int>)
    requires cursors != map[]
    ensures exists m :: IsMin(cursors, m)
    decreases |cursors|
  {
    var u :| u in cursors;
    var rest := cursors - {u};
    if rest == map[] {
      assert forall v | v in cursors :: v == u by {
        forall v | v in cursors ensures v == u { assert v == u || v in rest; }
      }
      assert IsMin(cursors, cursors[u]);
    } else {
      assert cursors.Keys == rest.Keys + {u};
      assert |rest| < |cursors| by { assert |cursors.Keys| == |rest.Keys| + 1; }
      MinExists(rest);
      var m :| IsMin(rest, m);
      var w :| w in rest && rest[w] == m;
      assert w in cursors && cursors[w] == m;
      assert IsMin(cursors, if cursors[u] < m then cursors[u] else m);
    }
  }

  ghost function Poll(cursors: map<nat, int>, log: seq<Row>, limit: nat, threshold: nat): map<nat, int> {
    CursorsAfter(cursors, WindowOf(log, MinCursor(cursors), limit), threshold)
  }

  ghost function Sent(cursors: map<nat, int>, log: seq<Row>, u: nat, limit: nat, threshold: nat): seq<Row> {
    BatchFor(cursors, WindowOf(log, MinCursor(cursors), limit), u, threshold)
  }

  /** The cursors after a poll on each log of the history. */
  ghost function Cursors(start: map<nat, int>, history: seq<seq<Row>>, limit: nat, threshold: nat): map<nat, int> {
    if history == [] then start
    else Poll(Cursors(start, history[..|history|-1], limit, threshold), history[|history|-1], limit, threshold)
  }

  /** Everything sent to u, batch after batch. */
  ghost function Delivered(start: map<nat, int>, history: seq<seq<Row>>, u: nat, limit: nat, threshold: nat): seq<Row> {
    if history == [] then []
    else
      var before := history[..|history|-1];
      Delivered(start, before, u, limit, threshold)
        + Sent(Cursors(start, before, limit, threshold), history[|history|-1], u, limit, threshold)
  }

  /** Each log is the one before it with rows appended. */
  ghost predicate Appending(history: seq<seq<Row>>) {
    history != [] ==>
      && IsLog(history[|history|-1])
      && Appending(history[..|history|-1])
      && (|history| > 1 ==> history[|history|-2] <= history[|history|-1])
  }

  lemma PickOfPrefix(log: seq<Row>, longer: seq<Row>, u: nat, lo: int, hi: int)
    requires log <= longer && IsLog(longer)
    requires log == [] || hi <= log[|log|-1].id || hi <= lo
    requires log == [] ==> hi <= lo
    ensures Pick(longer, u, lo, hi) == Pick(log, u, lo, hi)
  {
    var b := longer[|log|..];
    assert longer == log + b;
    PickSplit(log, b, u, lo, hi);
    LogSplit(log, b);
    PickNone(b, u, lo, hi);
  }

  lemma WithinLog(log: seq<Row>, r: Row)
    requires IsLog(log) && r in log
    ensures r.id <= log[|log|-1].id
  {
    var k :| 0 <= k < |log| && log[k] == r;
    assert k == |log| - 1 || log[..|log|-1][k] == log[k];
  }

  lemma CursorWithinLog(log: seq<Row>, cursors: map<nat, int>, since: int, limit: nat, threshold: nat, u: nat)
    requires IsLog(log) && u in cursors
    ensures var next := NextCursor(cursors, WindowOf(log, since, limit), threshold, u);
      next == cursors[u] || (log != [] && next <= log[|log|-1].id)
  {
    var w := WindowOf(log, since, limit);
    var b := BatchFor(cursors, w, u, threshold);
    if b != [] {
      var before, after := WindowParts(log, since, limit);
      assert b[|b|-1] in w;
      WithinLog(log, b[|b|-1]);
    }
  }

  /** For a user that holds a cursor, over any run: everything delivered is exactly that user's
      rows between the first and the current cursor, in id order, each once and none missing. */
  lemma {:induction false} DeliveredExactly(start: map<nat, int>, history: seq<seq<Row>>, u: nat, limit: nat, threshold: nat)
    requires history != [] && Appending(history) && u in start
    ensures var now := Cursors(start, history, limit, threshold);
      var log := history[|history|-1];
      && u in now && start[u] <= now[u]
      && (now[u] == start[u] || (log != [] && now[u] <= log[|log|-1].id))
      && Delivered(start, history, u, limit, threshold) == Pick(log, u, start[u], now[u])
    decreases |history|
  {
    var before, log := history[..|history|-1], history[|history|-1];
    var cursors := Cursors(start, before, limit, threshold);
    if before != [] {
      DeliveredExactly(start, before, u, limit, threshold);
      PickOfPrefix(before[|before|-1], log, u, start[u], cursors[u]);
    } else {
      PickNone(log, u, start[u], start[u]);
    }
    PollExtends(log, cursors, MinCursor(cursors), limit, threshold, u, start[u]);
    CursorWithinLog(log, cursors, MinCursor(cursors), limit, threshold, u);
    CursorChain(before, log, start[u], cursors[u], Poll(cursors, log, limit, threshold)[u]);
  }

  lemma CursorChain(before: seq<seq<Row>>, log: seq<Row>, first: int, cursor: int, next: int)
    requires IsLog(log)
    requires before != [] ==> before[|before|-1] <= log
    requires if before == [] then cursor == first
      else cursor == first || (before[|before|-1] != [] && cursor <= before[|before|-1][|before[|before|-1]|-1].id)
    requires next == cursor || (log != [] && next <= log[|log|-1].id)
    ensures next == first || (log != [] && next <= log[|log|-1].id)
  {
    if before != [] && before[|before|-1] != [] {
      var old_ := before[|before|-1];
      assert log[|old_|-1] == old_[|old_|-1];
      assert |old_| == |log| || log[..|log|-1][|old_|-1] == log[|old_|-1];
    }
  }

  /** One more poll extends what was delivered by its batch. */
  lemma PollExtends(
    log: seq<Row>, cursors: map<nat, int>, since: int, limit: nat, threshold: nat, u: nat, first: int)
    requires IsLog(log) && IsMin(cursors, since) && u in cursors && first <= cursors[u]
    ensures var w := WindowOf(log, since, limit);
      var next := NextCursor(cursors, w, threshold, u);
      && cursors[u] <= next
      && Pick(log, u, first, next) == Pick(log, u, first, cursors[u]) + BatchFor(cursors, w, u, threshold)
  {
    PollServes(log, cursors, since, limit, threshold, u);
    PickChain(log, u, first, cursors[u], NextCursor(cursors, WindowOf(log, since, limit), threshold, u));
  }

  // ----- users without a cursor, and windows that freeze

  /** A user without a cursor counts as cursor 0, but the window starts at the smallest cursor of
      the others: its first batch leaves out exactly the rows at or below that. */
  lemma FirstBatchSkips(log: seq<Row>, cursors: map<nat, int>, since: int, limit: nat, threshold: nat, u: nat)
    requires IsLog(log) && IsMin(cursors, since) && since >= 0 && u !in cursors
    requires BatchFor(cursors, WindowOf(log, since, limit), u, threshold) != []
    ensures var w := WindowOf(log, since, limit);
      var b := BatchFor(cursors, w, u, threshold);
      && b == Pick(log, u, since, b[|b|-1].id)
      && Pick(log, u, 0, b[|b|-1].id) == Pick(log, u, 0, since) + b
  {
    var w := WindowOf(log, since, limit);
    var b := BatchFor(cursors, w, u, threshold);
    FreshFrom(w, u, 0, since);
    assert b == Fresh(w, u, since);
    BatchIsContiguous(log, since, limit, u, since);
    PickChain(log, u, 0, since, b[|b|-1].id);
  }

  lemma {:induction false} FreshFrom(rows: seq<Row>, u: nat, lo: int, since: int)
    requires lo <= since && forall k | 0 <= k < |rows| :: since < rows[k].id
    ensures Fresh(rows, u, lo) == Fresh(rows, u, since)
  {
    if rows != [] {
      FreshFrom(rows[..|rows|-1], u, lo, since);
    }
  }

  /** Nothing in the window is due: every user's fresh rows in it are below the threshold. */
  ghost predicate NothingDue(cursors: map<nat, int>, window: seq<Row>, threshold: nat) {
    forall u: nat :: BatchFor(cursors, window, u, threshold) == []
  }

  lemma NoMoves(cursors: map<nat, int>, window: seq<Row>, threshold: nat)
    requires NothingDue(cursors, window, threshold)
    ensures CursorsAfter(cursors, window, threshold) == cursors
  {
    var next := CursorsAfter(cursors, window, threshold);
    assert forall u | u in next :: u in cursors;
    assert forall u | u in cursors :: u in next && next[u] == cursors[u];
  }

  ghost predicate AllExtend(log: seq<Row>, history: seq<seq<Row>>) {
    forall t | 0 <= t < |history| :: log <= history[t]
  }

  // ----- when nobody is ever notified again

  /** A group is sent when it has at least this many rows: it always has one. */
  function Due(threshold: nat): nat {
    if threshold == 0 then 1 else threshold
  }

  /** Even if all the room left in the window went to one user, that user's batch would be too small. */
  ghost predicate Stuck(cursors: map<nat, int>, window: seq<Row>, limit: nat, threshold: nat) {
    |window| <= limit
    && forall u: nat :: |Fresh(window, u, CursorOf(cursors, u))| + (limit - |window|) < Due(threshold)
  }

  lemma {:induction false} FreshAppend(a: seq<Row>, b: seq<Row>, u: nat, lo: int)
    ensures Fresh(a + b, u, lo) == Fresh(a, u, lo) + Fresh(b, u, lo)
  {
    if b == [] {
      assert a + b == a;
    } else {
      assert (a + b)[..|a + b|-1] == a + b[..|b|-1];
      FreshAppend(a, b[..|b|-1], u, lo);
    }
  }

  lemma {:induction false} FreshSize(rows: seq<Row>, u: nat, lo: int)
    ensures |Fresh(rows, u, lo)| <= |rows|
  {
    if rows != [] {
      FreshSize(rows[..|rows|-1], u, lo);
    }
  }

  /** The window only grows at its end, up to the limit. */
  lemma WindowGrows(log: seq<Row>, longer: seq<Row>, since: int, limit: nat) returns (more: seq<Row>)
    requires log <= longer
    ensures WindowOf(longer, since, limit) == WindowOf(log, since, limit) + more
    ensures |WindowOf(log, since, limit)| + |more| <= limit
  {
    var tail := longer[|log|..];
    assert longer == log + tail;
    SinceGrows(log, tail, since);
    var w, next := WindowOf(log, since, limit), WindowOf(longer, since, limit);
    more := next[|w|..];
    assert w == next[..|w|];
  }

  lemma StuckHoldsNothingDue(cursors: map<nat, int>, window: seq<Row>, more: seq<Row>, limit: nat, threshold: nat)
    requires Stuck(cursors, window, limit, threshold) && |window| + |more| <= limit
    ensures NothingDue(cursors, window + more, threshold)
  {
    forall u: nat ensures BatchFor(cursors, window + more, u, threshold) == [] {
      FreshAppend(window, more, u, CursorOf(cursors, u));
      FreshSize(more, u, CursorOf(cursors, u));
    }
  }

  /** Once the window is stuck no user is notified again, however the log grows. */
  lemma {:induction false} FrozenForever(
    cursors: map<nat, int>, log: seq<Row>, history: seq<seq<Row>>, u: nat, limit: nat, threshold: nat)
    requires AllExtend(log, history)
    requires Stuck(cursors, WindowOf(log, MinCursor(cursors), limit), limit, threshold)
    ensures Cursors(cursors, history, limit, threshold) == cursors
    ensures Delivered(cursors, history, u, limit, threshold) == []
  {
    if history != [] {
      var before, last := history[..|history|-1], history[|history|-1];
      FrozenForever(cursors, log, before, u, limit, threshold);
      var more := WindowGrows(log, last, MinCursor(cursors), limit);
      StuckHoldsNothingDue(cursors, WindowOf(log, MinCursor(cursors), limit), more, limit, threshold);
      NoMoves(cursors, WindowOf(last, MinCursor(cursors), limit), threshold);
    }
  }

  /** Rows of u alone, with consecutive ids from `from` on. */
  ghost predicate RowsOf(w: seq<Row>, u: nat, from: nat) {
    forall k | 0 <= k < |w| :: w[k].id == from + k && Owner(w[k]) == u
  }

  lemma SomeRows(u: nat, from: nat, n: nat) returns (w: seq<Row>)
    ensures |w| == n && RowsOf(w, u, from)
  {
    w := seq(n, k requires 0 <= k < n => Row(from + k, Some(u)));
  }

  lemma {:induction false} AllFresh(w: seq<Row>, u: nat, from: nat, lo: int)
    requires RowsOf(w, u, from) && lo < from
    ensures Fresh(w, u, lo) == w
  {
    if w != [] {
      AllFresh(w[..|w|-1], u, from, lo);
    }
  }

  lemma {:induction false} AllPast(w: seq<Row>, u: nat, from: nat, lo: int)
    requires RowsOf(w, u, from) && lo < from
    ensures Since(w, lo) == w
  {
    if w != [] {
      AllPast(w[..|w|-1], u, from, lo);
    }
  }

  lemma {:induction false} RowsAreLog(w: seq<Row>, u: nat, from: nat)
    requires RowsOf(w, u, from)
    ensures IsLog(w)
  {
    if w != [] {
      RowsAreLog(w[..|w|-1], u, from);
    }
  }

  lemma {:induction false} LogJoins(a: seq<Row>, b: seq<Row>)
    requires IsLog(a) && IsLog(b) && forall k | 0 <= k < |b| :: Below(a, b[k].id)
    ensures IsLog(a + b)
  {
    if b == [] {
      assert a + b == a;
    } else {
      var c, last := b[..|b|-1], b[|b|-1];
      assert forall k | 0 <= k < |c| :: c[k] == b[k];
      LogJoins(a, c);
      assert (a + b)[..|a + b|-1] == a + c;
      assert Below(a + c, last.id);
    }
  }

  function IdBound(log: seq<Row>): (n: nat)
    ensures forall k | 0 <= k < |log| :: log[k].id < n
  {
    if log == [] then 1
    else
      var n, last := IdBound(log[..|log|-1]), log[|log|-1].id;
      if last < n then n else last + 1
  }

  function PastBoth(a: int, b: nat): (n: nat)
    ensures n > a && n >= b
  {
    if a >= b then a + 1 else b
  }

  /** Room for a big enough batch lets the log grow so that u is notified. */
  lemma CanStillNotify(cursors: map<nat, int>, log: seq<Row>, u: nat, limit: nat, threshold: nat)
    returns (history: seq<seq<Row>>)
    requires IsLog(log)
    requires var w := WindowOf(log, MinCursor(cursors), limit);
      |Fresh(w, u, CursorOf(cursors, u))| + (limit - |w|) >= Due(threshold)
    ensures Appending(history) && AllExtend(log, history)
    ensures Delivered(cursors, history, u, limit, threshold) != []
  {
    var more := FillRoom(log, u, MinCursor(cursors), CursorOf(cursors, u), limit);
    history := [log + more];
    OneExtension(cursors, log + more, u, limit, threshold);
  }

  /** Rows of u that fill the room left in the window, all of them fresh. */
  lemma FillRoom(log: seq<Row>, u: nat, since: int, lo: int, limit: nat) returns (more: seq<Row>)
    requires IsLog(log)
    ensures IsLog(log + more)
    ensures |Fresh(WindowOf(log + more, since, limit), u, lo)|
         == |Fresh(WindowOf(log, since, limit), u, lo)| + (limit - |WindowOf(log, since, limit)|)
  {
    var w := WindowOf(log, since, limit);
    var from := PastBoth(if since >= lo then since else lo, IdBound(log));
    more := SomeRows(u, from, limit - |w|);
    ExtendLog(log, more, u, from);
    AllPast(more, u, from, since);
    RoomFills(log, more, since, limit);
    AllFresh(more, u, from, lo);
    FreshAppend(w, more, u, lo);
  }

  lemma ExtendLog(log: seq<Row>, more: seq<Row>, u: nat, from: nat)
    requires IsLog(log) && IdBound(log) <= from && RowsOf(more, u, from)
    ensures IsLog(log + more)
  {
    RowsAreLog(more, u, from);
    LogJoins(log, more);
  }

  lemma RoomFills(log: seq<Row>, more: seq<Row>, since: int, limit: nat)
    requires |WindowOf(log, since, limit)| + |more| == limit && Since(more, since) == more
    ensures WindowOf(log + more, since, limit) == WindowOf(log, since, limit) + more
  {
    SinceGrows(log, more, since);
  }

  lemma OneExtension(cursors: map<nat, int>, log: seq<Row>, u: nat, limit: nat, threshold: nat)
    requires IsLog(log)
    ensures Appending([log])
    ensures Cursors(cursors, [log], limit, threshold) == Poll(cursors, log, limit, threshold)
    ensures Delivered(cursors, [log], u, limit, threshold) == Sent(cursors, log, u, limit, threshold)
  {
    assert [log][..0] == [];
  }

  /** Nobody is notified in any continuation of the log. */
  ghost predicate Silent(cursors: map<nat, int>, log: seq<Row>, limit: nat, threshold: nat) {
    forall history: seq<seq<Row>>, u: nat | Appending(history) && AllExtend(log, history) ::
      Delivered(cursors, history, u, limit, threshold) == []
  }

  /** No extension of the log ever notifies anyone exactly when, for every user, the fresh rows in the
      window and the room left in it together stay below the threshold. */
  lemma SilentExactlyWhen(cursors: map<nat, int>, log: seq<Row>, limit: nat, threshold: nat)
    requires IsLog(log)
    ensures Silent(cursors, log, limit, threshold)
      <==> Stuck(cursors, WindowOf(log, MinCursor(cursors), limit), limit, threshold)
  {
    var w := WindowOf(log, MinCursor(cursors), limit);
    if Stuck(cursors, w, limit, threshold) {
      forall history: seq<seq<Row>>, u: nat | Appending(history) && AllExtend(log, history)
        ensures Delivered(cursors, history, u, limit, threshold) == []
      {
        FrozenForever(cursors, log, history, u, limit, threshold);
      }
    } else {
      var u: nat :| |Fresh(w, u, CursorOf(cursors, u))| + (limit - |w|) >= Due(threshold);
      var history := CanStillNotify(cursors, log, u, limit, threshold);
    }
  }

  lemma {:induction false} NoneFresh(w: seq<Row>, v: nat, from: nat, u: nat, lo: int)
    requires RowsOf(w, v, from) && (u != v || lo >= from + |w| - 1)
    ensures Fresh(w, u, lo) == []
  {
    if w != [] {
      NoneFresh(w[..|w|-1], v, from, u, lo);
    }
  }

  lemma OnlyMin(cursors: map<nat, int>, m: int)
    requires IsMin(cursors, m)
    ensures MinCursor(cursors) == m
  {
  }

  /** In a window of one user's rows, all of them fresh and enough for a batch, nobody else is due. */
  lemma OneUserDue(cursors: map<nat, int>, w: seq<Row>, u: nat, from: nat, threshold: nat)
    requires RowsOf(w, u, from) && 0 < threshold <= |w| && CursorOf(cursors, u) < from
    ensures BatchFor(cursors, w, u, threshold) == w
    ensures forall v: nat | v != u :: BatchFor(cursors, w, v, threshold) == []
  {
    AllFresh(w, u, from, CursorOf(cursors, u));
    forall v: nat | v != u ensures BatchFor(cursors, w, v, threshold) == [] {
      NoneFresh(w, u, from, v, CursorOf(cursors, v));
    }
  }

  lemma OnlyOneMoves(cursors: map<nat, int>, w: seq<Row>, u: nat, last: int, threshold: nat)
    requires w != [] && Owner(w[0]) == u && BatchFor(cursors, w, u, threshold) == w && w[|w|-1].id == last
    requires forall v: nat | v != u :: BatchFor(cursors, w, v, threshold) == []
    ensures CursorsAfter(cursors, w, threshold) == cursors[u := last]
  {
    SameCursors(cursors, w, threshold, cursors[u := last]);
  }

  /** Two polls from nothing reach such a state: a batch for user 1, then as many rows of user 2 as
      the window holds. From then on user 1's cursor keeps the window on rows long delivered. */
  lemma SilenceIsReached(limit: nat, threshold: nat)
    requires 0 < threshold <= limit
    ensures exists history: seq<seq<Row>> ::
      && |history| == 2 && Appending(history)
      && Silent(Cursors(map[], history, limit, threshold), history[1], limit, threshold)
  {
    var a := SomeRows(1, 1, threshold);
    var b := SomeRows(2, threshold + 1, limit);
    FirstPoll(a, limit, threshold);
    SecondPoll(a, b, limit, threshold);
    SecondLog(a, b, limit, threshold);
    TwoPolls(map[], a, a + b, limit, threshold);
    ThenStuck(a, b, limit, threshold);
    SilentExactlyWhen(Both(limit, threshold), a + b, limit, threshold);
    assert [a, a + b][1] == a + b;
  }

  /** The first batch is user 1's, the second fills a window with user 2's rows. */
  ghost predicate Batches(a: seq<Row>, b: seq<Row>, limit: nat, threshold: nat) {
    && |a| == threshold && |b| == limit && 0 < threshold <= limit
    && RowsOf(a, 1, 1) && RowsOf(b, 2, threshold + 1)
  }

  lemma FirstPoll(a: seq<Row>, limit: nat, threshold: nat)
    requires |a| == threshold && 0 < threshold <= limit && RowsOf(a, 1, 1)
    ensures Poll(map[], a, limit, threshold) == One(threshold)
  {
    var none: map<nat, int> := map[];
    OnlyMin(none, 0);
    AllPast(a, 1, 1, 0);
    OneUserDue(none, a, 1, 1, threshold);
    OnlyOneMoves(none, a, 1, threshold, threshold);
  }

  lemma SecondLog(a: seq<Row>, b: seq<Row>, limit: nat, threshold: nat)
    requires Batches(a, b, limit, threshold)
    ensures IsLog(a) && IsLog(a + b)
  {
    RowsAreLog(a, 1, 1);
    RowsAreLog(b, 2, threshold + 1);
    LogJoins(a, b);
  }

  lemma WindowPast(a: seq<Row>, b: seq<Row>, since: int, limit: nat)
    requires Since(a, since) == [] && Since(b, since) == b && |b| <= limit
    ensures WindowOf(a + b, since, limit) == b
  {
    SinceGrows(a, b, since);
  }

  lemma SecondWindow(a: seq<Row>, b: seq<Row>, limit: nat, threshold: nat)
    requires Batches(a, b, limit, threshold)
    ensures WindowOf(a + b, threshold, limit) == b
  {
    SinceNone(a, threshold);
    AllPast(b, 2, threshold + 1, threshold);
    WindowPast(a, b, threshold, limit);
  }

  function One(threshold: nat): map<nat, int> {
    map[1 := threshold]
  }

  function Both(limit: nat, threshold: nat): map<nat, int> {
    One(threshold)[2 := threshold + limit]
  }

  lemma MinOfThem(limit: nat, threshold: nat)
    ensures MinCursor(One(threshold)) == threshold && MinCursor(Both(limit, threshold)) == threshold
  {
    assert One(threshold)[1] == threshold && Both(limit, threshold)[1] == threshold;
    OnlyMin(One(threshold), threshold);
    OnlyMin(Both(limit, threshold), threshold);
  }

  lemma SecondBatch(b: seq<Row>, limit: nat, threshold: nat)
    requires |b| == limit && 0 < threshold <= limit && RowsOf(b, 2, threshold + 1)
    ensures CursorsAfter(One(threshold), b, threshold) == Both(limit, threshold)
  {
    OneUserDue(One(threshold), b, 2, threshold + 1, threshold);
    OnlyOneMoves(One(threshold), b, 2, threshold + limit, threshold);
  }

  lemma SecondPoll(a: seq<Row>, b: seq<Row>, limit: nat, threshold: nat)
    requires Batches(a, b, limit, threshold)
    ensures Poll(One(threshold), a + b, limit, threshold) == Both(limit, threshold)
  {
    SecondWindow(a, b, limit, threshold);
    MinOfThem(limit, threshold);
    SecondBatch(b, limit, threshold);
  }

  lemma ThenStuck(a: seq<Row>, b: seq<Row>, limit: nat, threshold: nat)
    requires Batches(a, b, limit, threshold)
    ensures Stuck(Both(limit, threshold), WindowOf(a + b, MinCursor(Both(limit, threshold)), limit), limit, threshold)
  {
    SecondWindow(a, b, limit, threshold);
    MinOfThem(limit, threshold);
    forall u: nat ensures Fresh(b, u, CursorOf(Both(limit, threshold), u)) == [] {
      NoneFresh(b, 2, threshold + 1, u, CursorOf(Both(limit, threshold), u));
    }
  }

  lemma TwoPolls(cursors: map<nat, int>, first: seq<Row>, second: seq<Row>, limit: nat, threshold: nat)
    requires IsLog(first) && IsLog(second) && first <= second
    ensures Appending([first, second])
    ensures Cursors(cursors, [first, second], limit, threshold)
         == Poll(Poll(cursors, first, limit, threshold), second, limit, threshold)
  {
    OneExtension(cursors, first, 0, limit, threshold);
    OneMorePoll(cursors, [first], second, limit, threshold);
  }

  lemma OneMorePoll(cursors: map<nat, int>, history: seq<seq<Row>>, log: seq<Row>, limit: nat, threshold: nat)
    requires Appending(history) && history != [] && IsLog(log) && history[|history|-1] <= log
    ensures Appending(history + [log])
    ensures Cursors(cursors, history + [log], limit, threshold)
         == Poll(Cursors(cursors, history, limit, threshold), log, limit, threshold)
  {
    assert (history + [log])[..|history|] == history;
  }

  /** Every row of the window was delivered already. */
  ghost predicate AllSeen(cursors: map<nat, int>, window: seq<Row>) {
    forall k | 0 <= k < |window| :: window[k].id <= CursorOf(cursors, Owner(window[k]))
  }

  /** One idle user is enough: when the window behind its cursor fills up with rows the others
      have been sent already, nothing is due. */
  lemma SeenWindowHasNothingDue(cursors: map<nat, int>, window: seq<Row>, threshold: nat)
    requires AllSeen(cursors, window)
    ensures NothingDue(cursors, window, threshold)
  {
    forall u: nat ensures BatchFor(cursors, window, u, threshold) == [] {
      NothingFresh(window, u, CursorOf(cursors, u));
    }
  }

  lemma {:induction false} NothingFresh(rows: seq<Row>, u: nat, lo: int)
    requires forall k | 0 <= k < |rows| :: Owner(rows[k]) == u ==> rows[k].id <= lo
    ensures Fresh(rows, u, lo) == []
  {
    if rows != [] {
      NothingFresh(rows[..|rows|-1], u, lo);
    }
  }

  // ----- the poll as it runs

  const READ_LIMIT: nat := 500

  datatype Batch = Batch(user: nat, rows: seq<Row>)

  /** Everything an outbox holds for u. */
  function SentTo(outbox: seq<Batch>, u: nat): seq<Row> {
    if outbox == [] then []
    else
      var last := outbox[|outbox|-1];
      SentTo(outbox[..|outbox|-1], u) + if last.user == u then last.rows else []
  }

  lemma SentAppend(outbox: seq<Batch>, b: Batch, u: nat)
    ensures SentTo(outbox + [b], u) == SentTo(outbox, u) + if b.user == u then b.rows else []
  {
    assert (outbox + [b])[..|outbox|] == outbox;
  }

  method SmallestCursor(cursors: map<nat, int>) returns (m: int)
    ensures IsMin(cursors, m)
  {
    if cursors == map[] {
      return 0;
    }
    var first :| first in cursors;
    m := cursors[first];
    var todo := cursors.Keys - {first};
    while todo != {}
      invariant todo <= cursors.Keys
      invariant exists u :: u in cursors && cursors[u] == m
      invariant forall u | u in cursors && u !in todo :: m <= cursors[u]
      decreases |todo|
    {
      var u :| u in todo;
      if cursors[u] < m {
        m := cursors[u];
      }
      todo := todo - {u};
    }
  }

  /** Users appear once, exactly those with rows, each with its rows. */
  ghost predicate Grouped(rowsOf: nat -> seq<Row>, groups: map<nat, seq<Row>>, order: seq<nat>) {
    && (forall u :: u in order <==> rowsOf(u) != [])
    && (forall u | u in order :: u in groups && groups[u] == rowsOf(u))
    && (forall j, k | 0 <= j < k < |order| :: order[j] != order[k])
  }

  lemma GroupedStep(
    rowsOf: nat -> seq<Row>, rowsThen: nat -> seq<Row>, groups: map<nat, seq<Row>>, order: seq<nat>, uid: nat, rt: Row)
    requires Grouped(rowsOf, groups, order)
    requires forall u: nat :: rowsThen(u) == if u == uid then rowsOf(u) + [rt] else rowsOf(u)
    ensures if uid in order then Grouped(rowsThen, groups[uid := groups[uid] + [rt]], order)
            else Grouped(rowsThen, groups[uid := [rt]], order + [uid])
  {
    if uid !in order {
      assert rowsOf(uid) == [] && [] + [rt] == [rt];
    }
  }

  lemma FreshStep(window: seq<Row>, i: nat, u: nat, lo: int)
    requires i < |window|
    ensures Fresh(window[..i+1], u, lo)
         == if Owner(window[i]) == u && lo < window[i].id then Fresh(window[..i], u, lo) + [window[i]] else Fresh(window[..i], u, lo)
  {
    assert window[..i+1][..i] == window[..i];
  }

  /** The fresh rows of each user, and the users in order of first appearance. */
  method GroupByUser(cursors: map<nat, int>, window: seq<Row>) returns (groups: map<nat, seq<Row>>, order: seq<nat>)
    ensures Grouped((u: nat) => Fresh(window, u, CursorOf(cursors, u)), groups, order)
  {
    groups, order := map[], [];
    ghost var rowsOf: nat -> seq<Row> := (u: nat) => [];
    for i := 0 to |window|
      invariant forall u: nat :: rowsOf(u) == Fresh(window[..i], u, CursorOf(cursors, u))
      invariant Grouped(rowsOf, groups, order)
    {
      var rt := window[i];
      var uid := Owner(rt);
      ghost var rowsThen: nat -> seq<Row> := (u: nat) => Fresh(window[..i+1], u, CursorOf(cursors, u));
      forall u: nat
        ensures rowsThen(u) == if u == uid && rt.id > CursorOf(cursors, uid) then rowsOf(u) + [rt] else rowsOf(u)
      {
        FreshStep(window, i, u, CursorOf(cursors, u));
      }
      if rt.id > CursorOf(cursors, uid) {
        GroupedStep(rowsOf, rowsThen, groups, order, uid, rt);
        if uid in order {
          groups := groups[uid := groups[uid] + [rt]];
        } else {
          groups := groups[uid := [rt]];
          order := order + [uid];
        }
      }
      rowsOf := rowsThen;
    }
    assert window[..|window|] == window;
  }

  class RoundtripNotifier {
    const threshold: nat
    var cursors: map<nat, int>
    var outbox: seq<Batch>

    constructor (threshold: nat, cursors: map<nat, int>)
      ensures this.threshold == threshold && this.cursors == cursors && outbox == []
    {
      this.threshold, this.cursors, outbox := threshold, cursors, [];
    }

    /** checkRoundtrips: every user is sent its batch of this poll, and the cursors move to the
        last rows sent; all new batches reach the threshold. */
    method CheckRoundtrips(log: seq<Row>)
      modifies this
      ensures cursors == Poll(old(cursors), log, READ_LIMIT, threshold)
      ensures forall u: nat :: SentTo(outbox, u) == SentTo(old(outbox), u) + Sent(old(cursors), log, u, READ_LIMIT, threshold)
      ensures old(outbox) <= outbox
      ensures forall k | |old(outbox)| <= k < |outbox| :: BatchOk(outbox[k], threshold)
    {
      var minCursor := SmallestCursor(cursors);
      ghost var before, sent := cursors, outbox;
      SameMin(cursors, minCursor, MinCursor(cursors));
      var candidates := WindowOf(log, minCursor, READ_LIMIT);
      var groups, order := GroupByUser(cursors, candidates);
      ghost var due: nat -> seq<Row> := (u: nat) => BatchFor(before, candidates, u, threshold);
      SendBatches(groups, order, due);
      AllDone(before, candidates, threshold, due, order, cursors, sent, outbox);
    }

    /** Sends every group that reaches the threshold and moves its user's cursor. */
    method SendBatches(groups: map<nat, seq<Row>>, order: seq<nat>, ghost due: nat -> seq<Row>)
      requires forall j, k | 0 <= j < k < |order| :: order[j] != order[k]
      requires forall k | 0 <= k < |order| :: order[k] in groups && Group(groups[order[k]], order[k], due, threshold)
      modifies this
      ensures Moved(old(cursors), due, order, cursors) && Mailed(due, threshold, order, old(outbox), outbox)
    {
      var next := cursors;
      var i := 0;
      while i < |order|
        invariant 0 <= i <= |order| && cursors == old(cursors)
        invariant Moved(old(cursors), due, order[..i], next) && Mailed(due, threshold, order[..i], old(outbox), outbox)
      {
        assert order[..i+1] == order[..i] + [order[i]];
        NewUser(order, i);
        next := SendGroup(old(cursors), next, order[i], groups[order[i]], due, order[..i], old(outbox));
        i := i + 1;
      }
      assert order[..|order|] == order;
      cursors := next;
    }

    method SendGroup(
      ghost before: map<nat, int>, next: map<nat, int>, uid: nat, rts: seq<Row>, ghost due: nat -> seq<Row>,
      ghost done: seq<nat>, ghost sent: seq<Batch>)
      returns (next': map<nat, int>)
      requires Group(rts, uid, due, threshold) && uid !in done
      requires Moved(before, due, done, next) && Mailed(due, threshold, done, sent, outbox)
      modifies this`outbox
      ensures Moved(before, due, done + [uid], next') && Mailed(due, threshold, done + [uid], sent, outbox)
    {
      GroupStep(before, next, uid, rts, due, done, sent, outbox, threshold);
      if |rts| >= threshold {
        outbox := outbox + [Batch(uid, rts)];
        next' := next[uid := rts[|rts|-1].id];
      } else {
        next' := next;
      }
    }
  }

  /** A user's group: its fresh rows, which are due when they reach the threshold. */
  ghost predicate Group(rts: seq<Row>, uid: nat, due: nat -> seq<Row>, threshold: nat) {
    && rts != [] && due(uid) == (if |rts| >= threshold then rts else [])
    && forall j | 0 <= j < |rts| :: Owner(rts[j]) == uid
  }

  ghost predicate Moved(cursors: map<nat, int>, due: nat -> seq<Row>, done: seq<nat>, next: map<nat, int>) {
    && (forall u :: u in next <==> u in cursors || (u in done && due(u) != []))
    && (forall u | u in next ::
          next[u] == if u in done && due(u) != [] then due(u)[|due(u)|-1].id else CursorOf(cursors, u))
  }

  ghost predicate Mailed(due: nat -> seq<Row>, threshold: nat, done: seq<nat>, sent: seq<Batch>, outbox: seq<Batch>) {
    && sent <= outbox
    && (forall u: nat :: SentTo(outbox, u) == if u in done then SentTo(sent, u) + due(u) else SentTo(sent, u))
    && (forall k | |sent| <= k < |outbox| :: BatchOk(outbox[k], threshold))
  }

  ghost predicate BatchOk(b: Batch, threshold: nat) {
    |b.rows| >= threshold && forall j | 0 <= j < |b.rows| :: Owner(b.rows[j]) == b.user
  }

  lemma NewUser(order: seq<nat>, i: nat)
    requires i < |order| && forall j, k | 0 <= j < k < |order| :: order[j] != order[k]
    ensures order[i] !in order[..i]
  {
  }

  lemma MovedStep(cursors: map<nat, int>, due: nat -> seq<Row>, done: seq<nat>, next: map<nat, int>, uid: nat)
    requires Moved(cursors, due, done, next) && uid !in done
    ensures Moved(cursors, due, done + [uid], if due(uid) != [] then next[uid := due(uid)[|due(uid)|-1].id] else next)
  {
  }

  lemma MailedStep(
    due: nat -> seq<Row>, threshold: nat, done: seq<nat>, sent: seq<Batch>, outbox: seq<Batch>, uid: nat)
    requires Mailed(due, threshold, done, sent, outbox) && uid !in done && BatchOk(Batch(uid, due(uid)), threshold)
    ensures Mailed(due, threshold, done + [uid], sent, outbox + [Batch(uid, due(uid))])
  {
    forall u: nat
      ensures SentTo(outbox + [Batch(uid, due(uid))], u) == SentTo(outbox, u) + if u == uid then due(uid) else []
    {
      SentAppend(outbox, Batch(uid, due(uid)), u);
    }
  }

  lemma NotMailed(
    due: nat -> seq<Row>, threshold: nat, done: seq<nat>, sent: seq<Batch>, outbox: seq<Batch>, uid: nat)
    requires Mailed(due, threshold, done, sent, outbox) && uid !in done && due(uid) == []
    ensures Mailed(due, threshold, done + [uid], sent, outbox)
  {
  }

  /** One group: sent and the cursor moved, or neither. */
  lemma GroupStep(
    before: map<nat, int>, next: map<nat, int>, uid: nat, rts: seq<Row>, due: nat -> seq<Row>, done: seq<nat>,
    sent: seq<Batch>, outbox: seq<Batch>, threshold: nat)
    requires Group(rts, uid, due, threshold) && uid !in done
    requires Moved(before, due, done, next) && Mailed(due, threshold, done, sent, outbox)
    ensures |rts| >= threshold ==>
      && Moved(before, due, done + [uid], next[uid := rts[|rts|-1].id])
      && Mailed(due, threshold, done + [uid], sent, outbox + [Batch(uid, rts)])
    ensures |rts| < threshold ==>
      Moved(before, due, done + [uid], next) && Mailed(due, threshold, done + [uid], sent, outbox)
  {
    MovedStep(before, due, done, next, uid);
    if |rts| >= threshold {
      MailedStep(due, threshold, done, sent, outbox, uid);
    } else {
      NotMailed(due, threshold, done, sent, outbox, uid);
    }
  }

  lemma AllDone(
    cursors: map<nat, int>, window: seq<Row>, threshold: nat, due: nat -> seq<Row>, order: seq<nat>,
    next: map<nat, int>, sent: seq<Batch>, outbox: seq<Batch>)
    requires forall u: nat :: due(u) == BatchFor(cursors, window, u, threshold)
    requires forall u :: u in order <==> Fresh(window, u, CursorOf(cursors, u)) != []
    requires Moved(cursors, due, order, next) && Mailed(due, threshold, order, sent, outbox)
    ensures next == CursorsAfter(cursors, window, threshold)
    ensures forall u: nat :: SentTo(outbox, u) == SentTo(sent, u) + BatchFor(cursors, window, u, threshold)
  {
    forall u ensures u in next <==> u in cursors || BatchFor(cursors, window, u, threshold) != [] {
      assert u !in order ==> BatchFor(cursors, window, u, threshold) == [];
    }
    SameCursors(cursors, window, threshold, next);
  }

  lemma SameMin(cursors: map<nat, int>, a: int, b: int)
    requires IsMin(cursors, a) && IsMin(cursors, b)
    ensures a == b
  {
  }

  lemma SameCursors(cursors: map<nat, int>, window: seq<Row>, threshold: nat, next: map<nat, int>)
    requires forall u :: u in next <==> u in cursors || BatchFor(cursors, window, u, threshold) != []
    requires forall u | u in next :: next[u] == NextCursor(cursors, window, threshold, u)
    ensures next == CursorsAfter(cursors, window, threshold)
  {
    var r := CursorsAfter(cursors, window, threshold);
    forall u | u in next ensures u in r {
      if u !in cursors {
        var b := BatchFor(cursors, window, u, threshold);
        assert Owner(b[0]) == u && b[0] in window;
      }
    }
  }
}
