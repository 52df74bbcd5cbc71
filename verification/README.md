# Verification of the grid trading bot

A Dafny 4.11 model of the money-handling core of the grid bot: the grid state machine and its
virtual window, the verified close, fill accounting, the backtester, the numeric advisors, the
funding guard, the fill backfill and the round-trip notifier. `dafny verify dfyconfig.toml` checks
all of it.

Prices, sizes and rates are reals (cents where the code compares rounded cents, integer units in the
FIFO ledger), so rounding noise is not part of the statements; ids and counters are integers. Objects
that the program updates in place are classes or arrays here; loops are loops, proved against
specification functions whose properties are the lemmas. The exchange is an adversary: resting orders
fill, shrink or vanish while any call waits, answers may fail, ids may come back as zero or not at
all, and open-order lists may lag. All its decisions are one parameter, a `Behaviour`, so statements
about every behaviour and about some behaviour are both possible.

| module | what it covers |
|---|---|
| `Nearest`, `GridLevels`, `GridFill`, `GridBot`, `BookSync`, `Rotation`, `RotationRows`, `GridRun`, `Monitor`, `RotationDrift`, `Recovery` | levels, fills and counter-orders, backfilled fills and lists of them, the virtual window, whole runs, the monitor's tick over uncovered levels |
| `Exchange`, `CloseRun`, `CloseBot`, `ClosePrice`, `CloseFaults`, `CloseRetry`, `AfterPause`, `LongSafety` | the adversarial exchange, the verified close as a function and as methods, its orders' sides and prices, the calls it gives up on, closing again, what may follow a pause, whole-run safety of a LONG bot |
| `Backfill` | paging the fill history, the insert-or-ignore archive, the watermark |
| `Fifo`, `Pairing`, `PairProfit`, `FundingSnapshots` | realized FIFO profit, spread pairing and what it earns, funding across epochs |
| `Regime`, `Trends`, `FeeFloor`, `Advisor` | regression and regime gate, what rising and falling markets are called, fee floor and ATR spacing, ranking and verdict |
| `BacktestWindow`, `Backtester`, `CandleFills`, `EquityGap` | the price-band window, the candle simulation, what a candle fills, the equity curve against cash and inventory |
| `FundingGuard`, `Coverage`, `Notifier` | funding safeguard, order-to-level matching and the duplicate killer, notifier batches |
| `Numbers`, `Collections`, `Options` | shared arithmetic, sequences and the null result |

## Where the code does less than it says

Each of these is kept as the code has it; the lemma named gives the exact condition or a witness.

- `packages/bot/src/bot/grid-engine.ts:3155-3163` reads as if every handled fill kept live position and
  implied position together. It does so exactly for the branches that reach the counter-order stage
  with a counter level not yet counted (`GridFill.DriftConserved`); a sweep handled from one stale
  snapshot loses a lot (`GridFill.StaleSnapshotLosesALot`).
- The natural gap the monitor leaves still counts as inventory when its level is on that side. The
  first fill next to it then shifts the drift by one lot, and this is the only thing in a run that
  does (`GridFill.FirstFill`, `GridRun.DriftKeptExactlyWhen`). When the monitor takes a fresh fill for
  the gap it shifts the drift too, by the lot that the next fill gives back
  (`Monitor.MistakeIsRepaired`, `Monitor.NextFillGivesBack`).
- A rotation gives every row it activates the side of the current price, so at a price outside the gap's
  band it moves the implied position (`RotationDrift.ImpliedKeptExactlyWhen`), and recovered fills bring
  the drift back only when their shortfalls cancel (`Recovery.DriftBackExactlyWhen`).
- A pause ignores cancels that failed. After it the position only shrinks and keeps its side exactly
  when no order that can fill and is not reduce-only has survived (`AfterPause.ShrinksExactlyWhen`);
  one surviving sell turns a closed long short (`AfterPause.SurvivorFlips`).
- A close knows of no order that an earlier close left. When it is called again for a bot whose
  instance is gone, neither the pause nor the first attempt cancels anything, and its first limit order
  rests beside the old one even when every cancel works (`CloseRetry.RetryStacks`). No two close orders
  are ever live together exactly when the instance is still held, or the position is flat, or no order
  is live (two, with the gap fast path) (`CloseRetry.RetrySafeExactlyWhen`). A close that failed leaves
  an order only without escalation; one that broke off may leave one (`CloseRetry.LeavesExactlyWhen`).
- Rotation ignores the answer of a cancel and parks the row all the same, so the order cap is exceeded
  by what failed (`Rotation.CapExactly`, `Rotation.FailedCancelOverfills`).
- `packages/bot/src/bot/backtester.ts:223-226` says a level re-armed within a candle lies inside the
  band. At the window's edge it does not (`BacktestWindow.RearmedLevel`).
- A backfill starts at the bot's newest archived fill, so a gap below it, left by a capped run or by a
  live poll that archived a newer fill first, is never looked at again (`Backfill.HoleStaysOpen`).
- A server that ignores `end_time` is left at the next request exactly when nothing arrived in between
  or the grown history still fits one page (`Backfill.RepeatDetected`); on a full page one arrival
  hides the repetition (`Backfill.FullPageHides`).
- Re-running spread pairing equals one fresh run whenever the archive grew at its end. A late older buy
  is harmless exactly unless it takes a sell that another buy had been paired with, and a late older
  sell exactly when it finds no buy or one that no later sell had been paired with
  (`Pairing.LateBuyHarmlessExactlyWhen`, `Pairing.LateSellHarmlessExactlyWhen`); otherwise a
  stored pair remains that a fresh run would not make (`Pairing.LateFillPairsTwice`).
- Lots of at most epsilon are dropped, and a rest of a sell of at most epsilon is not matched: the
  reported profit and open size stay near the unit queue's, within epsilon for each sell, oversold or
  not (`Fifo.EpsilonCostsLittle`).
- The backtester's equity curve is not cash plus inventory: a sell is credited with the price of the
  level below as its cost, while the average cost leaves (`EquityGap.CurveGap`,
  `EquityGap.SaleUnderstated`).
- A funding counter that restarts at or above the baseline is not seen as a new epoch
  (`FundingSnapshots.ReopenSeenExactlyWhen`).
- One idle subscriber can stop every notification for good: exactly when, for every user, the fresh
  rows of the window and the room left in it are together below the threshold
  (`Notifier.SilentExactlyWhen`), a state two polls reach (`Notifier.SilenceIsReached`). A new
  subscriber's first batch leaves out the rows at or below the smallest cursor
  (`Notifier.FirstBatchSkips`).
- The fee floor looks at the middle of the range; a wide grid at a 1% override rate passes and loses at
  its top pair (`FeeFloor.WideGridCanLose`).
- Only a LONG bot's take-profit orders are reduce-only; a SHORT bot can be filled across zero exactly
  when its live buys exceed its short (`LongSafety.ShortCrossesExactlyWhen`).
- With a non-positive slope threshold a flat series counts as a down-trend in both directions of time
  (`Regime.ReversedRegime`).

## Model

| member | source | states |
|---|---|---|
| Nearest.TopIsNearest | packages/bot/src/bot/grid-engine.ts:3972-3979 | the stable sort by distance and the slice of M keep exactly the M nearest open levels: min(M, n) of them, each ranking before every level left out |
| Nearest.TopExactlyWhen | packages/bot/src/bot/grid-engine.ts:3972-3979 | a level is among the M nearest exactly when it is open and fewer than M other open levels are nearer, or as near with a smaller index |
| GridLevels.CheckPositionDrift | packages/bot/src/bot/grid-engine.ts:3165-3214 | drift is reported exactly when live position and the inventory sum differ by more than the given share of the smallest positive level quantity, and by more than a rounding error |
| GridFill.DriftConserved | packages/bot/src/bot/grid-engine.ts:3155-3163 | for equal quantities, handling the fill of an unfilled level moves the implied position by what was traded if and only if the counter-order stage was reached with a counter level not yet counted; long and short |
| GridFill.SingleGapKept | packages/bot/src/bot/grid-engine.ts:4658-4744 | a completed fill next to the gap moves the gap onto the filled level, keeps only buys below and only sells above, and is balanced |
| GridFill.FirstFill | packages/bot/src/bot/grid-engine.ts:4658-4744 | next to the monitor's natural gap a completed fill leaves one genuine gap on the filled level, and keeps the drift exactly when the old gap's level was not on the inventory side; otherwise it is off by one lot |
| GridFill.GapIsNeverInsideWindow | packages/bot/src/bot/grid-engine.ts:4696-4713 | with virtual levels on, a genuinely filled counter level is ranked outside the window at any price, so the fill itself never places its order |
| GridFill.InsideExactlyWhen | packages/bot/src/bot/grid-engine.ts:4696-4713 | a counter level is inside the window exactly when it is not filled and fewer than the window's size of the other levels, the filled one aside, are nearer to the price |
| GridFill.CounterGoesLive | packages/bot/src/bot/grid-engine.ts:4696-4744 | beside a natural gap inside the window, or with virtual levels off, a placement that returns leaves that level active on the other side; outside the window it is parked without an order |
| GridFill.FillLeaves | packages/bot/src/bot/grid-engine.ts:4658-4744 | for any table and outcome of the placement: which rows a fill changes and what it leaves in them, from the counter row's own order, its rank near the price and the outcome alone |
| GridFill.StaleSnapshotLosesALot | packages/bot/src/bot/grid-engine.ts:4632-4638 | two fills handled from one snapshot: the second lot is bought and never offered |
| GridFill.BestMatchIsNearest | packages/bot/src/bot/grid-engine.ts:4778-4789 | the scan finds the nearest unfilled level of the fill's side within tolerance, the first on a tie, whenever there is one |
| GridFill.OwnLevelIsTheMatch | packages/bot/src/bot/grid-engine.ts:4772-4789 | with levels at least a tolerance apart a fill at a level's price can only be matched to that level |
| GridBot.GridBotInstance.HandleLevelFill | packages/bot/src/bot/grid-engine.ts:4658-4744 | the table afterwards is the one of the specification in every branch: grid edge, counter already ordered, parked, ordered, outside band, retry, margin stop; the outcome of the placement is a parameter |
| GridBot.GridBotInstance.ProcessBackfilledFill | packages/bot/src/bot/grid-engine.ts:4763-4808 | a recovered fill is skipped exactly when it is known, unmatched or its level is covered by a live order, and otherwise handled like a live one and remembered |
| GridBot.GridBotInstance.ProcessRecovered | packages/bot/src/bot/grid-engine.ts:3115-3133 | the sorted fills one after another on freshly read rows, ended by a margin stop, leave the rows and remembered ids of the specification |
| Recovery.TargetIsItsRow | packages/bot/src/bot/grid-engine.ts:4763-4808 | a recovered fill is handled as the nearest open row of its own side within tolerance, the first on a tie, and not at all after a margin stop, when known, without such a row, or with an order still open there |
| Recovery.StopsExactlyWhen | packages/bot/src/bot/grid-engine.ts:3115-3133 | a fill ends the recovery exactly when it is handled, its counter-order was due at once and ran into the margin stop |
| Recovery.EffectOff | packages/bot/src/bot/grid-engine.ts:4658-4744 | handling one fill moves the implied position by what was traded and by the lots it is off: -1 onto a counter row counted before, the filled row's lot without a counter-order, else none |
| Recovery.DriftBackExactlyWhen | packages/bot/src/bot/grid-engine.ts:3115-3133 | a list of recovered fills brings the drift back to what it was before they were traded exactly when its fills' lots off cancel, known, unmatched, covered and stopped fills included |
| GridBot.GridBotInstance.SyncCoverage | packages/bot/src/bot/grid-engine.ts:4415-4490 | rows near an open order take over its id and side and become active, no other row changes: the sync of a run; the rest are returned nearest first, except virtual rows |
| BookSync.SyncOfRow | packages/bot/src/bot/grid-engine.ts:4415-4490 | for orders near one level each: a parked row is left alone and not missed; any other takes over an open order near its price with its id and side, and one without such an order stays as it is and is reported |
| GridBot.GridBotInstance.SettleUncovered | packages/bot/src/bot/grid-engine.ts:4492-4570 | the nearest uncovered row becomes the natural gap; the others are collected as new fills, left alone or placed again, until a margin stop |
| GridBot.GridBotInstance.RotateVirtualWindow | packages/bot/src/bot/grid-engine.ts:3968-4045 | rows, number of open orders and margin stop after one rotation, for any answers of the exchange |
| RotationRows.PlannedExactlyWhen | packages/bot/src/bot/grid-engine.ts:3972-3991 | an active row with an order id is to lose it, and a virtual row to get one, exactly as at least, or fewer than, M open rows are nearer to the price; both lists are nearest first |
| RotationRows.RowsAfter | packages/bot/src/bot/grid-engine.ts:3997-4036 | cancelled rows are parked whatever the cancel came to, rows tried up to the first margin stop hold the price's side, the quantity and what their placement left, the others are untouched |
| Rotation.CapKept | packages/bot/src/bot/grid-engine.ts:3997-4018 | a rotation leaves at most max(M, orders before) orders open, plus the cancels that failed |
| Rotation.CapExactly | packages/bot/src/bot/grid-engine.ts:3997-4018 | that cap holds for every placement outcome exactly when planned activations and failed cancels fit into planned cancels and spare room |
| Rotation.FailedCancelOverfills | packages/bot/src/bot/grid-engine.ts:3998-4016 | one failed cancel with a window of one leaves two orders open |
| Rotation.RotationStep | packages/bot/src/bot/grid-engine.ts:3968-4045 | with calls succeeding, exactly the cancelled and activated levels stop being misplaced and the order count keeps matching the active levels |
| Rotation.RotationProgress | packages/bot/src/bot/grid-engine.ts:3968-4045 | while a level is misplaced a rotation repairs at least one |
| Rotation.MisplacedFalls | packages/bot/src/bot/grid-engine.ts:3968-4045 | at a fixed price the number of misplaced levels falls every tick down to none |
| Rotation.Converges | packages/bot/src/bot/grid-engine.ts:3968-4045 | after as many ticks as there were misplaced levels exactly the M nearest open levels are active |
| GridRun.StepKeeps | packages/bot/src/bot/grid-engine.ts:4658-4744 | one fill, rotation or order sync keeps one gap, natural or genuine, the equal quantities, and the drift but for the first fill next to a natural gap |
| GridRun.RunConservesDrift | packages/bot/src/bot/grid-engine.ts:3155-3195 | in every run of fills next to the gap, rotations and syncs, from a genuine or a natural gap, there is one gap with buys below and sells above, and live minus implied position changes only by that first fill; long and short |
| GridRun.DriftKeptExactlyWhen | packages/bot/src/bot/grid-engine.ts:3155-3195 | a run keeps the drift exactly unless it has a fill and started from a natural gap on the inventory side |
| GridRun.PositionFollowsGap | packages/bot/src/bot/grid-engine.ts:3155-3195 | between two points of such a run, from either kind of gap, the position moves by one quantity for each level the gap moved |
| GridRun.ImpliedOfGap | packages/bot/src/bot/grid-engine.ts:3155-3163 | for a genuine gap of a long bot the implied position is one quantity for each row above the gap |
| Monitor.TickRows | packages/bot/src/bot/grid-engine.ts:4492-4570 | a tick marks the nearest uncovered row, rewrites exactly the rows placed again, and leaves the others |
| Monitor.TickOutcome | packages/bot/src/bot/grid-engine.ts:4492-4570 | a margin stop is passed on exactly when some placement raised it with fewer than 94 orders open; and what a row placed again holds |
| Monitor.FilledReported | packages/bot/src/bot/grid-engine.ts:4492-4570 | the levels returned as filled are those found so before any margin stop |
| Monitor.TickKeepsExactlyWhen | packages/bot/src/bot/grid-engine.ts:4492-4570 | one tick keeps the implied position exactly when as many rows become inventory as cease to be, for any fills, waits and placements |
| Monitor.MistakeIsRepaired | packages/bot/src/bot/grid-engine.ts:4492-4570 | a tick that takes a fresh fill for the gap leaves a natural gap and equal quantities, and shifts the drift by one lot exactly when the filled level was inventory |
| Monitor.NextFillGivesBack | packages/bot/src/bot/grid-engine.ts:4492-4570 | the next fill beside that gap whose handling completes brings the drift back to what it was before the first, and leaves a genuine gap |
| RotationDrift.SidesKeptExactlyWhen | packages/bot/src/bot/grid-engine.ts:3968-4045 | a rotation at any price, with any placement outcomes, keeps every side exactly when each row it tries to activate has the side the price gives it |
| RotationDrift.ImpliedKeptExactlyWhen | packages/bot/src/bot/grid-engine.ts:3968-4045 | and the implied position exactly when it turns as many rows into inventory as out of it |
| CloseBot.LaterRead | packages/bot/src/bot/grid-engine.ts:1621-1674 | once only reduce-only orders are live, a later position has the earlier one's side or is flat, and is no larger |
| CloseBot.Bot.PauseBot | packages/bot/src/bot/grid-engine.ts:1479-1507 | the instance is gone and the row paused; only with an instance is anything cancelled, and what the cancel left live is recorded |
| CloseBot.Bot.ResolveId | packages/bot/src/bot/grid-engine.ts:1681-1712 | a known id is kept, a zero id is looked up by price among the shown orders, and none stays none |
| CloseRun.ResolvedKnown | packages/bot/src/bot/grid-engine.ts:1681-1712 | with at most one order live, an id that is found is that order's id |
| CloseBot.Bot.Attempt | packages/bot/src/bot/grid-engine.ts:1621-1724 | one limit attempt is the step of the specification, for every behaviour; it sends at most one order, reduce-only, and from a clean start a sell of a long position or a buy of a short one, no larger than it |
| CloseRun.AttemptedAlone | packages/bot/src/bot/grid-engine.ts:1621-1724 | with working cancels and nothing live before the first attempt, or one order whose id is known or was never learned before a later one, the order sent is live alone |
| CloseBot.Bot.Escalate | packages/bot/src/bot/grid-engine.ts:1736-1823 | at most one reduce-only market order after the limit order is cancelled and the position re-read: a sell of a long position, a buy of a short one |
| CloseBot.Bot.LimitPhase | packages/bot/src/bot/grid-engine.ts:1597-1725 | at most four limit orders, or one when escalation is on, and none when escalation is immediate |
| CloseBot.Bot.CloseBot | packages/bot/src/bot/grid-engine.ts:1518-1876 | against any exchange, with any orders resting and any failing cancels: the outcome and the account are those of the specification; every order sent is within the budget and reduce-only; if only reduce-only orders were live before or after the pause's cancel, the position only shrinks and keeps its side from that very moment on; stopped only when the last read was within dust; otherwise paused with exactly the size last read, after every order of the budget, or an error after a failed call; with working cancels, for a bot whose instance is held or with no order live, no create leaves two orders live, at most one remains, and none after a failed escalation |
| CloseBot.Bot.BeginClose | packages/bot/src/bot/grid-engine.ts:1528-1530 | the moment from which the close counts is the entry when no plain order was live, and the end of the pause otherwise; whether a plain order survived is told by what the pause left live |
| CloseRun.CloseAlone | packages/bot/src/bot/grid-engine.ts:1597-1823 | with working cancels and nothing live at the start, no create leaves two orders live, at most one order remains, a successful close leaves one only if its id was never learned, and a failed escalation none |
| ClosePrice.CrossesTheMarket | packages/bot/src/bot/grid-engine.ts:1650-1656 | a closing sell is priced at or below the last price and a closing buy at or above it, to the cent |
| ClosePrice.MoreAggressive | packages/bot/src/bot/grid-engine.ts:1650-1656 | no later attempt of a sell asks more and none of a buy offers less than an earlier one at the same price |
| ClosePrice.LimitOrderSent | packages/bot/src/bot/grid-engine.ts:1621-1674 | the limit order that an attempt sends is reduce-only, of the size read, a sell exactly for a long position, and crosses the market |
| ClosePrice.MarketOrderSent | packages/bot/src/bot/grid-engine.ts:1736-1800 | the market order is reduce-only, of the size read, and a sell exactly for a long position |
| ClosePrice.FullFillCloses | packages/bot/src/bot/grid-engine.ts:1628-1674 | a closing order that fills for its whole size leaves less than 0.01 of the position it was sent against, and never the other side |
| ClosePrice.CanClose | packages/bot/src/bot/grid-engine.ts:1597-1823 | with no order live and a dust of at least 0.01, some behaviour of the exchange ends the close with the position closed |
| CloseRun.IdAtExactlyWhen | packages/bot/src/bot/grid-engine.ts:1681-1712 | a zero id resolves to the first shown order less than 1 away from the price, and to none exactly when there is no such order |
| CloseFaults.ZeroIdFoundExactlyWhen | packages/bot/src/bot/grid-engine.ts:1681-1712 | a zero id becomes known exactly when the lookup answered and showed an order less than 1 away from the price |
| CloseFaults.PollsExactlyWhen | packages/bot/src/bot/grid-engine.ts:1713-1724 | the polls of a step end with a flat position, after the last poll, or with the first read that fails, and only then in an error |
| CloseFaults.LimitGoesOnExactlyWhen | packages/bot/src/bot/grid-engine.ts:1649-1724 | a limit attempt goes on exactly when price, create and every poll answered; the lookup of its id may fail |
| CloseFaults.MarketGoesOnExactlyWhen | packages/bot/src/bot/grid-engine.ts:1757-1823 | the market order goes on exactly when its price and polls answered; a create that fails leaves the position as read and is no error |
| CloseFaults.ReadComesFirst | packages/bot/src/bot/grid-engine.ts:1618-1627 | an attempt or the escalation whose read fails, fails, and one that reads a position within dust is done without sending anything |
| CloseFaults.AnswersMeanNoError | packages/bot/src/bot/grid-engine.ts:1518-1876 | while every call answers, the close ends closed or failed and never in another error |
| CloseRetry.CrowdsExactlyWhen | packages/bot/src/bot/grid-engine.ts:1621-1674 | once the first two reads have answered, some continuation with working cancels has two close orders live exactly when neither read was flat and an order is still live (two, with the gap fast path; none suffices when the limit phase is over before it begins, as everything is cancelled then) |
| CloseRetry.RetrySafeExactlyWhen | packages/bot/src/bot/grid-engine.ts:1630-1648 | over every behaviour with working cancels no two close orders are live together exactly when the instance is held, the position is flat, or too few orders are live |
| CloseRetry.RetryStacks | packages/bot/src/server/v2-router.ts:2593-2613 | a close without escalation that fails leaves its last order, and closing again puts a second one beside it although every cancel works |
| CloseRetry.LeavesExactlyWhen | packages/bot/src/bot/grid-engine.ts:1833-1866 | from an account with no order, a close that failed or broke off may leave an order exactly when a limit order could be sent, and for a failed close only without escalation |
| AfterPause.ShrinksExactlyWhen | packages/bot/src/bot/grid-engine.ts:1479-1507 | every continuation of fills, expiries and closing orders keeps the side and only shrinks the position exactly when no order that can fill and is not reduce-only survived the pause |
| AfterPause.SurvivorFlips | packages/bot/src/api/client.ts:752-760 | a failed cancel leaves a sell behind: the close flattens the long position and the sell turns it short |
| LongSafety.LongOrdersCannotShort | packages/bot/src/bot/grid-engine.ts:4112-4143 | of all the orders a LONG bot can send from any call site of the engine, those that are not reduce-only are buys |
| LongSafety.CallsDoTheirJob | packages/bot/src/bot/grid-engine.ts:4112-4143 | filled whole, a purchase adds its size, a closing order for the position as it is leaves nothing, and a grid order trades its quantity, a LONG bot's sell stopping at zero |
| LongSafety.UnfilledRestsExactlyWhen | packages/bot/src/bot/grid-engine.ts:1658-1674 | an unfilled grid or closing limit order stays live with its size and price; no other call leaves an order |
| LongSafety.StepSafe | packages/bot/src/bot/grid-engine.ts:1658-1674 | every send, fill, partial fill or expiry keeps the position non-negative and every live sell reduce-only |
| LongSafety.LongNeverShort | packages/bot/src/bot/grid-engine.ts:4112-4123 | no interleaving of any of the calls with any fills makes a LONG bot's position negative at any moment |
| LongSafety.RunBalances | packages/bot/src/bot/grid-engine.ts:4132-4143 | position = held before + bought - sold, in every run |
| LongSafety.SoldWasBought | packages/bot/src/bot/grid-engine.ts:4112-4120 | a LONG bot never sells more than it held and bought |
| LongSafety.ShortCrossesExactlyWhen | packages/bot/src/bot/grid-engine.ts:4112-4123 | fills can turn a SHORT bot long exactly when its live buys exceed its short position |
| Backfill.Database.InsertFillArchive | packages/bot/src/database/db.ts:1573-1600 | insert-or-ignore: an existing row stays as it was, and the answer tells whether a row was added |
| Backfill.Database.GetLatestFillEventTimeForBot | packages/bot/src/database/db.ts:1624-1629 | the newest archived time of the bot, and none exactly when it has no row |
| Backfill.Watermark | packages/bot/src/bot/grid-engine.ts:3042-3056 | the later of the lookback cap and the bot's newest archived fill, or its creation when it has none: never before any archived fill of the bot |
| Backfill.BehindCapExactlyWhen | packages/bot/src/bot/grid-engine.ts:3042-3045 | a time lies behind the cap exactly when it is further back than the lookback |
| Backfill.AbsorbMeaning | packages/bot/src/database/db.ts:1562-1600 | inserting a list changes no old row, adds exactly the times of the wanted fills, and each new row has the side, price, size and fee of the fill at its time, and the bot and instrument of the target |
| Backfill.AddedExactlyWhen | packages/bot/src/bot/grid-engine.ts:3076-3086 | a time is added exactly when a fill of the pair carries it and it is later than the watermark |
| Backfill.NewOnesAreNew | packages/bot/src/bot/grid-engine.ts:3085-3105 | one new row per reported fill, none there before, no two for one time |
| Backfill.RerunAddsNothing | packages/bot/src/bot/grid-engine.ts:3015-3016 | running again over the same history adds nothing |
| Backfill.NextPage | packages/bot/src/bot/grid-engine.ts:3108-3111 | the page asked for next starts right below the last one, however many fills have arrived since |
| Backfill.OldestFalls | packages/bot/src/bot/grid-engine.ts:3069-3074 | against a server that honours end_time the stall guard never fires |
| Backfill.ArchivePage | packages/bot/src/bot/grid-engine.ts:3076-3106 | archive, list of new fills and scanned count after one page |
| Backfill.PageBackwards | packages/bot/src/bot/grid-engine.ts:3059-3112 | at most the batch cap of requests, each answered page recorded; every page but possibly a repeated or empty last one is looked at; against an obedient server any other exit than the cap leaves no wanted fill unseen, and the cap means all its requests were made |
| Backfill.BackfillFills | packages/bot/src/bot/grid-engine.ts:3028-3118 | every exit but the cap leaves the archive as if an obedient server's whole history at the first request had been inserted; a capped run made all its requests, each adding fills newer than the watermark; the pages of a server that ignores end_time are its newest ones of a growing history; inserted is the number of rows added; new fills come oldest first, each once |
| Backfill.RepeatDetected | packages/bot/src/bot/grid-engine.ts:3069-3074 | a newest page repeated by a server that ignores end_time has the same oldest fill exactly when nothing arrived in between or the grown history fits one page |
| Backfill.IgnoredEndTimeIsNoticed | packages/bot/src/bot/grid-engine.ts:3059-3112 | so against such a server, growing or not, the request after the k-th is the last exactly under that condition, unless the watermark or the cap ended the run there |
| Backfill.FullPageHides | packages/bot/src/bot/grid-engine.ts:3069-3074 | with a full page one arrival lets the repetition pass |
| Backfill.CompleteRun | packages/bot/src/bot/grid-engine.ts:3028-3112 | after such an exit a fill of the pair is archived exactly when it was before or is newer than the watermark, and a new row is that fill's |
| Backfill.NewRowsBalance | packages/bot/src/bot/grid-engine.ts:3076-3106 | the units bought, the units sold and the fees of the rows a backfill adds are those of the fills it reports as new |
| Backfill.HoleStaysOpen | packages/bot/src/bot/grid-engine.ts:3046-3050 | a fill missing below the bot's newest archived one is not archived by any number of later runs |
| Fifo.ConsumeSell | packages/bot/src/database/db.ts:1808-1821 | for any epsilon the loop leaves the lots, profit and trips of the recursive ledger, and terminates |
| Fifo.ComputeRealizedFifo | packages/bot/src/database/db.ts:1753-1842 | profit, trips, open size and open cost are those of the ledger of the fills at this epsilon; fees, counts, times and average |
| Fifo.FeesAddUp | packages/bot/src/database/db.ts:1753-1842 | fees add up over any split of the archive, each fill's own counted once |
| Fifo.ZeroEpsilonIsTheQueue | packages/bot/src/database/db.ts:1792-1822 | at epsilon 0 the ledger's lots, profit and matches are those of the unit queue, oversold or not |
| Fifo.LedgerAccounts | packages/bot/src/database/db.ts:1792-1822 | at any epsilon the open lots are the units bought last, every unit bought is matched, dropped or open, every unit sold is matched or short, and the profit is the proceeds of what was matched less what it had cost |
| Fifo.DroppedBounded | packages/bot/src/database/db.ts:1816-1819 | dropped lots hold at most epsilon units each, and epsilon for each sell together |
| Fifo.ShortBounded | packages/bot/src/database/db.ts:1809-1811 | without overselling at most epsilon units for each sell stay unmatched |
| Fifo.EpsilonCostsLittle | packages/bot/src/database/db.ts:1753-1842 | for every archive, oversold or not, open size and matches are within epsilon for each sell of the unit queue's, and the profit within that many price spreads |
| Fifo.TakeFromFirst | packages/bot/src/database/db.ts:1810-1816 | taking m units from the first lot takes the m oldest units of the queue at their cost |
| Fifo.SellInTwo | packages/bot/src/database/db.ts:1809-1817 | selling m and then n units is selling m + n |
| Fifo.NthSoldMatchesNthBought | packages/bot/src/database/db.ts:1792-1822 | without overselling the n-th unit sold is matched with the n-th unit bought |
| Pairing.BestBuyIsTightest | packages/bot/src/bot/grid-engine.ts:5281-5289 | the scan takes the pending buy with the smallest spread inside the bounds, the oldest on a tie, or none fits |
| Pairing.PrefixMonotone | packages/bot/src/bot/grid-engine.ts:5262-5309 | the pairs of a prefix of the fills are a prefix of all pairs |
| Pairing.EachFillOnce | packages/bot/src/bot/grid-engine.ts:5262-5309 | every buy is pending or in one pair, every paired sell is used once |
| Pairing.PairsAreSound | packages/bot/src/bot/grid-engine.ts:5262-5309 | in every pair the buy precedes the sell and the spread is strictly inside the bounds |
| Pairing.RerunIsFreshRun | packages/bot/src/database/db.ts:1850-1875 | re-running on an archive grown at its end leaves the table of one fresh run |
| Pairing.AnyNumberOfRuns | packages/bot/src/database/db.ts:1850-1875 | so does any number of runs on a growing archive |
| Pairing.RerunSameExactlyWhen | packages/bot/src/database/db.ts:1850-1875 | after a re-run on any changed archive the table holds a fresh run's rows exactly when every old pair is still a pair |
| Pairing.LateBuyHarmlessExactlyWhen | packages/bot/src/bot/grid-engine.ts:5273-5309 | a late buy anywhere in the archive leaves a fresh run's table exactly unless the first sell that takes it had been paired with another buy |
| Pairing.LateSellHarmlessExactlyWhen | packages/bot/src/bot/grid-engine.ts:5273-5309 | a late sell does exactly when it finds no buy, or one that no later sell had been paired with |
| Pairing.LateFillPairsTwice | packages/bot/src/bot/grid-engine.ts:5281-5306 | a late tighter buy in the middle of the archive leaves one sell stored with two buys |
| Pairing.Database.InsertPairedRoundtrip | packages/bot/src/database/db.ts:1850-1875 | insert-or-ignore on the two fill ids |
| Pairing.Database.CalculateRealGridProfit | packages/bot/src/bot/grid-engine.ts:5250-5320 | the result is the gross of the pairs less all fees, and exactly the pairs are stored |
| PairProfit.GrossIsProceedsLessCosts | packages/bot/src/bot/grid-engine.ts:5290-5294 | the gross profit is what the paired sells brought in less what their units had cost at the prices of their buys |
| PairProfit.EachProfitWithin | packages/bot/src/bot/grid-engine.ts:5281-5306 | every stored profit lies strictly between the bounds on the spread times the size of the sell |
| PairProfit.EveryPairEarns | packages/bot/src/bot/grid-engine.ts:5262-5316 | with lower < upper and positive sizes every pair earns, and the net is above minus the fees as soon as there is a pair |
| PairProfit.FitsExactlyWhen | packages/bot/src/bot/grid-engine.ts:5262-5286 | a buy fits a sell exactly when the spread is more than half a spacing and less than three |
| PairProfit.NeighboursFit | packages/bot/src/bot/grid-engine.ts:5262-5264 | a sell k spacings above a buy fits the bounds exactly for k = 1 and k = 2, on any instrument |
| PairProfit.NetOfOneMore | packages/bot/src/bot/grid-engine.ts:5274-5316 | one more fill costs its fee and earns the spread of the pair it makes, if it makes one |
| FundingSnapshots.SnapshotMeaning | packages/bot/src/database/db.ts:1429-1461 | baseline is the running minimum, net the sum of the increments over polls that set no new minimum, and the carried amount never falls |
| FundingSnapshots.NetIsSumOfEpochs | packages/bot/src/database/db.ts:1429-1478 | for epochs that each start below everything before and never fall below their start, net is the sum of last minus first |
| FundingSnapshots.ReopenSeenExactlyWhen | packages/bot/src/database/db.ts:1440-1451 | after any polls an epoch that never falls below its start is booked with its gain exactly when it starts below everything before, or where the last poll ended |
| FundingSnapshots.RowIsOwnHistory | packages/bot/src/database/db.ts:1429-1461 | after any interleaving of upserts each pair has one row, made from its own polls alone, and none exactly when it was never polled |
| FundingSnapshots.NetIsWhatWasBooked | packages/bot/src/database/db.ts:1429-1478 | a bot's net is the sum of what each of its polls booked over its own pair's last poll, whatever was polled in between |
| FundingSnapshots.Database.UpsertFundingSnapshot | packages/bot/src/database/db.ts:1429-1461 | the pair's row is updated or added; no other bot's net moves |
| FundingSnapshots.Database.GetNetFundingForBot | packages/bot/src/database/db.ts:1471-1478 | the sum over the bot's rows of latest - baseline + carried |
| Regime.DenominatorClosed | packages/bot/src/bot/regime.ts:57-75 | the denominator is n^2(n^2-1)/12, so it is zero exactly below two points |
| Regime.LeastSquares | packages/bot/src/bot/regime.ts:57-75 | no other slope and intercept have as small a residual sum |
| Regime.LinregSlope | packages/bot/src/bot/regime.ts:57-75 | the loop computes that slope, and null exactly below two points |
| Regime.SlopeReverses | packages/bot/src/bot/regime.ts:57-75 | reversing the series negates the slope |
| Regime.RatioMeaning | packages/bot/src/bot/regime.ts:40-55 | the ratio lies in [0,1], is unchanged by reversal, and is 1 exactly for a series that moves and moves one way only |
| Regime.EfficiencyRatio | packages/bot/src/bot/regime.ts:40-55 | the loop computes net move over path, 0 on a flat path, null below two points |
| Regime.ClassifyRegime | packages/bot/src/bot/regime.ts:77-98 | the state, ratio and trend percentage of the series |
| Regime.ReversedRegime | packages/bot/src/bot/regime.ts:77-98 | reversal swaps up and down exactly unless a flat trend passes a non-positive threshold |
| Regime.GateIsSymmetric | packages/bot/src/bot/regime.ts:100-114 | a long grid is gated as a short grid is in the reversed market |
| Trends.RisingMarket | packages/bot/src/bot/regime.ts:77-114 | a market that moves and never falls has a positive trend, is trend_up or range as the thresholds say, never stops a long grid and stops a short one when it trends |
| Trends.FallingMarket | packages/bot/src/bot/regime.ts:77-114 | the mirror image: trend_down or range, never stops a short grid and stops a long one when it trends |
| Trends.FlatMarket | packages/bot/src/bot/regime.ts:77-98 | a market that does not move is range, or trend_down when neither threshold is positive |
| Trends.StraightLine | packages/bot/src/bot/regime.ts:57-98 | on a straight line the slope is that of the line and the trend the whole move in percent of the mean close |
| FeeFloor.EnvFeeRate | packages/bot/src/bot/fee-model.ts:28-37 | a rate between 0 and 1% is taken over, anything else falls back, so the rate stays within 0 and 1% |
| FeeFloor.AcceptedExactlyWhen | packages/bot/src/bot/grid-engine.ts:2208-2266 | a range is accepted exactly when it has 2 to 95 grids (500 with virtual levels) and holds, for each, three times the fee of a trade at mid-range |
| FeeFloor.TopPairDecides | packages/bot/src/bot/fee-model.ts:54-82 | every adjacent pair earns a positive net exactly when the top pair does |
| FeeFloor.AcceptedGridEarns | packages/bot/src/bot/grid-engine.ts:2208-2266 | an accepted grid earns on every adjacent pair when upper <= 3 * lower, and for any range at a rate up to 1/1500 |
| FeeFloor.WideGridCanLose | packages/bot/src/bot/grid-engine.ts:2251-2266 | an accepted wide grid at 1% loses at its top pair |
| FeeFloor.AtrWithin | packages/bot/src/bot/atr.ts:43-67 | Wilder's average lies between the smallest and largest true range |
| FeeFloor.RangeSpans | packages/bot/src/bot/atr.ts:43-57 | a true range spans the candle and the close before it |
| FeeFloor.AtrForgets | packages/bot/src/bot/atr.ts:58-67 | each range moves the average by a period-th of its distance, so two histories that agree from some range on come closer by (period - 1)/period with every range |
| FeeFloor.ComputeAtr | packages/bot/src/bot/atr.ts:43-67 | the loops compute the seed mean smoothed over the later ranges, and null exactly for a bad period or too few candles |
| FeeFloor.DeriveAtrSpacing | packages/bot/src/bot/atr.ts:108-146 | null exactly for a bad range, multiplier or average; otherwise the spacing is clamped, flagged, never under the fee floor, and positive exactly when the cap is |
| FeeFloor.LimitsInPrice | packages/bot/src/bot/atr.ts:122-130 | in price the floor is the larger of the configured share of mid-range and the fee floor; the cap is the configured one unless below the floor |
| FeeFloor.TrueSpacingKept | packages/bot/src/bot/atr.ts:141-142 | after rounding the grid count two thirds of the spacing remain exactly when the range is at least 4/3 of it |
| FeeFloor.DerivedGridPaysFees | packages/bot/src/bot/atr.ts:92-142 | such a grid's true spacing is at least 2 * mid * feeRate |
| Advisor.SplitWindows | packages/bot/src/bot/advisor.ts:97-107 | windows of at least 30 candles whose concatenation is the input, n of them when long enough, one or none otherwise |
| Advisor.MedianSplits | packages/bot/src/bot/robustness.ts:28-32 | at least half of the returns are on either side of the median |
| Advisor.MedianIsMiddle | packages/bot/src/bot/robustness.ts:28-32 | the median is the middle return, or midway between the middle two |
| Advisor.StatsMeaning | packages/bot/src/bot/robustness.ts:38-51 | the mean lies between worst and best, win rates 0 and 100 mean what they say, and a positive mean needs a positive win rate |
| Advisor.ComparatorIsPreorder | packages/bot/src/bot/robustness.ts:67-74 | compareRobustness is a total preorder and ties only on equal keys |
| Advisor.WhoRanksFirst | packages/bot/src/bot/robustness.ts:67-74 | winning on average ranks first, then the milder worst window, then the more frequent win, then the higher mean |
| Advisor.SortRanks | packages/bot/src/bot/advisor.ts:178 | the sort ranks every pair best first and is stable |
| Advisor.BestIsViable | packages/bot/src/bot/advisor.ts:178-183 | the first candidate is one of the scored ones and no candidate beats it |
| Advisor.BestLosesLeast | packages/bot/src/bot/advisor.ts:178-183 | if any candidate wins on average the first one does, and no such candidate has a milder worst window, nor the same one and more frequent wins |
| Advisor.EvidenceNoGo | packages/bot/src/bot/advisor.ts:89-94 | the evidence is no_go exactly when a candidate was scored and every scored candidate's mean return is at most 0 |
| Advisor.RecommendExactly | packages/bot/src/bot/advisor.ts:89-94 | green means a green gate and a first candidate with positive mean, half the windows won and no loss of 20% |
| Advisor.ConfidenceNeedsBoth | packages/bot/src/bot/robustness.ts:81-85 | med needs half the windows won and no loss of 25%, high three quarters and no loss of 10%; more wins or a milder worst window never lower it |
| Advisor.ReasonMatchesVerdict | packages/bot/src/bot/advisor.ts:185-192 | the verdict is the worse of gate and evidence, and the reason names a side that says so: on a tie the gate when both stop, the backtest when both caution |
| Advisor.Advise | packages/bot/src/bot/advisor.ts:178-204 | verdict, reason, and a best-first list in which nothing left out beats anything recommended |
| BacktestWindow.WindowIsContiguous | packages/bot/src/bot/backtester.ts:227-236 | the N nearest unfilled levels are a contiguous slice of the unfilled levels |
| BacktestWindow.BandIsWindow | packages/bot/src/bot/backtester.ts:227-255 | the band accepts an unfilled level exactly when it is one of them |
| BacktestWindow.RearmedLevel | packages/bot/src/bot/backtester.ts:221-226 | a level re-armed by a fill is accepted exactly when the window goes on past the filled level on that side |
| CandleFills.LevelTrades | packages/bot/src/bot/backtester.ts:238-290 | a waiting level trades exactly when the candle traded at its price or better and the window holds it, is counted as missed when only the window excludes it, and the trade moves position, cost, equity, fees and levels by its price and quantity |
| CandleFills.NothingFills | packages/bot/src/bot/backtester.ts:238-255 | a candle above every waiting buy and below every waiting sell changes nothing |
| CandleFills.ChangeNeedsReach | packages/bot/src/bot/backtester.ts:238-255 | a pass that changes anything met a waiting level that the candle reached |
| CandleFills.QuietMarket | packages/bot/src/bot/backtester.ts:220-320 | a market that stays between the orders of the initial grid trades nothing over the whole run |
| CandleFills.LongPays | packages/bot/src/bot/backtester.ts:292-308 | at a candle a long pays the sum of the rates on the value of its position, and a short receives the same amount |
| CandleFills.GridAtStart | packages/bot/src/bot/backtester.ts:160-205 | no level of the initial grid is through the market, and a long starts with one quantity for each sell level, bought at the first close |
| CandleFills.PurchaseCosts | packages/bot/src/bot/backtester.ts:189-205 | that purchase loses the slippage on its cost and the taker fee on cost and slippage, each once |
| Backtester.RunBacktest | packages/bot/src/bot/backtester.ts:125-342 | the in-place simulation gives the rounded report of the specification's final state for every candle sequence: net profit is the equity gained, and the factor 0 or infinite on a grid with lower <= upper |
| Backtester.StepInPlace | packages/bot/src/bot/backtester.ts:220-320 | so does one candle |
| Backtester.ReportShows | packages/bot/src/bot/backtester.ts:322-342 | the report shows the books to the cent, an average trip and a factor that multiply back to net and gross profit within half a cent each, one point for each candle, and the days spanned, at least one |
| Backtester.EquityIdentity | packages/bot/src/bot/backtester.ts:184-326 | equity - investment = gross profit - gross loss - fees - funding - slippage after any candles |
| EquityGap.CurveGap | packages/bot/src/bot/backtester.ts:256-312 | a point of the curve is cash plus inventory at the close plus the sum over the sells of the cost that left less the cost credited; below the divisor's floor of 0.0001 the forgotten cost is added |
| EquityGap.SkewIsAverage | packages/bot/src/bot/backtester.ts:263-282 | that difference is (average cost - price of the level below) * quantity |
| EquityGap.SaleUnderstated | packages/bot/src/bot/backtester.ts:263-282 | bought at 10 and 8 and sold at 11, the curve is one below cash plus inventory |
| Backtester.AverageKept | packages/bot/src/bot/backtester.ts:279-282 | a sell leaves the average cost unchanged |
| Backtester.AverageCostBounded | packages/bot/src/bot/backtester.ts:189-283 | the position is never negative, an empty one has no cost, and the average cost lies between the lowest and highest purchase price |
| Backtester.FundingOncePerBoundary | packages/bot/src/bot/backtester.ts:292-308 | with a constant rate every 8h boundary after the first candle is charged once, in the first candle that reaches it |
| Backtester.SeriesChargedOnce | packages/bot/src/bot/backtester.ts:207-301 | with a rate series every point after the first candle is charged in order, once, in the first candle that reaches it, for any order of points and candles |
| Backtester.ChargedInOrder | packages/bot/src/bot/backtester.ts:292-301 | with the series in time order those are exactly the points after the first candle and up to the latest |
| Backtester.ClockOfRun | packages/bot/src/bot/backtester.ts:292-308 | the simulation charges each candle by that clock |
| Backtester.MaxDrawdownOverPairs | packages/bot/src/bot/backtester.ts:310-318 | while equity is non-negative the drawdown is the largest fall from any point to a later one, in percent of the earlier |
| Backtester.NoGrossLoss | packages/bot/src/bot/backtester.ts:263-278 | a grid never books a gross loss, so the profit factor is 0 or infinite |
| Backtester.RoundNear | packages/bot/src/bot/backtester.ts:122-123 | rounding is monotone and moves an amount by at most half a unit |
| FundingGuard.GuardedBot.AssertFundingHeadroom | packages/bot/src/bot/grid-engine.ts:4257-4330 | the guard's fields, the alert and the pause after one tick |
| FundingGuard.CounterIsStreak | packages/bot/src/bot/grid-engine.ts:4257-4330 | the counter is the number of pause-level hostile rollovers since the last reset, all at different times |
| FundingGuard.PauseNeedsStreak | packages/bot/src/bot/grid-engine.ts:4278-4305 | a tick pauses exactly when it is a rollover with at least the configured number of them |
| FundingGuard.TimeNeverFalls | packages/bot/src/bot/grid-engine.ts:4270-4299 | the funding time seen never goes back |
| FundingGuard.IntervalLearned | packages/bot/src/bot/grid-engine.ts:4278-4283 | an interval is learned from rollovers between half an hour and a day apart, and kept otherwise |
| FundingGuard.AlertsAreDistinct | packages/bot/src/bot/grid-engine.ts:4312-4329 | no two alerts carry the same next funding time |
| FundingGuard.RolloverMovesStreak | packages/bot/src/bot/grid-engine.ts:4278-4297 | with a position open a rollover adds to the streak when the ended interval cost the pause level, ends it when it cost nothing or less than the alert level, and leaves it in between |
| FundingGuard.AlertExactlyWhen | packages/bot/src/bot/grid-engine.ts:4312-4329 | a tick that does not pause alerts exactly when the position pays at the alert level and no alert named that funding time |
| FundingGuard.UnchargedBotRunsOn | packages/bot/src/bot/grid-engine.ts:4257-4330 | a long whose rates are never above 0, or a short whose rates are never below, is neither alerted nor paused |
| FundingGuard.ChargedBotIsPaused | packages/bot/src/bot/grid-engine.ts:4257-4305 | a position charged at the pause level in every interval is paused at the configured rollover and not before |
| Coverage.NoOrderNearTwoLevels | packages/bot/src/bot/grid-engine.ts:4415-4484 | with cent-rounded levels and a step of at least a cent no price is within tolerance of two levels |
| Coverage.NearExactlyWhen | packages/bot/src/bot/grid-engine.ts:4415-4484 | an order covers a level exactly when it is less than five cents and less than a third of a step away |
| Coverage.LevelOnGrid | packages/bot/src/bot/grid-engine.ts:4415-4484 | a level's price is its place on the grid to the nearest cent, and an order there covers it |
| Coverage.GridHasNoAliases | packages/bot/src/bot/grid-engine.ts:4415-4484 | hence no order of any book aliases two levels of the bot's grid |
| Coverage.CoverLevels | packages/bot/src/bot/grid-engine.ts:4415-4484 | every price is taken by at most one level, and only by a level within tolerance; without aliases every level takes the first price near it, whatever the order of the levels |
| Coverage.TakesItsFirst | packages/bot/src/bot/grid-engine.ts:4442-4471 | without aliases the pass gives each level what it would take alone |
| Coverage.BookMeaning | packages/bot/src/bot/grid-engine.ts:4415-4428 | the price set holds each price once, and the order remembered for a price is one of the open orders there |
| Coverage.KillDuplicatesAndOrphans | packages/bot/src/bot/grid-engine.ts:4585-4630 | what is still open afterwards, for any outcome of the cancels |
| Coverage.SurvivorsFit | packages/bot/src/bot/grid-engine.ts:4585-4630 | with cancels working the survivors have distinct prices of expected levels, so they are at most as many |
| Coverage.FirstExpectedSurvives | packages/bot/src/bot/grid-engine.ts:4585-4630 | the first order at an expected price always survives |
| Notifier.BatchIsContiguous | packages/notifier/src/index.ts:270-303 | a batch is all of the user's rows from the cursor to its last id |
| Notifier.PollServes | packages/notifier/src/index.ts:269-308 | a poll never moves a cursor back, and a batch is exactly what lies between old and new cursor |
| Notifier.DeliveredExactly | packages/notifier/src/index.ts:269-308 | over any run with an append-only log a cursor holder was sent exactly its rows between first and current cursor, in id order, each once |
| Notifier.FirstBatchSkips | packages/notifier/src/index.ts:270-288 | a user without a cursor misses exactly its rows at or below the smallest cursor |
| Notifier.FrozenForever | packages/notifier/src/index.ts:269-308 | once the fresh rows of the window and its room are together below the threshold for every user, no user is notified again, however the log grows |
| Notifier.CanStillNotify | packages/notifier/src/index.ts:269-308 | otherwise some growth of the log notifies a user |
| Notifier.SilentExactlyWhen | packages/notifier/src/index.ts:269-308 | so no extension of the log notifies anyone exactly under that condition |
| Notifier.SilenceIsReached | packages/notifier/src/index.ts:269-308 | from empty cursors two polls reach such a state, for every limit and threshold |
| Notifier.SeenWindowHasNothingDue | packages/notifier/src/db.ts:124-137 | a window of rows that were all delivered holds nothing due |
| Notifier.RoundtripNotifier.CheckRoundtrips | packages/notifier/src/index.ts:269-308 | every user is sent its batch of the poll, the cursors move to the last rows sent, and every batch reaches the threshold |

## Left out

- HTTP, authentication, signing, encryption, mail, Telegram and webhooks: calls into foreign code.
- Express routes, the v2 router, the legacy profit and compound code, the dashboard and message templates.
- SQL schema, migrations and checkpointing; the tables used are maps or sequences with unique keys.
- Floating-point error.
- Backtester.RunBacktest: the quantity per level is a parameter; its formula from investment and
  leverage is not modelled.
- Clocks, waits, throttles and logging; clock readings and tick times are arbitrary inputs.
- DRY_RUN and the close without verification, which a constant switches off.
- Partial fills of grid orders inside the grid runs: a fill there is of a whole level; partial fills are
  in the exchange model of the close and of whole-run safety.
- Fills whose counter level still carries an order, and sweeps of several fills from one snapshot, are
  outside the runs of `GridRun`; their effect is stated for one fill in `GridFill`. The monitor's
  marking and re-placing is outside them too; its effect is stated for one tick in `Monitor`.
- The verification of the initial purchase and its margin checks: they only decide whether an order is
  sent, and `LongSafety` allows every choice.
- Advisor.Advise: candidate generation is not modelled, and the backtests enter as their results.
- Backfill.BackfillFills: the paging statements are for histories whose fills all carry distinct event
  times; the archive keys on the time alone, so of fills that share one only the first is kept.
- Backfill.PageBackwards: an insert or a request that throws is not modelled; it ends the run.
- `MAX(event_time)` compares text in the database; times are numbers here, as they are for ids of one length.
- GridBot.GridBotInstance.HandleLevelFill: what placing the counter-order came to is a parameter, so the
  price band, minimum notional and margin rules that decide it are not modelled.
- CloseBot.Bot.CloseBot: trades on the same position that do not come from orders of the account are
  not modelled.
- AfterPause.ShrinksExactlyWhen: the continuations send closing orders alone. A monitor tick that is under
  way when the close is called goes on placing grid orders after the pause's cancel, as only the
  bootstrap loop tests the abort flag (`packages/bot/src/bot/grid-engine.ts:3604-3608`); such orders are
  not part of the statement, nor of the close.
- LongSafety.LongOrdersCannotShort: the call sites are the engine's. The admin manual trade
  (`packages/bot/src/server/v2-router.ts:1851-1863`) sends plain sells on a bot's pair.
- GridBot.GridBotInstance.SettleUncovered: which uncovered level is a known fill, a new fill or freshly
  placed is a parameter; the lookups in the fill lists and the 10-second guard are not modelled.
