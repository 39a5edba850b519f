# Prediction-market backtesting: a verified model

This project models, in Dafny, the parts of the system where money is computed or
where a decision depends on remembered state, and proves what they promise:

- `Slippage.dfy` (with `Knapsack.dfy`): fills simulated by walking an order book, by
  USD when buying and by shares when selling, plus fees and settlement payoffs.
- `LimitOrder.dfy`, `LimitBooks.dfy`, `Engine.dfy`, `ReplayProofs.dfy`, `ReplayTrades.dfy`,
  `ReplayMemory.dfy`, `ExitMemory.dfy`: the replay of one market, with entries, take-profit / stop-loss
  exits, the re-entry cap, forward-scanning limit orders and settlement, and what holds
  and is remembered over whole runs.
- `Conditions.dfy`, `Comparisons.dfy`, `SharedCrosses.dfy`, `Strategies.dfy`,
  `SharedExits.dfy`: the Strategy Builder's AND/OR condition trees with cross detection, and the strategy object that
  keeps their memory.
- `Drawdown.dfy`, `Sharpe.dfy`, `Sweep.dfy`: maximum drawdown, the Sharpe ratio, sweep
  cells and the best cell.
- `MarketBook.dfy`: the live order book folded from snapshots and deltas.
- `MonotonePath.dfy`: the monotone cubic path of the equity curve.
- `Csv.dfy`: the CSV export and a reader for section 2 of RFC 4180.
- `RateLimiter.dfy`: the Redis token script and the two-bucket check.
- `PaperTrader.dfy`, `PaperRows.dfy`, `PollCursors.dfy`, `PollCrosses.dfy`: overlapping polls and their
  cursors, conflict-free inserts and settlement.
- `Ohlc.dfy`, `OhlcMinutes.dfy`: streaming one-minute OHLC aggregation.

Amounts, prices and times are exact `real` or `int` values. Loops of the source are
methods, proved equal to a specification function or to a stated property; the
theorems are about those functions and are quantified over every input, every run or
every log. Objects whose methods update their fields (`MarketBook`, `_Bucket`, the
aggregator, the strategy, the limiter, the positions table) are classes.
`dafny verify dfyconfig.toml` checks the whole project.

Inputs the model takes as parameters: the value a condition's extractor computes at a
snapshot (`Extractor`), a function strategy's decision, which replays raise an exception,
the square root, the clock and the expiry of Redis keys, what other requests do between
the two calls of a rate-limit check, whether Redis is within reach, market metadata and
the snapshot stream.

## Where the code and its documentation disagree

The model follows the code.

- `walk_book` announces None for a book too thin to fill the trade, but returns a
  partial fill (`Slippage.BuyFillsWhatIsThere`, `Slippage.ThinBookStillFills`).
- A close into bids that want fewer shares than are held sells those and still marks
  the whole position closed (`ReplayProofs.ThinCloseForfeitsTheRest`); everything held is
  sold exactly when the bids want as much (`ReplayProofs.CloseSellsWhatIsBid`).
- A limit entry scans forward but is stamped at the snapshot that placed it
  (`ReplayProofs.LimitOrdersAnticipate`). A replay owes nothing to the future exactly when
  every order it places is filled or past its deadline within the snapshots at hand
  (`ReplayProofs.ReplayNeedsNoFutureIffDecided`).
- The fingerprint of a cross condition is said to make its memory its own, but equal
  conditions share one. Distinct fingerprints are exactly what an AND-only tree whose
  conditions can all hold needs (`SharedCrosses.AndOnlyIffDistinct`, `Conditions.AndPairIffDistinct`), and what
  AND-only take-profit and stop-loss, which share a map, need of each other unless
  stop-loss can never hold or take-profit covers it (`SharedExits.ExitsOnEitherIff`).
- Processing a snapshot twice is said to be harmless. For an AND-only entry it is exactly
  when the entry has no cross condition or can never hold
  (`PollCrosses.OverlapHarmlessIffNoCross`).
- The cursors are said never to miss a snapshot. They do not exactly when every query but
  the first looks back to before the first one, or to before the start of a cycle that
  completed (`PollCursors.NeverSkipsIffSafe`).
- A full snapshot keeps levels of size zero, although a zero size is said to mean a
  deleted level (`MarketBooks.EmptyLevelsComeFromSnapshots`,
  `MarketBooks.SnapshotKeepsEmptyLevel`).
- The per-second limit bounds requests by when they start. It promises the same where
  they finish exactly when the limit per minute is no larger
  (`RateLimiting.FinishesLimitedIff`); otherwise up to 2·rpm − 1 of them can finish within
  two milliseconds (`RateLimiting.FinishesCanPileUp`).

## Model

| member | source | states |
|---|---|---|
| `Slippage.WalkBook` | backtest/slippage.py:66-116 | the buying loop returns the fill `BuyFill` describes for every book and size, including None for an empty or untradable book and for no shares, and never divides by a zero price |
| `Slippage.WalkBookToSellShares` | backtest/slippage.py:119-157 | the selling loop returns the fill `SellFill` describes for every book and share count |
| `Slippage.BuyFillsWhatIsThere` | backtest/slippage.py:79-116 | a purchase fills if and only if the best price is tradable and the book has depth, and then for exactly the smaller of the size and the depth |
| `Slippage.ThinBookStillFills` | backtest/slippage.py:73-116 | a book worth 5 USD answers a 100 USD order with a 5 USD fill |
| `Slippage.BuyIsOptimal` | backtest/slippage.py:87-116 | no allocation within the budget and the levels' depth buys more shares than the walk, and one spending the same amount buys exactly as many |
| `Slippage.BuyPriceBetween` | backtest/slippage.py:92-116 | the average price lies between the best ask and the last ask touched, and slippage is its distance from the best in basis points |
| `Slippage.BuyPriceGrows` | backtest/slippage.py:92-116 | average price, slippage and USD filled never decrease as the order grows |
| `Slippage.SellFillsWhatIsThere` | backtest/slippage.py:136-157 | a sale fills if and only if the best bid is tradable and shares are bid for; price times shares taken is the USD received, at no more than the best bid |
| `Slippage.SellPriceBetween` | backtest/slippage.py:143-157 | the average received lies between the last bid touched and the best bid |
| `Slippage.SellIsOptimal` | backtest/slippage.py:143-157 | no sale of at most that many shares receives more USD, and one of the same share count receives exactly as much |
| `Slippage.SellPriceFalls` | backtest/slippage.py:146-157 | selling more shares never raises the average price nor lowers slippage or proceeds |
| `Slippage.RoundTripNeverProfits` | backtest/slippage.py:66-157 | buying and selling the shares back into the same sorted, uncrossed book never yields more USD than was spent |
| `Slippage.PolymarketFeeShape` | backtest/slippage.py:191-220 | the fee rises up to the midpoint, is symmetric in YES and NO, vanishes at the edges and is 1.8% at the midpoint |
| `Knapsack.GreedyIsOptimal` | backtest/slippage.py:92-107 | walking levels best rate first is an optimal fractional knapsack for every budget |
| `Knapsack.GreedyIsAchieved` | backtest/slippage.py:92-107 | the greedy value is the worth of an actual allocation using exactly what the walk uses |
| `Knapsack.Diminishing` | backtest/slippage.py:92-112 | value per unit of budget used never improves as the budget grows |
| `LimitOrder.TryLimitFill` | backtest/engine.py:227-302 | the forward scan with its running queue state returns what `Scan` describes |
| `LimitOrder.EarliestFill` | backtest/engine.py:267-302 | an order fills at a snapshot if and only if that is the first one, up to the deadline, where the book crosses or the queue is depleted |
| `LimitOrder.QueueAwareFillsNoLater` | backtest/engine.py:246-302 | the queue-aware model fills whenever the plain one does and never later |
| `LimitOrder.LongerTimeoutKeepsFill` | backtest/engine.py:267-302 | a longer timeout keeps the same fill |
| `LimitOrder.DecreaseAtLeastNet` | backtest/engine.py:285-295 | the cumulative decrease is at least initial size minus current size |
| `LimitOrder.EmptiedLevelMeansFilled` | backtest/engine.py:273-301 | a non-empty level seen empty before the deadline means the order has filled by then |
| `LimitOrder.LookAhead` | backtest/engine.py:277-302 | cutting the stream at a snapshot takes away exactly the fills at or after it |
| `LimitOrder.SealedIffDecided` | backtest/engine.py:267-302 | no later snapshot can change the fate of an order if and only if the ones at hand fill it or one of them is past its deadline |
| `LimitBooks.OnlyOwnQueueMatters` | backtest/engine.py:182-224 | streams that agree on times and on the one side of the book the order rests on (a YES buyer's YES bids, and so on) give the same fill |
| `LimitBooks.TokensAreAlike` | backtest/engine.py:182-224 | exchanging YES and NO in every snapshot and in the order leaves the fill unchanged |
| `LimitBooks.PlainFillsWhenReached` | backtest/engine.py:211-224 | without queue awareness an order fills exactly at the first snapshot in time at which the best bid of its token is at or below a buyer's price, or the best ask at or above a seller's |
| `LimitBooks.QueueIsFirstNear` | backtest/engine.py:198-208 | the queue is the size of the first level within 0.0001 of the price, and zero without one |
| `LimitBooks.StillQueueIsPlain` | backtest/engine.py:246-301 | with an empty queue, or one that never shrinks, minding the queue changes nothing |
| `LimitBooks.ShrinkingQueueFillsWhenUsedUp` | backtest/engine.py:283-301 | a queue that only shrinks fills the order exactly at the first snapshot at which it is used up, unless the price is reached before |
| `Conditions.EvaluateOne` | backtest/conditions.py:281-330 | result and updated cross map of one condition are those of `EvalLeaf`, error paths included |
| `Conditions.EvaluateNode` | backtest/conditions.py:345-440 | result and updated cross map of the recursive loop are those of `Eval`, with per-pair connectors and asymmetric short-circuiting |
| `Conditions.EvaluateSection` | backtest/conditions.py:443-483 | a section is absent, a flat AND list or a tree, with the result and cross map of `EvalSection` |
| `Comparisons.ComparisonTable` | backtest/conditions.py:263-270 | which of the six comparisons fire below, at and above the threshold, for every type, on a section of one condition |
| `Comparisons.ComparisonsPartition` | backtest/conditions.py:263-270 | `>=` is the negation of `<`, `<=` that of `>`, `!=` that of `==`, and exactly one of `<`, `==`, `>` fires |
| `Comparisons.ComparisonsFollowTheValue` | backtest/conditions.py:263-270 | as the value rises `>=` and `>` stay true, and as it falls `<=` and `<` do |
| `Comparisons.FiresIffAdmitted` | backtest/conditions.py:74-117 | some value and memory fire a condition if and only if its threshold is a number and its operator one its type admits; otherwise it touches no memory either |
| `Comparisons.FingerprintsTellApart` | backtest/conditions.py:273-278 | cross conditions without the separator in their texts share a fingerprint if and only if they agree in type, side, window, operator and value |
| `Comparisons.EmptySectionsNeverHold` | backtest/conditions.py:443-475 | an absent section, an empty list and an empty group neither fire nor touch the memory |
| `Comparisons.LastChildJoins` | backtest/conditions.py:376-432 | the last child joins everything before it by its own connector, or by the group's operator where the list has none |
| `Comparisons.OrOnlyHolds` | backtest/conditions.py:415-431 | a tree of ORs without empty groups holds exactly when one of its leaves does |
| `Comparisons.LastChildIsThreaded` | backtest/conditions.py:389-432 | the evaluator with memory, join by join: an OR whose front holds neither evaluates nor records the last child, any other join evaluates it against the memory the front left |
| `Conditions.EvalRefinesTruth` | backtest/conditions.py:367-440 | with distinct fingerprints the threaded evaluator returns the left-associated fold of leaf truths against the map at the start, and records exactly the visited computable cross leaves |
| `Conditions.AndPairIffDistinct` | backtest/conditions.py:273-330 | an AND of two cross leaves means its pure reading, for all values and maps, if and only if their fingerprints differ |
| `Conditions.DuplicateCrossNeverFires` | backtest/conditions.py:273-330 | a cross condition joined by AND with a copy of itself never fires |
| `SharedCrosses.AndOnlyIffDistinct` | backtest/conditions.py:273-432 | an AND-only tree whose leaves can all hold means its pure reading, for all values and maps, if and only if no two of its cross leaves share a fingerprint |
| `Conditions.WithoutCrossLeaves` | backtest/conditions.py:314-323 | a tree without cross leaves neither reads nor writes the map |
| `Conditions.NestingPrefixChangesNothing` | backtest/conditions.py:380-432 | folding the first k children into a nested group changes neither the result nor the final map, for any connectors |
| `Conditions.ReferenceIsLastVisit` | backtest/conditions.py:317-330 | over any run of any tree with distinct fingerprints, a cross leaf is compared with its last visited computable value |
| `Conditions.FiringsAreSeparated` | backtest/conditions.py:317-330 | between two firings of a cross leaf, in either direction, there is a visit strictly on the side of its threshold that it crosses from |
| `Conditions.AndOnlyVisitsAll` | backtest/conditions.py:400-414 | an AND-only tree visits every leaf, false siblings or not, and holds exactly when all leaves do and no group is empty |
| `Conditions.AndOnlyRun` | backtest/conditions.py:317-432 | over whole runs of an AND-only section, a cross leaf holds exactly when its most recent earlier computable value was on the far side of the threshold and the current one is at or past it |
| `Strategies.Strategy.constructor` | backtest/strategies.py:137-157 | a new strategy remembers nothing, in two separate maps |
| `Strategies.Strategy.ResetMarketState` | backtest/strategies.py:159-163 | afterwards nothing is remembered, whatever was before |
| `Strategies.Strategy.Enter` | backtest/strategies.py:165-186 | the action and the new memory are those of `Decide`; exit memory is untouched |
| `Strategies.Strategy.OnInPosition` | backtest/strategies.py:188-216 | the exit signal and the new memory are those of `DecideExit`; entry memory is untouched |
| `Strategies.EntryIsSection` | backtest/strategies.py:165-186 | an entry happens if and only if the entry section is absent or holds, in the configured direction and size |
| `Strategies.AbsentEntryAlwaysEnters` | backtest/strategies.py:165-186 | no entry section, or an empty list, enters at the first opportunity; any other enters exactly when it holds |
| `Strategies.ExitIsEither` | backtest/strategies.py:200-216 | with fingerprints distinct across both sections, an exit happens if and only if take-profit or stop-loss holds against the map at the start of the snapshot |
| `SharedExits.ExitsOnEitherIff` | backtest/strategies.py:200-216 | AND-only exits with distinct fingerprints in each section mean either section, for all values and memories, if and only if stop-loss can never hold, or the sections share no fingerprint, or they share a cross condition and take-profit, without an empty group, has no condition that stop-loss lacks |
| `SharedExits.SharedCrossNeverStops` | backtest/strategies.py:200-216 | with a cross condition under both sections, the exit happens exactly when take-profit holds: stop-loss never fires |
| `Strategies.StatelessWithoutCross` | backtest/strategies.py:165-186 | without cross conditions on entry, decisions do not depend on memory and leave it alone |
| `Engine.CloseAt` | backtest/engine.py:402-420 | a close is booked at the mid or by walking the bids with the shares held, or not at all |
| `Engine.OpenAt` | backtest/engine.py:469-514 | an entry passes the price ceiling, then fills as a limit order, at the mid or by walking the asks, or not at all |
| `Engine.Consult` | backtest/engine.py:382-514 | what a snapshot leads to, and the strategy's memory afterwards, are those of `OutcomeAt`: exits when in a position, entries below the cap |
| `Engine.BookInto` | backtest/engine.py:421-440 | a close marks its entry, appends the round trip and frees the position; an entry appends a trade and occupies it; fees accumulate |
| `Engine.ReplaySingleMarket` | backtest/engine.py:305-541 | whatever the strategy instance remembered before, trades, P&L and fees are those of a freshly built one |
| `ReplayProofs.HistoryIsWindow` | backtest/engine.py:357-379 | the deque always holds exactly the last sixty snapshots |
| `ReplayProofs.HandedIsJustBefore` | backtest/engine.py:379-454 | the strategy is handed exactly the at most 59 snapshots just before the current one |
| `ReplayProofs.RunKeepsLog` | backtest/engine.py:357-529 | after every snapshot of every replay: entries and closes alternate, closes undo their entry's side, a position is open exactly when the log length is odd, entries stay within the cap and fees are the sum of trade fees |
| `ReplayProofs.ReplayBooksBalance` | backtest/engine.py:531-541 | at the end every trade is settled, one trade per position carries its P&L, and market P&L is proceeds minus cost of closed positions plus settlement of an open one |
| `ReplayTrades.ReplayTradesAreMade` | backtest/engine.py:357-541 | every entry in the final log answers an action asked for at some snapshot, in side, price, size, slippage and fee, by walking the asks, at the mid or as a resting order; every close undoes the entry before it, for the shares that one bought, into the bids or at the mid |
| `ReplayTrades.BuyGoesThroughIff` | backtest/engine.py:469-514 | a market buy goes through if and only if the best ask is a price between 0 and 1 within the ceiling and something is for sale |
| `ReplayTrades.CloseGoesThroughIff` | backtest/engine.py:402-420 | a close goes through if and only if shares are held and the best bid is such a price with something bid for |
| `ReplayTrades.MidEntryGoesThroughIff` | backtest/engine.py:157-172 | at the mid, an entry goes through if and only if both sides are quoted and a buyer's ask is within the ceiling |
| `ReplayTrades.FunctionStrategiesTradeOnce` | backtest/engine.py:361-365 | a function strategy makes at most one trade |
| `ReplayTrades.ConditionEntriesAreCapped` | backtest/engine.py:365-444 | a condition-based one enters at most as often as it is set to |
| `ReplayTrades.FlatBelowCapIsAsked` | backtest/engine.py:443-458 | and is asked at every snapshot at which it is flat and has entered less often, with the 59 snapshots before and the market's first one |
| `ReplayProofs.SettlementBounds` | backtest/engine.py:105-138 | a settled buy loses at most its stake and gains at most a payout of one per share less the stake |
| `ReplayProofs.SettlementIsZeroSum` | backtest/engine.py:105-138 | a buyer's settled gain is the seller's loss, and equal share counts of YES at p and NO at 1 − p net to zero however the market resolves |
| `ReplayProofs.WinnersArePaid` | backtest/engine.py:120-138 | a winning token pays one per share and a losing one nothing, for buyers and sellers of either token |
| `ReplayProofs.BuyOnlyLossIsBounded` | backtest/engine.py:105-541 | a run that only buys never loses more than the sum of its entry sizes |
| `ReplayProofs.MarketBuyTakesTheAsks` | backtest/engine.py:469-514 | a market buy is booked only within the price ceiling, for what the asks hold, between the best ask and the last one touched, with the platform's fee on it |
| `ReplayProofs.CloseSellsWhatIsBid` | backtest/engine.py:402-419 | a close sells the smaller of what is held and what is bid for, and at a positive price everything held if and only if the bids want as much |
| `ReplayProofs.ThinCloseForfeitsTheRest` | backtest/engine.py:402-439 | a close into thin bids sells only what they take, yet leaves no position and books the loss |
| `ReplayProofs.ImmediateExitNeverProfits` | backtest/engine.py:402-514 | entering and leaving on the same sorted, uncrossed snapshot never makes money |
| `ReplayProofs.MidRoundTripIsNeutral` | backtest/engine.py:402-508 | at mid fills, leaving on the snapshot of the entry returns exactly the cost if and only if the mid is positive or nothing was spent |
| `ReplayProofs.LimitEntryIsMaker` | backtest/engine.py:477-500 | a limit entry fills its whole size free of fee and slippage, at a clamped price no worse than the ask it undercuts, at a crossing or depleted snapshot before its deadline |
| `ReplayProofs.MarketEntriesLookBack` | backtest/engine.py:442-514 | market-order entries do not depend on later snapshots |
| `ReplayProofs.RunDoesNotAnticipate` | backtest/engine.py:378-529 | then the whole replay state after k snapshots does not depend on later ones |
| `ReplayProofs.FillsOnlyGrow` | backtest/engine.py:423-440 | fills are never rewritten, and new ones carry the time of the snapshot that made them |
| `ReplayProofs.PrefixReplayAgrees` | backtest/engine.py:357-541 | replaying a prefix makes exactly the fills (time, side, price, size, fee) the full market-order replay makes on it |
| `ReplayProofs.EntryNeedsNoFutureIffDecided` | backtest/engine.py:477-514 | an entry is the same whatever snapshots follow if and only if it places no limit order, or the snapshots at hand fill it or pass its deadline |
| `ReplayProofs.ReplayNeedsNoFutureIffDecided` | backtest/engine.py:357-529 | up to any k snapshots the replay's state is the same whatever follows if and only if every order placed before k is filled or past its deadline within the snapshots at hand |
| `ReplayProofs.LimitOrdersAnticipate` | backtest/engine.py:477-528 | a concrete limit-order run whose fill at the first snapshot appears only once the second is known |
| `ReplayMemory.EntryMemory` | backtest/engine.py:443-458 | over any replay, the entry section's memory is that of evaluating its tree once at each snapshot at which the replay was flat and below the cap, and at no other |
| `ReplayMemory.EntryFiresInReplay` | backtest/engine.py:443-463 | an AND-only entry section asks for an entry exactly when every condition holds, cross conditions against their most recent computable value among the earlier consultations |
| `ExitMemory.ExitsRemember` | backtest/strategies.py:188-216 | over any replay of AND-only exits with fingerprints distinct across both, take-profit compares with the last computable value over all earlier snapshots spent in a position, earlier positions included, and stop-loss over those at which take-profit did not hold |
| `ExitMemory.ExitFiresInReplay` | backtest/engine.py:382-440 | in a position, the replay books a close exactly when every condition of take-profit, or every one of stop-loss, holds against those references, and then what the market gives |
| `Drawdown.MaxDrawdown` | backtest/engine.py:563-572 | one pass returns the least change of the running total from any moment to any later one |
| `Drawdown.WorstFallIsWorst` | backtest/engine.py:563-572 | the running minimum below the running peak is attained between two moments and bounds the change between any two |
| `Drawdown.ConcatIsNoBetter` | backtest/engine.py:563-572 | a drawdown is never positive, and that of a concatenation is no better than that of either part |
| `Drawdown.WorstFallIsUnique` | backtest/engine.py:563-572 | the specification determines the drawdown |
| `Sharpe.RatioIgnoresOrder` | backtest/engine.py:544-560 | the Sharpe ratio does not depend on the order of the results |
| `Sharpe.NoRatioWithoutSpread` | backtest/engine.py:550-558 | when every market gives the same result there is no ratio, however many there are |
| `Sharpe.RatioHasSignOfTotal` | backtest/engine.py:544-560 | where there is a ratio, it has the sign of the total |
| `Sharpe.RatioMeasuresScatter` | backtest/engine.py:544-563 | there is a ratio if and only if there are five results or more, scattered by at least a millionth, and its square is the total's square over n times the sum of squares less the total's square |
| `Sweep.ReplayGridCell` | backtest/sweep.py:113-153 | one object replayed over all markets reports totals, win rate, Sharpe ratio and drawdown of fresh per-market replays, and nothing exactly when one of them raises an exception |
| `Sweep.ReplayMarket` | backtest/sweep.py:125-131 | each market gets the result of a strategy built for it alone, or the exception it raises |
| `Sweep.TallyCountsNetPnls` | backtest/sweep.py:132-152 | markets counted are those that traded, wins are those with a strictly positive net result, and net P&L is the sum of the net results |
| `Sweep.WinRateIsFraction` | backtest/sweep.py:143 | the win rate is the proper fraction of wins among counted markets, zero when there are none |
| `Sweep.CellsReportMarkets` | backtest/sweep.py:108-155 | a cell's P&L, fees and trades are the sums over all its markets; its net result, count, Sharpe ratio and worst fall are those of the net results of the markets that traded |
| `Sweep.CellsReportWins` | backtest/sweep.py:139-155 | its win rate is the share of strictly positive net results among them |
| `Sweep.SweepTradesAreMade` | backtest/sweep.py:122-128 | every trade of a sweep answers what was asked, or undoes the entry before it, by walking the book with market orders under a ceiling of one |
| `Sweep.OrderDoesNotMatter` | backtest/sweep.py:113-141 | any reordering of the markets leaves every total of a cell unchanged |
| `Sweep.CellsIgnoreOrder` | backtest/sweep.py:113-153 | two cells over reordered markets agree on everything, Sharpe ratio included, but drawdown |
| `Sweep.AxisIsEven` | backtest/sweep.py:55-73 | an axis has the asked number of values, includes both ends and is evenly spaced |
| `Sweep.ShortAxes` | backtest/sweep.py:55-70 | no axis leaves the parameter alone, and one of a single step or fewer is its start |
| `Sweep.RunCell` | backtest/sweep.py:206-222 | a specification that cannot be built, or a replay that raises, gives the zero summary, anything else the summary of its fresh replays |
| `Sweep.FailedCellsAreEmpty` | backtest/sweep.py:205-225 | the cell of a rejected specification or a failed replay shows nothing gained, lost or traded |
| `Sweep.RunCells` | backtest/sweep.py:196-224 | the grid has a row per y and a cell per x, each the summary of its own pair of values |
| `Sweep.BestCell` | backtest/sweep.py:230-236 | the first cell, row by row, with the highest net result |
| `MonotonePath.MonotoneCubicPath` | web/components/BacktestResult.tsx:775-815 | for every point list the path starts at the first point and has exactly the segments `SegmentAt` describes, coordinates that are no finite number included |
| `MonotonePath.Secants` | web/components/BacktestResult.tsx:780-788 | gaps and secant slopes of neighbouring points, a vertical step counting as one wide |
| `MonotonePath.TangentAt` | web/components/BacktestResult.tsx:794-803 | zero where the slopes do not share a sign, else their weighted harmonic mean, None where that divides by zero |
| `MonotonePath.Tangents` | web/components/BacktestResult.tsx:790-803 | every entry of the array is the tangent of its point |
| `MonotonePath.FiniteTangentIff` | web/components/BacktestResult.tsx:794-803 | between gaps that do not go back, a tangent is no finite number if and only if both gaps vanish and the slopes share a sign |
| `MonotonePath.FiniteIffNotPinched` | web/components/BacktestResult.tsx:775-815 | when x never goes back, a segment is drawn in numbers if and only if neither end has both neighbours at its own x on a climb or a fall |
| `MonotonePath.InteriorTangentIsTame` | web/components/BacktestResult.tsx:794-803 | a finite interior tangent has the sign of both adjacent slopes and at most three times the magnitude of either |
| `MonotonePath.TangentWeighsGaps` | web/components/BacktestResult.tsx:794-803 | between slopes of one sign the tangent is the harmonic mean in which either slope weighs a third plus a third of the other gap's share |
| `MonotonePath.ShorterGapPrevails` | web/components/BacktestResult.tsx:794-803 | on a steepening climb with the shorter gap first, it is at most the even harmonic mean |
| `MonotonePath.TangentsAreTame` | web/components/BacktestResult.tsx:790-803 | so do both end tangents of every segment with its slope |
| `MonotonePath.SegmentsAreMonotone` | web/components/BacktestResult.tsx:770-815 | when x never goes back, every Bezier segment drawn in numbers moves one way only over the whole of [0, 1] |
| `MonotonePath.NeverOvershoots` | web/components/BacktestResult.tsx:770-815 | and stays between its two end values, which it joins |
| `MonotonePath.XIsLinear` | web/components/BacktestResult.tsx:806-813 | a segment moves evenly in x, so the curve is the graph of a function |
| `MonotonePath.BendsJoin` | web/components/BacktestResult.tsx:790-813 | around positive gaps, neighbouring segments arrive at and leave their common point with the slope of its computed tangent |
| `MarketBooks.MarketBook.constructor` | collector/polymarket_ws.py:186-194 | a new book is that of the empty log |
| `MarketBooks.MarketBook.ReplaceFullBook` | collector/polymarket_ws.py:209-223 | replaces both sides of one token as `Apply` of a full snapshot does |
| `MarketBooks.MarketBook.ApplyDelta` | collector/polymarket_ws.py:225-242 | writes or removes one level as `Apply` of a delta does |
| `MarketBooks.MarketBook.CurrentMidYes` | collector/polymarket_ws.py:249-256 | the mid of the best YES bid and ask, None when a side is empty |
| `MarketBooks.MarketBook.ToRow` | collector/polymarket_ws.py:258-290 | every side of a row is the strictly sorted best ten levels, and its mid equals the live one |
| `MarketBooks.BooksHoldLastWrites` | collector/polymarket_ws.py:196-242 | after any log, each side maps a price to its last write since that token's last full snapshot, and to nothing when that removed it |
| `MarketBooks.OtherTokenUntouched` | collector/polymarket_ws.py:209-242 | an event about one token leaves the other unchanged |
| `MarketBooks.EmptyLevelsComeFromSnapshots` | collector/polymarket_ws.py:216-242 | a level without size is in the book if and only if a full snapshot quoted it and nothing touched it since |
| `MarketBooks.SnapshotKeepsEmptyLevel` | collector/polymarket_ws.py:216-217 | a snapshot quoting an empty best ask leaves it as the best ask |
| `MarketBooks.SortedLevelsAreSorted` | collector/polymarket_ws.py:244-247 | sorting lists every level once, strictly best first |
| `MarketBooks.TopTenIsBest` | collector/polymarket_ws.py:244-247 | the cut keeps the ten best: every level left out is worse than all of them |
| `MarketBooks.BestTenIsUnique` | collector/polymarket_ws.py:244-247 | there is only one such list |
| `MarketBooks.RowsAreWalkable` | collector/polymarket_ws.py:244-262 | after any log of non-negative quotes, emitted asks and bids meet the sorted, best-first precondition of the fill simulation |
| `MarketBooks.RowMidIsLiveMid` | backtest/engine.py:157-179 | the mid and the best ask the engine reads from an emitted row are those of the live book |
| `Csv.InferColumns` | web/components/ExportButtons.tsx:142-157 | the loop returns the keys of the first fifty records in order of first appearance |
| `Csv.AddKeys` | web/components/ExportButtons.tsx:149-154 | one record extends the order by exactly its new keys |
| `Csv.FirstSeenIsOrdered` | web/components/ExportButtons.tsx:142-157 | the columns are exactly the keys, without repetition, ordered by first appearance |
| `Csv.ColumnsAreEarlyKeys` | web/components/ExportButtons.tsx:142-157 | a column is a key of one of the first fifty records, and nothing else is |
| `Csv.PlainCellsStayPlain` | web/components/ExportButtons.tsx:171-178 | a cell is printed as it is if and only if it holds no quote, comma or line break |
| `Csv.CellsShowValues` | web/components/ExportButtons.tsx:159-169 | text and scalars show as they are, objects as their JSON, and what is missing or has no JSON as nothing |
| `Csv.ReadFieldUndoes` | web/components/ExportButtons.tsx:171-178 | a reader of section 2 of RFC 4180 recovers any escaped cell, whatever quotes, commas and line breaks it holds |
| `Csv.ReadUndoesToCsv` | web/components/ExportButtons.tsx:125-140 | reading an export back gives the exact header and cell strings |
| `Csv.ReadsBackIffColumns` | web/components/ExportButtons.tsx:125-140 | for a non-empty row list the round trip holds if and only if there is a column |
| `Csv.DistinctTablesPrintDifferently` | web/components/ExportButtons.tsx:125-178 | tables that print alike have the same header and cells |
| `RateLimiting.Redis.constructor` | api/rate_limiter.py:86-96 | a store without keys, and no call on record |
| `RateLimiting.Redis.TokenBucket` | api/rate_limiter.py:56-80 | reply and stored counter of the script, as one atomic step |
| `RateLimiting.Redis.Consume` | api/rate_limiter.py:141-145 | one run of the script answers from, and extends, the log of all calls |
| `RateLimiting.Redis.Elapse` | api/rate_limiter.py:115-125 | while a request awaits, other calls run and time passes |
| `RateLimiting.RateLimiter.ConsumeOne` | api/rate_limiter.py:135-164 | the script's decision and effect, or letting the request through unchanged with Redis out of reach |
| `RateLimiting.RateLimiter.Check` | api/rate_limiter.py:104-133 | decision and calls made, for any calls of others and any expiries between its own two, and every combination of reachable calls |
| `RateLimiting.KeysNeverCollide` | api/rate_limiter.py:115-125 | burst and minute keys of any ids are different, and distinct ids have distinct keys |
| `RateLimiting.ScriptSpendsOne` | api/rate_limiter.py:56-80 | a request is allowed exactly when there is a token or no live bucket, then one token is spent, and no other key changes |
| `RateLimiting.RemainingNeverNegative` | api/rate_limiter.py:51-80 | remaining is non-negative if and only if the bucket is live or the limit is at least one, as it is in every tier |
| `RateLimiting.ReplyTellsReset` | api/rate_limiter.py:56-80 | the seconds to reset are within half a second of the time until the bucket is full again, and remaining is what is left in it |
| `RateLimiting.UnreachableIsAllowed` | api/rate_limiter.py:146-157 | with neither call within reach the request is let through, only others' calls are made, and the smaller limit is reported as remaining |
| `RateLimiting.BurstAloneDecides` | api/rate_limiter.py:104-157 | with only the burst bucket within reach it alone decides and is spent; what is reported is the smaller of what is left and the full minute limit |
| `RateLimiting.MinuteAloneDecides` | api/rate_limiter.py:104-157 | with only the minute bucket within reach it alone decides and is spent; what is reported is the smaller of the full burst limit and what is left |
| `RateLimiting.CheckSpends` | api/rate_limiter.py:104-133 | whatever comes between its calls, a check admits if and only if each bucket has a token at its own call; it then spent one of each, and a burst refusal makes no minute call |
| `RateLimiting.LifeAdmitsAtMostLimit` | api/rate_limiter.py:56-80 | over any log of calls in time order, one bucket life admits exactly the tokens it has lost, at most the limit |
| `RateLimiting.SpanAdmitsUnderTwiceLimit` | api/rate_limiter.py:56-80 | any span of one window length admits at most twice the limit less one |
| `RateLimiting.SpanBoundIsMet` | api/rate_limiter.py:56-80 | for every limit and window some log reaches that bound |
| `RateLimiting.CheckIsTwoSteps` | api/rate_limiter.py:104-133 | among any steps of other requests, before and between, a check adds its burst call and, if that is allowed, its minute call, and the result is an interleaving again |
| `RateLimiting.AdmittedSpentBoth` | api/rate_limiter.py:104-133 | in any interleaving, an admitted request spent one token of each bucket, each at its own call |
| `RateLimiting.RefusedStopsThere` | api/rate_limiter.py:118-121 | in any interleaving, a refused burst call is the only call of its request and leaves the minute bucket as it was |
| `RateLimiting.ChecksAreLimited` | api/rate_limiter.py:104-133 | in any interleaving with any expiries, at most 2·rps − 1 requests of a key that start in one second are admitted, and at most 2·rpm − 1 finish in one minute |
| `RateLimiting.FinishesLimitedIff` | api/rate_limiter.py:104-133 | in every interleaving with any expiries at most 2·rps − 1 admitted requests of a key finish in any one second, if and only if its minute limit is at most its limit per second |
| `RateLimiting.FinishesCanPileUp` | api/rate_limiter.py:104-133 | its failing family: requests started a second apart can all be admitted, 2·rpm − 1 of them finishing within two milliseconds, which is as many as a minute allows |
| `PaperTrading.PaperTrader.constructor` | worker/paper_trader.py:612-619 | the worker starts from an empty table and no instances |
| `PaperTrading.PaperTrader.OpenPosition` | api/paper_db.py:168-207 | inserts unless the strategy already has a row for the market, and says whether it did |
| `PaperTrading.PaperTrader.Evaluate` | worker/paper_trader.py:478-553 | one strategy on one snapshot: filters, decision, fill and insert; the count is the number of rows added |
| `PaperTrading.PaperTrader.OpenPositionsForNewSnapshots` | worker/paper_trader.py:461-555 | the double loop leaves the state of `Scan`, and counts exactly the rows added |
| `PaperTrading.PaperTrader.SettlePositionsForMarket` | api/paper_db.py:210-253 | closes every open row of the market with its own P&L, touches no other row and returns how many there were |
| `PaperTrading.FirstTriggerIsEarliest` | worker/paper_trader.py:461-553 | the row that counts is that of the earliest triggering, fillable snapshot |
| `PaperTrading.ScanInserts` | worker/paper_trader.py:461-553 | after a scan each row is the one already there, else that of the earliest trigger |
| `PaperTrading.RowsAreEligible` | worker/paper_trader.py:461-551 | with or without cross conditions, every row a scan adds comes from a snapshot of an unresolved market, after the strategy's start and passing its filters, and is the fill, in that snapshot's book, of what the strategy decides there against some memory |
| `PaperTrading.OverlapAddsNothing` | worker/paper_trader.py:58-63 | looking again at part of the stream already seen changes no row |
| `PaperTrading.PollsInsertFirstTriggers` | worker/paper_trader.py:612-663 | after any gapless polls a row is that of the earliest trigger in everything seen |
| `PaperTrading.OverlappingPollsAreOnePass` | worker/paper_trader.py:612-663 | gapless polls, however they overlap, leave the very table of a single pass, when entries have no cross conditions |
| `PaperRows.RowIffDue` | worker/paper_trader.py:461-553 | after any gapless polls a buying strategy has a row for a market if and only if some snapshot seen was of that market, unresolved, matching its filters, no earlier than its start, wanted by its entry section and with something for sale; the row is the purchase at the first such snapshot, with its price, size, slippage and fee |
| `PaperRows.MemoriesAreSeparate` | worker/paper_trader.py:461-527 | what a strategy remembers about one market is changed by that market's snapshots only |
| `PollCrosses.OverlapHarmlessIffNoCross` | worker/paper_trader.py:59-62 | for an AND-only entry with distinct fingerprints, gapless polls leave the table of a single pass, for all extractors, market data, streams and polls, if and only if the entry has no cross condition or can never hold |
| `PollCrosses.OverlapFakesACross` | worker/paper_trader.py:59-62 | its failing family: a snapshot past all thresholds, then one before them, opens a position when polled twice and none in a single pass |
| `PollCursors.NeverSkipsIffSafe` | worker/paper_trader.py:612-663 | for given starts and failures, no stream and no polls that carry them out within the query limit skip a snapshot, if and only if every query but the first looks back to before the first one or to before the start of a completed cycle |
| `PollCursors.SkippedForGood` | worker/paper_trader.py:621-663 | what a cycle skips is never scanned later |
| `PollCursors.QueryReturnsOldest` | worker/paper_trader.py:417-430 | a query returns the visible snapshots since its cursor, the oldest 100000 of them |
| `PollCursors.CursorsLeaveNoGaps` | worker/paper_trader.py:417-663 | such a plan leaves no gaps and stays within the stream, however long its cycles take and whatever its failed ones scanned |
| `PaperTrading.RowsOnlyAge` | api/paper_db.py:190-253 | over any sequence of polls and resolutions rows only go from absent to open to closed, keeping their fill |
| `PaperTrading.PaperPnlAgreesWithEngine` | api/paper_db.py:290-313 | the formula agrees with the engine's if and only if the price is positive, the trade is a buy or its size is zero |
| `PaperTrading.InsertedRowsSettleAlike` | worker/paper_trader.py:529-551 | every row inserted from a book without negative prices or sizes settles alike in both formulas, whatever the outcome |
| `PaperRows.ResolvedRowsCarryOutcome` | api/paper_db.py:210-253 | a resolved market's open rows carry the outcome and the profit the engine would settle them at, and rows of other markets are untouched |
| `PaperTrading.PayoffAgreesWithEngine` | backtest/slippage.py:160-188 | the settlement payoff agrees with the engine's formula if and only if the price is positive or the size is zero |
| `Ohlc.Bucket.constructor` | collector/binance_trades_ws.py:88-98 | a new bucket has the first price everywhere and no volume |
| `Ohlc.Bucket.Add` | collector/binance_trades_ws.py:100-111 | one trade updates the row as `Added` does |
| `Ohlc.Aggregator.constructor` | collector/binance_trades_ws.py:137-140 | the aggregator starts empty |
| `Ohlc.Aggregator.HandleAggTrade` | collector/binance_trades_ws.py:144-168 | live rows, their order and the queue after a message are those of `WithTrade`, or unchanged when it is dropped |
| `Ohlc.Aggregator.StartBucket` | collector/binance_trades_ws.py:160-166 | the ticker's old row is queued and a new bucket begun, in its old place if it had one |
| `Ohlc.Aggregator.FlushOne` | collector/binance_trades_ws.py:178-181 | a bucket of a past minute moves to the queue, and nothing else changes |
| `Ohlc.Aggregator.FlushStale` | collector/binance_trades_ws.py:170-181 | every bucket of a past minute moves to the queue, in the order the entries were made |
| `Ohlc.Aggregator.Drain` | collector/binance_trades_ws.py:189-191 | hands over exactly the queued rows once and loses none |
| `Ohlc.FlushQueuesInOrder` | collector/binance_trades_ws.py:177-181 | one flush appends exactly the rows of past minutes, in order, and keeps the other entries |
| `Ohlc.TradeAdvancesTicker` | collector/binance_trades_ws.py:144-168 | a trade advances its own ticker's rows and no other's |
| `Ohlc.TickersAreIndependent` | collector/binance_trades_ws.py:144-191 | over any trades, flushes and drains, every ticker's rows are those it would have alone |
| `Ohlc.SummaryMeaning` | collector/binance_trades_ws.py:100-125 | high and low are attained and bound every price, and buy plus sell volume is the total |
| `Ohlc.StreamingIsBatch` | collector/binance_trades_ws.py:66-181 | for any mix of trades, rollovers and flushes, the rows and the live bucket are the batch summaries of consecutive one-minute segments whose concatenation is the ticker's whole stream |
| `OhlcMinutes.RowsKeepToTheirMinute` | collector/binance_trades_ws.py:66-181 | over any trades, flushes and drains, every row counts one stretch of its ticker's stream, all of it between 1000 times its label and a minute later, and the stretches are the whole stream |
| `OhlcMinutes.TradeJoinsItsMinute` | collector/binance_trades_ws.py:156-168 | a trade joins the live row if and only if no multiple of 60000 ms separates it from that row's last trade |
| `OhlcMinutes.FlushEndsMinutes` | collector/binance_trades_ws.py:170-181 | a flush queues a ticker's live row if and only if its minute is over by then |
| `OhlcMinutes.NoEndedMinuteStays` | collector/binance_trades_ws.py:170-181 | after a flush no live row's minute has ended |
| `OhlcMinutes.MessagesReported` | collector/binance_trades_ws.py:144-156 | a message is dropped if and only if it is about another symbol, unreadable or without a time; otherwise its trade carries its numbers |
| `OhlcMinutes.TakersFillTheirVolume` | collector/binance_trades_ws.py:100-155 | a buyer who is the maker adds to the sell volume, any other to the buy volume |

## Left out

- Floating-point rounding, `toFixed` and the text of SVG paths; amounts are exact.
- The volatility windows and the other value extractors of conditions, and the bodies of `threshold_entry`, `mean_reversion` and `time_before_resolution`: they enter as arbitrary functions.
- The engine's retries on TypeError, unknown sides, and evaluation without a cross map: unreachable from the strategies it builds.
- Dispute and N/A risk (a sha256 draw), market loading and the aggregation of `run_backtest`: I/O and hashing around the replay.
- Conditions.EvalRefinesTruth: distinct fingerprints are sufficient for every tree and, for AND-only trees, necessary; in some trees with OR (one that skips the copy) equal ones do no harm.
- MonotonePath.NeverOvershoots: nothing is claimed for point lists whose x goes back; the chart spaces its points evenly.
- Sweep.RunCells: the ceiling on the number of cells.
- PaperTrading.OverlappingPollsAreOnePass: market data are fixed over the polls, the purging of cached instances is not modelled, and strategies with cross conditions on entry are excluded because the statement is false of them.
- PollCursors.CursorsLeaveNoGaps: a cycle that fails scans whole snapshots up to there; one that fails among the strategies of a single snapshot counts as not having scanned it.
- Ohlc.Aggregator.Drain: rows whose insertion fails are dropped by the source afterwards.
- RateLimiting.ChecksAreLimited: Redis eviction other than by expiry, limits that change during a run, and runs with Redis out of reach.
- ClickHouse, Postgres, websocket and HTTP plumbing, wire parsing, the significant-move throttle, authentication and tier tables.
- `backtest/arb_engine.py`, `worker/arb_tracker.py`, `api/backtest_semaphore.py` and `api/job_store.py`.
- Diagnostic counters of the paper trader other than the rows added, and the plain-English rendering of conditions.
