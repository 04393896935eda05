# Market making, paper trading and backtest accounting: a verified model

A Dafny model of the state machines of a prediction-market trading system, with
proofs about all of their runs. Three parts:

- **The market-making loop.** `MMRebateV1` keeps its own ledger of quotes,
  `MMPaperDriver` turns its actions into book operations, `LimitBookSim` matches,
  expires and cancels, and `MMSafetyGuard` holds sliding windows and an inventory cap.
  `MarketMaker` gives one tick of all four as one step over the joint state.
  `MarketMakerTerms` restates it in plain terms, `MarketMakerLoop` proves what every run keeps, `RestingQuotes` tells from the state
  before a tick what rests after it, `MarketMakerSync` and `InventoryCap` turn that into
  exact conditions for agreement and for the cap, `GuardInLoop` carries the guard's
  theorems into the loop, and `Witnesses` holds the runs that break what does not hold.
  `MarketMakerObjects`, `LimitBook.LimitBookSim` and `SafetyGuard.MMSafetyGuard` are the
  mutable objects, proved to take exactly those steps.
- **Entries and exits.** `Risk` is the risk manager, `Backtest` the replay of markets
  under it and `BacktestBooks` what it records of the raw ticks, `PaperLifecycle` the positions of the paper driver as two tasks that
  interleave at awaits, `PaperBooks` what they enter and pay, `PaperLiveClock` the same under one clock, `PaperDriverObject` the
  object with its fields and its event loop, and `Settlement` the two settlement rules.
- **Numeric code with a short specification.** Avellaneda-Stoikov quotes (`Quoting`),
  drawdown (`Drawdown`), fractional-difference weights (`FracDiff`), VPIN buckets
  (`Vpin`), Wilder's ADX (`Adx`), the closed-candle lookup (`MacroLookup`) and
  walk-forward folds (`WalkForward`).

`Common`, `SlidingWindow` and `StableSort` hold the shared theory: filters, sums, queues
trimmed from the left, and a stable sort.

Conventions. Prices, sizes and times are reals and every clock reading is a parameter.
A Python dict that is iterated is a sequence with distinct keys. Client order ids are
values built from strategy, slug, microsecond timestamp, side and seed, so equal ids mean
equal fields. Every lemma about a run quantifies over all finite runs from the initial
state. Check everything with `dafny verify dfyconfig.toml`.

## Results where code and documentation part

- **The inventory cap.** The guard's comment evaluates the cap against |q x p|, but a
  quote that moved less than a cent keeps the size it was posted with while only the
  current nominal size is projected. `Witnesses.CapCanBeExceeded` is a two-tick run that
  ends beyond the cap. The exact condition is on the state before the tick: every pattern
  of fills keeps the cap if and only if each kept quote's own size fits
  (`InventoryCap.PatternsFitIff`), and in agreement with the book the fills themselves,
  and so the outcome, are decided beforehand (`InventoryCap.CapKeptIff`).
  `MarketMakerLoop.InventoryIsBounded` is the bound that every run keeps.
- **Ledger and book.** The driver documents its order ids as matching the strategy's
  ledger. Resting orders always have their ledger entry; the converse survives a tick if
  and only if no side that places a quote is refused or dropped by the global caps and no
  kept quote has expired, all told from the state before the tick
  (`MarketMakerSync.SyncStep`). `Witnesses.DroppedQuoteParts` and
  `Witnesses.ExpiredQuoteParts` are runs in which they part.
- **One entry per market.** A paper market can be entered twice when entries may happen at
  or before the window opens, or 300 s into it. `PaperLifecycle.EntersOnceIff` gives the
  exact condition on the configuration for clocks that run apart: its run around midnight
  needs ticks handled more than five minutes after the watchdog's clock has passed them.
  When ticks and sweeps share one clock, early entries are harmless and only entries 300 s
  into a window remain (`PaperLiveClock.LiveEntersOnceIff`).
- **Ties.** Backtest settlement resolves a tie up, paper settlement down
  (`Settlement.TieSplitsWinners`).
- **Walk-forward arguments.** The research builder validates its arguments; the engine
  loop does not. With a step of 0 and a window that fits it never ends; with a negative
  step and a window that fits it steps back until the calendar ends and raises an
  OverflowError (`WalkForward.EndsIff`, `WalkForward.WalkOutcome`).

## Model

| member | source | states |
|---|---|---|
| `LimitBook.AfterTickMember` | src/trading/paper/limit_book_sim.py:213-244 | after a tick exactly the orders rest that belong to another instrument or were neither crossed nor expired; ids stay distinct |
| `LimitBook.FilledMember` | src/trading/paper/limit_book_sim.py:215-227 | the filled orders are exactly the crossed unexpired ones of the instrument, the lapsed ones exactly its expired ones |
| `LimitBook.TickInPlainTerms` | src/trading/paper/limit_book_sim.py:62-63 | an order fills if it is of the instrument, not past its life, and the price is at or through its own; it lapses at the end of its life |
| `LimitBook.FillsArePlain` | src/trading/paper/limit_book_sim.py:228-240 | every fill carries its order's id, strategy, instrument, side, price and size, the tick's time, and the fee in basis points of price times size |
| `LimitBook.CancelAllKeeps` | src/trading/paper/limit_book_sim.py:180-188 | cancelling by filters keeps exactly the orders that some filter excludes |
| `LimitBook.FillsAreFifo` | src/trading/paper/limit_book_sim.py:214-240 | fills come in order of placement time, ties in book order, and are as a multiset the crossed unexpired orders |
| `LimitBook.FilledDistinct` | src/trading/paper/limit_book_sim.py:215-240 | no order fills twice in a tick |
| `LimitBook.TickIsolation` | src/trading/paper/limit_book_sim.py:202-244 | the orders of every other instrument stay, in order; none of the instrument's own is left crossed or expired |
| `LimitBook.WithoutTwice` | src/trading/paper/limit_book_sim.py:241-244 | popping one set of ids after another equals popping their union |
| `LimitBook.StepConserves` | src/trading/paper/limit_book_sim.py:129-259 | every book operation keeps placed = resting + filled + cancelled + expired |
| `LimitBook.RunConserves` | src/trading/paper/limit_book_sim.py:129-259 | over any sequence of operations each accepted order is in exactly one of the four places |
| `LimitBook.LimitBookSim.Place` | src/trading/paper/limit_book_sim.py:129-152 | the three outcomes, each with its exact condition, and the new book |
| `LimitBook.LimitBookSim.Cancel` | src/trading/paper/limit_book_sim.py:154-162 | reports whether the id rested and removes exactly it |
| `LimitBook.LimitBookSim.CancelAll` | src/trading/paper/limit_book_sim.py:164-200 | removes and counts exactly the orders that match the filters |
| `LimitBook.LimitBookSim.PopAll` | src/trading/paper/limit_book_sim.py:187-188 | popping victims one by one removes exactly their ids |
| `LimitBook.LimitBookSim.OnTick` | src/trading/paper/limit_book_sim.py:202-259 | the loop returns the fills, field by field, and leaves the book that the specification functions describe |
| `StableSort.SortIsStable` | src/trading/paper/limit_book_sim.py:215-218 | the sort used for FIFO is ordered, a permutation and stable |
| `SlidingWindow.DropIsFilter` | src/trading/engine/mm_safety.py:141-149 | on a chronological queue popping from the left equals filtering by age |
| `SlidingWindow.Slide` | src/trading/engine/mm_safety.py:141-149 | append and trim equals filtering the whole extended history |
| `SlidingWindow.PopOld` | src/trading/engine/mm_safety.py:143-149 | the popleft loop drops exactly the stale prefix |
| `SafetyGuard.WindowsAreExact` | src/trading/engine/mm_safety.py:118-149 | after each record of any chronological history the queues equal the full logs cut to their windows; the breach queue of a negative kill window holds at most the breach just recorded |
| `SafetyGuard.BreachesAreRare` | src/trading/engine/mm_safety.py:151-161 | queued breaches are a minute apart, at most K + 1 in a window of K minutes (1 if K is negative); all breaches ever raised are, for K >= 1 |
| `SafetyGuard.KillsAreJustified` | src/trading/engine/mm_safety.py:162-174 | a kill implies at least the threshold of breaches in the kill window that ended when it was decided (a negative window counts as an instant) |
| `SafetyGuard.UnreachableThreshold` | src/trading/engine/mm_safety.py:159-174 | a threshold above K + 1 is never met in any history |
| `SafetyGuard.CancelExactly` | src/trading/engine/mm_safety.py:118-174 | in every chronological history, from the times alone: a cancel is recorded as a breach if and only if the cancels in the window exceed the ratio per fill in it and no breach still queued is less than a minute old; the market is then killed for the resume time if and only if kills are on and the kill window holds the threshold |
| `SafetyGuard.EveryCancelExactly` | src/trading/engine/mm_safety.py:118-174 | so for every cancel inside a longer history |
| `SafetyGuard.OtherEventsExactly` | src/trading/engine/mm_safety.py:125-139 | fills raise no breach and change no kill; asking forgets a kill at its end and changes nothing else |
| `SafetyGuard.MarketsAreIndependent` | src/trading/engine/mm_safety.py:118-139 | in a run over many markets each one goes through exactly its own history |
| `GuardInLoop.GuardFollowsTheLoop` | src/trading/strategies/polymarket_btc15m/mm_rebate_v1.py:172-174 | in every run of the loop each market's guard state is the history of that market's own cancels, fills and kill checks |
| `GuardInLoop.EventsInOrder` | src/trading/strategies/polymarket_btc15m/mm_rebate_v1.py:192-221 | if the wall clock never runs back, those events come in order |
| `GuardInLoop.KillsInTheLoopAreJustified` | src/trading/engine/mm_safety.py:162-174 | so in every run of the loop a market is only killed after enough breaches in the kill window |
| `GuardInLoop.BreachesInTheLoopAreRare` | src/trading/engine/mm_safety.py:151-174 | in every run of the loop queued breaches are a minute apart and at most K + 1; a threshold above that never kills |
| `GuardInLoop.CancelsInTheLoopExactly` | src/trading/engine/mm_safety.py:118-174 | in every run of the loop each cancel is a breach, and kills, exactly when the market's earlier cancels, fills and breaches say so |
| `SafetyGuard.FillIsFaithful` | src/trading/engine/mm_safety.py:125-129 | recording a fill keeps queues exact and kills justified |
| `SafetyGuard.CancelIsFaithful` | src/trading/engine/mm_safety.py:118-123 | recording a cancel, with or without a breach and a kill, keeps queues exact and kills justified |
| `SafetyGuard.MMSafetyGuard.BlockPostQuote` | src/trading/engine/mm_safety.py:85-101 | blocks if and only if the projected position at the market price exceeds the cap |
| `SafetyGuard.MMSafetyGuard.RecordInventoryAfterFill` | src/trading/engine/mm_safety.py:109-111 | moves the market's signed inventory by the fill and no other market's |
| `SafetyGuard.MMSafetyGuard.RecordCancelAt` | src/trading/engine/mm_safety.py:118-174 | the whole new guard state of a cancel |
| `SafetyGuard.MMSafetyGuard.RecordFillAt` | src/trading/engine/mm_safety.py:125-129 | the whole new guard state of a fill |
| `SafetyGuard.MMSafetyGuard.IsMarketKilled` | src/trading/engine/mm_safety.py:131-139 | killed if and only if a kill has not run out; one that has is forgotten |
| `SafetyGuard.MMSafetyGuard.GcWindow` | src/trading/engine/mm_safety.py:141-149 | trims the three queues, each by its own cutoff |
| `Quoting.SigmaSquared` | src/trading/strategies/polymarket_btc15m/_mm_features.py:56-71 | nonnegative, zero exactly for degenerate prices or past the window, and without time decay for a negative window; defined wherever the source does not divide by zero |
| `Quoting.NotDegenerate` | src/trading/strategies/polymarket_btc15m/_mm_features.py:145-154 | for prices in the clamp range and positive floor and ceiling the degenerate branch is never taken |
| `Quoting.QuotesAreSound` | src/trading/strategies/polymarket_btc15m/_mm_features.py:126-154 | 0.001 <= bid < ask <= 0.999, the spread is at most the ceiling, and at zero inventory the quotes bracket the fair price |
| `Quoting.QuotesLeanAgainstInventory` | src/trading/strategies/polymarket_btc15m/_mm_features.py:74-154 | for a risk aversion of zero or more both quotes are nonincreasing in inventory |
| `Quoting.WiderWhenFillsAreRare` | src/trading/strategies/polymarket_btc15m/_mm_features.py:96-154 | for any nondecreasing logarithm a lower fill intensity k never narrows the quotes on either side |
| `Quoting.QuotesArePositive` | src/trading/strategies/polymarket_btc15m/_mm_features.py:126-154 | for any fair price the bid is at least 0.001, and the ask is positive unless the price is at or below -0.005 |
| `Quoting.QuotesInClosedForm` | src/trading/strategies/polymarket_btc15m/_mm_features.py:74-154 | both quotes from the parameters alone: half the clamped spread around the fair price less the skew; where that price leaves [0.001, 0.999] one quote sits at the end and the other half a spread inside |
| `Quoting.MiddleAndWidth` | src/trading/strategies/polymarket_btc15m/_mm_features.py:74-154 | inside the range the middle of the quotes is the fair price less the risk of q shares, and their distance the floor-and-ceiling clamp of the risk plus the intensity term |
| `Quoting.RiskInTime` | src/trading/strategies/polymarket_btc15m/_mm_features.py:71-92 | the risk of q shares is q times that of one, gamma p (1 - p) times the squared time left over the window |
| `MarketMakerLoop.StepKeepsInv` | src/trading/paper/mm_driver.py:67-136 | every tick keeps at most one quote per side under its own id, and every resting order backed by one |
| `MarketMakerLoop.RunKeepsInv` | src/trading/paper/mm_driver.py:67-197 | so does every run, for any configuration, ticks, drops and expiry |
| `MarketMakerLoop.RestingOrdersAreBacked` | src/trading/strategies/polymarket_btc15m/mm_rebate_v1.py:153-320 | after every tick of every run each resting order is in the ledger with the same id, side, price and size, at most one bid and one ask per market |
| `MarketMakerLoop.SideLedger` | src/trading/strategies/polymarket_btc15m/mm_rebate_v1.py:249-320 | a side step leaves the other side and other markets alone, empties a blocked side and leaves an open one quoted within a cent |
| `MarketMakerLoop.SideBook` | src/trading/paper/mm_driver.py:137-197 | dispatching a side step keeps every resting order backed and touches only its own market and side |
| `MarketMakerSync.SideSync` | src/trading/paper/mm_driver.py:137-197 | a side in agreement with the book stays so if and only if nothing was dropped or refused; the other side is not affected |
| `MarketMakerLoop.CancelAllBook` | src/trading/strategies/polymarket_btc15m/mm_rebate_v1.py:235-247 | giving up a market empties its ledger and its part of the book and nothing else |
| `MarketMakerLoop.DispatchConcat` | src/trading/paper/mm_driver.py:99-100 | dispatching two lists of actions in turn equals dispatching their concatenation, up to the first error |
| `MarketMakerLoop.NoQuotingNoOrders` | src/trading/strategies/polymarket_btc15m/mm_rebate_v1.py:157-181 | a tick outside zone or time window, killed or terminal, leaves nothing of the market in ledger or book |
| `MarketMakerLoop.QuotesTrackTargets` | src/trading/strategies/polymarket_btc15m/mm_rebate_v1.py:183-199 | after the reaction a capped side has no quote and an open side one within a cent of its optimum |
| `MarketMakerTerms.MayQuoteInPlainTerms` | src/trading/strategies/polymarket_btc15m/mm_rebate_v1.py:157-181 | a market is quoted if and only if its slug has the prefix, its price is in the zone and outside the dead zone, its time in the quoting window and before the terminal one, and no kill is running |
| `MarketMakerTerms.BlockedInPlainTerms` | src/trading/engine/mm_safety.py:92-96 | a side is blocked if and only if filling the size would leave the position's value at the market price beyond the cap on either sign |
| `MarketMakerTerms.RestingInPlainTerms` | src/trading/strategies/polymarket_btc15m/mm_rebate_v1.py:258-287 | what rests on each side: nothing if it may not quote or would overshoot, the old quote if it is less than a cent off, else a new one at the target and of the nominal size |
| `MarketMakerTerms.SizeInPlainTerms` | src/trading/strategies/polymarket_btc15m/mm_rebate_v1.py:187-189 | the nominal size is the stake over the bid, at least 0.001; the targets come from the market's price, inventory and time |
| `MarketMakerTerms.IdInPlainTerms` | src/trading/paper/mm_driver.py:199-208 | a quote's id is its strategy, market, microsecond, side and seed |
| `MarketMakerTerms.OrdersWerePlaced` | src/trading/paper/mm_driver.py:161-171 | every order resting in a run was placed on one of its ticks, with that tick's time, market and id, the configured life and the side of its quote |
| `MarketMakerTerms.DispatchInPlainTerms` | src/trading/paper/mm_driver.py:141-194 | what each action does to the book, and exactly when it is dropped or raises |
| `MarketMakerTerms.TickFillsInPlainTerms` | src/trading/paper/mm_driver.py:102-110 | the fills of a tick, and the three reasons for none |
| `RestingQuotes.RestingIsLive` | src/trading/strategies/polymarket_btc15m/mm_rebate_v1.py:249-320 | after the reaction each side has exactly the quote told from the state before: none if blocked, the old one if it moved less than a cent, else a new one of nominal size |
| `MarketMakerLoop.OnFillsLedger` | src/trading/strategies/polymarket_btc15m/mm_rebate_v1.py:218-221 | reporting fills drops exactly their quotes |
| `MarketMakerLoop.OnFillsInventory` | src/trading/strategies/polymarket_btc15m/mm_rebate_v1.py:211-214 | reporting fills moves the market's inventory by their net and no other's |
| `MarketMakerSync.SyncStep` | src/trading/paper/mm_driver.py:98-197 | from agreement, ledger and book agree after a tick if and only if no side that places a quote is refused or dropped and no kept quote has expired: a condition on the state before the tick |
| `MarketMakerSync.DispatchSlipsIff` | src/trading/paper/mm_driver.py:137-197 | dispatching a tick's actions drops or refuses something exactly if one of the sides was going to slip |
| `MarketMakerSync.LapsesIff` | src/trading/paper/limit_book_sim.py:219-222 | the matcher finds an expired order exactly if a kept quote's order had expired before the tick |
| `Witnesses.DroppedQuoteParts` | src/trading/paper/mm_driver.py:146-160 | a one-tick run whose dropped quote stays in the ledger without an order |
| `Witnesses.ExpiredQuoteParts` | src/trading/paper/limit_book_sim.py:219-222 | a two-tick run whose quotes stay in the ledger after their orders expired |
| `MarketMakerSync.RunStaysInSync` | src/trading/paper/mm_driver.py:67-197 | without TTL and global-cap drops, with a positive stake and a zone floor above -0.005 (so no placement is refused), ledger and book hold the same quotes after every tick of every run |
| `MarketMakerSync.SyncIsEquality` | src/trading/paper/mm_driver.py:199-208 | agreement on ids is equality of quotes, market by market |
| `MarketMakerLoop.InventoryIsNetFills` | src/trading/paper/mm_driver.py:107-122 | in every run a market's inventory is what was bought minus what was sold |
| `MarketMakerLoop.LiveMeansProjected` | src/trading/strategies/polymarket_btc15m/mm_rebate_v1.py:249-287 | a quote live after the reaction is on a side that passed the cap projection in this very tick |
| `MarketMakerLoop.FilledAreProjected` | src/trading/paper/mm_driver.py:98-122 | what fills is at most one order a side, on sides that passed the projection, of at most stake / 0.001 shares |
| `MarketMakerLoop.InventoryIsBounded` | src/trading/engine/mm_safety.py:85-111 | with positive zone floor and stake no market's absolute inventory ever exceeds cap / zone_lo + stake / 0.001 shares, even if both sides fill in one tick |
| `InventoryCap.ProjectedSizesKeepTheCap` | src/trading/strategies/polymarket_btc15m/mm_rebate_v1.py:258-287 | a position within the cap at the tick's price stays so if, before the tick, no kept quote is larger than a new one would be |
| `InventoryCap.TickFollowsAPattern` | src/trading/paper/mm_driver.py:98-122 | every tick moves the position by the resting size of exactly the sides that fill |
| `InventoryCap.PatternsFitIff` | src/trading/strategies/polymarket_btc15m/mm_rebate_v1.py:258-287 | from a position within the cap every pattern of fills keeps it if and only if each kept quote's own size fits |
| `InventoryCap.KeptSizesKeepTheCap` | src/trading/strategies/polymarket_btc15m/mm_rebate_v1.py:258-287 | so a tick keeps the cap if, before it, each kept quote's own size fits |
| `InventoryCap.CapKeptIff` | src/trading/paper/mm_driver.py:98-122 | in agreement and without a slip the sides that fill are those whose resting price the tick crosses, and the cap is kept if and only if that position fits |
| `Witnesses.CapCanBeExceeded` | src/trading/strategies/polymarket_btc15m/mm_rebate_v1.py:275-287 | a run of two ticks that is within the cap before the second and beyond it after |
| `MarketMakerObjects.MMRebateV1.OnTick` | src/trading/strategies/polymarket_btc15m/mm_rebate_v1.py:153-199 | the actions and the new ledger and guard of a tick |
| `MarketMakerObjects.MMRebateV1.CancelAllForMarket` | src/trading/strategies/polymarket_btc15m/mm_rebate_v1.py:235-247 | one cancel action and one guard record per live quote, then an empty ledger entry |
| `MarketMakerObjects.MMRebateV1.RecordCancels` | src/trading/strategies/polymarket_btc15m/mm_rebate_v1.py:244-245 | one guard record per cancelled quote |
| `MarketMakerObjects.MMRebateV1.PostOrReplaceSide` | src/trading/strategies/polymarket_btc15m/mm_rebate_v1.py:249-307 | post, replace, cancel or keep, with the new ledger and guard |
| `MarketMakerObjects.MMRebateV1.Existing` | src/trading/strategies/polymarket_btc15m/mm_rebate_v1.py:289-293 | the first live quote of a side |
| `MarketMakerObjects.MMRebateV1.OnFill` | src/trading/strategies/polymarket_btc15m/mm_rebate_v1.py:201-221 | the new inventory, fill window and ledger |
| `MarketMakerObjects.MMPaperDriver.constructor` | src/trading/paper/mm_driver.py:56-65 | a new driver is in the initial state, which satisfies the loop invariant |
| `MarketMakerObjects.MMPaperDriver.HandleTick` | src/trading/paper/mm_driver.py:67-136 | the joint state takes exactly one step, so every reachable object satisfies the loop invariant; the day rolls, and the day's trade counter moves by the fills |
| `MarketMakerObjects.MMPaperDriver.DispatchActions` | src/trading/paper/mm_driver.py:98-100 | the loop over actions, left early by a placement error |
| `MarketMakerObjects.MMPaperDriver.DispatchAction` | src/trading/paper/mm_driver.py:137-197 | the book after a post, a cancel or a replace |
| `MarketMakerObjects.MMPaperDriver.ReportFills` | src/trading/paper/mm_driver.py:111-122 | every fill reaches the strategy, in order |
| `Risk.RecentPnlsAreTheWindow` | src/trading/engine/risk.py:79-93 | for nondecreasing time `recent_pnls` is exactly the closes since the last day roll or pause that lie in the rolling window |
| `Risk.CloseForbidsEntries` | src/trading/engine/risk.py:52-93 | after a close every entry on that UTC day is denied until cooldown and pause end, whatever happens in between |
| `Risk.BreakerHolds` | src/trading/engine/risk.py:52-67 | a tripped breaker stays tripped and denies for the rest of its UTC day |
| `Risk.DailyFigures` | src/trading/engine/risk.py:47-50 | in every run of a new manager the daily PnL is the sum booked since the last change of date and the daily trades its number |
| `Risk.SinceRollIsTheLastDay` | src/trading/engine/risk.py:47-50 | the events since the last change of date are the longest suffix on one day |
| `Risk.StepFigures` | src/trading/engine/risk.py:79-83 | a close adds its result, counts one trade and starts the cooldown; a new day starts from nothing |
| `Risk.AllowedInPlainTerms` | src/trading/engine/risk.py:52-77 | an entry is allowed if and only if each gate permits it, gate by gate |
| `Risk.AskingInPlainTerms` | src/trading/engine/risk.py:55-67 | the breaker trips on exactly the attempts that only the loss limit stands against, and asking changes nothing else |
| `Risk.PausesInPlainTerms` | src/trading/engine/risk.py:84-93 | for nondecreasing time a close pauses if and only if the closes since the last roll or pause inside the rolling window have lost the threshold, and only then are they forgotten |
| `Risk.RiskManager.Roll` | src/trading/engine/risk.py:47-50 | a change of date in either direction resets the state |
| `Risk.RiskManager.CanEnter` | src/trading/engine/risk.py:52-77 | allows if and only if every gate is open; trips the breaker exactly when the loss limit is reached and no earlier gate denies, whatever the market gates say |
| `Risk.RiskManager.OnTradeClosed` | src/trading/engine/risk.py:79-93 | the whole new state of a close, including the pause |
| `Backtest.MarketAccounts` | src/trading/engine/backtest_driver.py:168-327 | a market adds at most one trade, its own, and keeps the accounts |
| `Backtest.BacktestAccounts` | src/trading/engine/backtest_driver.py:168-325 | evaluated = RISK_SKIP + ENTER + SKIP, ENTER = FILL_MISS + dropped prices + trades, trades numbered 0..n-1, no more than markets, prices in (0, 0.99] |
| `Backtest.OneTradePerMarket` | src/trading/engine/backtest_driver.py:231-233 | every trade belongs to a replayed market of its own, in the order of iteration: no market gives two |
| `Backtest.DailyLossIsBounded` | src/trading/engine/backtest_driver.py:231-327 | in every risk-on run, at every point, daily PnL is at least -(limit + stake (1 + fee_k/4)) and daily trades are within their limit |
| `BacktestBooks.TradesOfADayAreBounded` | src/trading/engine/backtest_driver.py:231-327 | in every risk-on run of a new manager, at every point, the results of the trades closed since the last change of date add up to at least -(limit + stake (1 + fee_k/4)), and their number is within its limit |
| `BacktestBooks.FiguresAreTheTrades` | src/trading/engine/backtest_driver.py:326-327 | the manager's daily figures are the sum and number of those trades |
| `BacktestBooks.RunRisk` | src/trading/engine/backtest_driver.py:244-327 | the manager goes through exactly the run's requests and trades |
| `BacktestBooks.TradesAreExplained` | src/trading/engine/backtest_driver.py:177-327 | every trade has a market of its own, was entered on a tick that allowed it at that tick's price, is won if and only if both prices are positive and settle >= open agrees with its side, and is paid and charged accordingly |
| `BacktestBooks.OpenPriceIsOpen` | src/trading/engine/backtest_driver.py:177-184 | the open price is the first nonzero one, else the first spot |
| `BacktestBooks.TickInPlainTerms` | src/trading/engine/backtest_driver.py:231-289 | how far a tick gets, with every counter, the position and the risk state |
| `BacktestBooks.MarketInPlainTerms` | src/trading/engine/backtest_driver.py:168-325 | when a market is iterated and replayed, and the trade its position becomes |
| `Backtest.FreshManagerWithinLimits` | src/trading/engine/risk.py:15-41 | a new risk manager is within those limits |
| `Backtest.RunBacktest` | src/trading/engine/backtest_driver.py:126-327 | the loop over markets computes the specified run from any manager state; trades are numbered and priced as stated |
| `Backtest.ReplayMarket` | src/trading/engine/backtest_driver.py:168-327 | one market, flat before and after, including skipped ones |
| `Backtest.ReplayTicks` | src/trading/engine/backtest_driver.py:215-289 | the loop over ticks computes position, counts and risk state |
| `Backtest.Evaluate` | src/trading/engine/backtest_driver.py:239-289 | one evaluation: risk gate, decision, fill lottery, entry price |
| `Backtest.FindOpen` | src/trading/engine/backtest_driver.py:177-184 | the first nonzero open price, else the first spot |
| `Settlement.SettlementsAgree` | src/trading/engine/fill_model.py:66-86 | paper and backtest name the same winner if and only if the prices differ and are positive, or a missing close meets an up position; then profits are equal for equal fees |
| `Settlement.TieSplitsWinners` | src/trading/paper/driver.py:554 | on a tie exactly one of the two calls a position a win |
| `Settlement.WorstTrade` | src/trading/engine/backtest_driver.py:119-123 | a trade loses at most its stake and the largest fee; a win never loses |
| `PaperLifecycle.StepConserves` | src/trading/paper/driver.py:314-562 | every atomic step of either task keeps the books below |
| `PaperLifecycle.RunConserves` | src/trading/paper/driver.py:314-562 | under any interleaving entered = settled + timed out + open + in flight, one open position per slug, and `_daily_pnl` is the sum committed since the last roll |
| `PaperLifecycle.SettledAtMostOnce` | src/trading/paper/driver.py:442-482 | each entered position is at most once, and in only one place, among settled, timed out, open and in flight |
| `PaperBooks.RunPaysAsDue` | src/trading/paper/driver.py:455-461 | in every run each amount committed since the last roll is what its position was due for the outcome found: stake/entry - stake if it won on its own side, else -stake |
| `PaperBooks.EntriesAreAllowed` | src/trading/paper/driver.py:358-417 | every position a run enters has the fields of a tick that allowed it, inside the entry window less the guard, and the price of the fill that answered it |
| `PaperBooks.RollInPlainTerms` | src/trading/paper/driver.py:708-714 | a new day forgets the result, the count and the markets taken |
| `PaperBooks.TickInPlainTerms` | src/trading/paper/driver.py:329-395 | when a tick enters, when it settles, and which markets it marks or forgets |
| `PaperBooks.EntryInPlainTerms` | src/trading/paper/driver.py:398-417 | what an answered entry books |
| `PaperBooks.QueryInPlainTerms` | src/trading/paper/driver.py:511-562 | which position the end of the queries pops, and with what outcome |
| `PaperLifecycle.PayoutInPlainTerms` | src/trading/engine/fill_model.py:79-86 | without a fee a win pays stake/entry - stake and everything else loses the stake |
| `PaperLifecycle.NoMarketTwice` | src/trading/paper/driver.py:343-417 | for nondecreasing scheduled ticks and entries inside the first 300 s no market is entered twice, whatever the watchdog does |
| `PaperLifecycle.RunIsSafe` | src/trading/paper/driver.py:343-417 | the invariant behind it: an entered market is marked as taken on its own day, or its window has passed |
| `PaperLifecycle.EntersTwice` | src/trading/paper/driver.py:353-358 | any other configuration that can trade has a run that enters a market twice |
| `PaperLifecycle.NeverTrades` | src/trading/paper/driver.py:343-346 | with a nonnegative pause threshold no run ever enters anything |
| `PaperLifecycle.EntersOnceIff` | src/trading/paper/driver.py:314-424 | no run enters a market twice if and only if entries stay inside the first 300 s or the threshold stops all trading |
| `PaperLiveClock.RunIsLiveSafe` | src/trading/paper/driver.py:348-417 | on one clock an entered market is open or its window has passed, and settlements are only under way for windows that have passed |
| `PaperLiveClock.LiveEntersTwice` | src/trading/paper/driver.py:349-358 | with entries 300 s into a window a live run enters a market twice |
| `PaperLiveClock.LiveEntersOnceIff` | src/trading/paper/driver.py:314-424 | on one clock no run enters a market twice if and only if entries end before the first 300 s do, or the threshold stops all trading |
| `PaperLifecycle.SweepIsExact` | src/trading/paper/driver.py:501-505 | a sweep finds exactly the positions whose window closed more than 15 s ago |
| `PaperLifecycle.SettlesWhatItLookedUp` | src/trading/paper/driver.py:442-454 | in a safe configuration the position a settlement pops by slug is the one its prices were looked up for |
| `PaperDriverObject.PaperDriver.Roll` | src/trading/paper/driver.py:708-714 | the day roll of the driver's fields |
| `PaperDriverObject.PaperDriver.HandleTick` | src/trading/paper/driver.py:329-395 | the fields after a tick, up to its first await |
| `PaperDriverObject.PaperDriver.FinishEntry` | src/trading/paper/driver.py:398-417 | the fields after an entry was answered, with the late-entry guard |
| `PaperDriverObject.PaperDriver.FinishQueries` | src/trading/paper/driver.py:511-562 | resolved, timed out or not yet: what is popped and what goes into flight |
| `PaperDriverObject.PaperDriver.FinishSettle` | src/trading/paper/driver.py:455-461 | the position's profit, by its own side and the outcome, is booked once |
| `PaperDriverObject.PaperDriver.ScanExpired` | src/trading/paper/driver.py:497-505 | the sweep queues exactly the overdue open positions |
| `PaperDriverObject.PaperDriver.StartNext` | src/trading/paper/driver.py:506-507 | the sweep takes its entries in order |
| `PaperDriverObject.PaperDriver.HandleControl` | src/trading/paper/driver.py:263-287 | the pause switch changes nothing else |
| `PaperDriverObject.PaperDriver.Resume` | src/trading/paper/driver.py:133-201 | resuming a task takes exactly one step of the lifecycle |
| `PaperDriverObject.PaperDriver.EventLoop` | src/trading/paper/driver.py:133-201 | in whatever order tasks are resumed, the object goes through a run of the lifecycle and accounts for every position exactly once |
| `Drawdown.CurveIsSum` | src/trading/engine/backtest_driver.py:397-401 | each point of the equity curve is the sum of the results before it |
| `Drawdown.MaxDrawdown` | src/trading/engine/backtest_driver.py:397-403 | the one-pass loop returns the least E_j - E_i over all 0 <= i <= j with E_0 = 0 |
| `Drawdown.McIsLeastDrop` | src/trading/research/monte_carlo.py:96-98 | the array form returns the least drop from the first trade on |
| `Drawdown.DrawdownsRelate` | src/trading/research/monte_carlo.py:96-98 | for nonempty trades the first is the lesser of the second and the lowest equity |
| `FracDiff.Weights` | src/trading/engine/afml_features.py:18-24 | the loop computes the binomial coefficients of (1 - L)^d, reversed |
| `FracDiff.CoefIsLoss` | src/trading/engine/afml_features.py:20-22 | the k-th weight is -(d/k) times the product of the (1 - d/j) before it |
| `FracDiff.WeightsSum` | src/trading/engine/afml_features.py:18-24 | the weights sum to the product over k of (1 - d/k) |
| `FracDiff.WeightsFade` | src/trading/engine/afml_features.py:18-24 | for 0 < d < 1 every later weight is negative and strictly smaller in magnitude |
| `FracDiff.Series` | src/trading/engine/afml_features.py:27-33 | 0 on a short series, the dot product with the tail otherwise; for a size below 1 the single value of a tail of length one, else the shape error |
| `FracDiff.ConstantSeries` | src/trading/engine/afml_features.py:27-33 | a constant series is scaled by that product |
| `FracDiff.SeriesIsWeighted` | src/trading/engine/afml_features.py:31-33 | the value is the sum over k of the k-th coefficient times the k-th latest entry |
| `Vpin.PourTrade` | src/trading/engine/features/vpin.py:31-46 | one trade poured into buckets: nothing lost on either side, closed buckets full to within 1e-9, filled in order of arrival, and the loop ends |
| `Vpin.PourNext` | src/trading/engine/features/vpin.py:28-32 | nonpositive quantities are skipped |
| `Vpin.FillBuckets` | src/trading/engine/features/vpin.py:23-46 | traded volume per side = closed buckets + open bucket, and the first k buckets hold the first units of volume on the tape, for every k |
| `Vpin.Vpin` | src/trading/engine/features/vpin.py:15-51 | in [0, 1], 0 on degenerate input, else the sum of the last buckets' absolute buy - sell / volume over their number, filled in order of arrival |
| `Vpin.BucketCount` | src/trading/engine/features/vpin.py:42-46 | the number of closed buckets is pinned by the volume they hold |
| `Adx.Wilder` | src/trading/engine/features/macro.py:56-62 | the loop computes the smoothing recurrence |
| `Adx.Movements` | src/trading/engine/features/macro.py:40-54 | the three series of movements and ranges |
| `Adx.SeriesInPlainTerms` | src/trading/engine/features/macro.py:43-54 | entry i compares bar i + 1 with bar i: the larger positive move counts, the other not |
| `Adx.BarInPlainTerms` | src/trading/engine/features/macro.py:44-54 | the two movements, and the true range as the largest of the three ranges |
| `Adx.SmoothInClosedForm` | src/trading/engine/features/macro.py:59-61 | a smoothed value is the sum of the first 14 entries and the later ones, each decayed by 13/14 per step of age |
| `Adx.DecayedIsWeighted` | src/trading/engine/features/macro.py:60-61 | the weight of an entry of age j is (13/14)^j |
| `Adx.DxInPlainTerms` | src/trading/engine/features/macro.py:71-78 | a DX is 100 times the difference of the movements over their sum, and exactly the bars with range and movement have one |
| `Adx.DxsInOrder` | src/trading/engine/features/macro.py:69-78 | the DX list holds the values of the bars that have one, all of them, in order |
| `Adx.AverageInClosedForm` | src/trading/engine/features/macro.py:81-85 | the average in closed form, with weights (13/14)^j / 14 |
| `Adx.MovementWithinRange` | src/trading/engine/features/macro.py:43-66 | for well-formed bars smoothed +DM plus smoothed -DM never exceeds smoothed TR |
| `Adx.IndicesSumTo100` | src/trading/engine/features/macro.py:70-75 | so DI+ and DI- are nonnegative and sum to at most 100 |
| `Adx.DxsInRange` | src/trading/engine/features/macro.py:69-78 | every DX is in [0, 100], for any bars |
| `Adx.CollectDxs` | src/trading/engine/features/macro.py:64-78 | the loop collects the DX values, without the skipped bars |
| `Adx.AverageInRange` | src/trading/engine/features/macro.py:81-85 | Wilder's average of values in [0, 100] stays there |
| `Adx.AdxOfBars` | src/trading/engine/features/macro.py:64-85 | the specified ADX, in [0, 100] |
| `Adx.Adx14` | src/trading/engine/features/macro.py:35-85 | the same for three series of any lengths, 0 if they differ |
| `MacroLookup.BisectRight` | src/trading/strategies/polymarket_btc5m/_macro_provider.py:60 | splits a nondecreasing list into values at most and above the key |
| `MacroLookup.SnapshotWindow` | src/trading/strategies/polymarket_btc5m/_macro_provider.py:41-63 | the window is the last `lookback` of all candles with ts <= as_of - 300, or none |
| `MacroLookup.TrainingWindow` | src/trading/cli/train_last90s.py:348-353 | the linear scan computes the last 34 of the candles with ts <= int(as_of) - 300 |
| `MacroLookup.TruncInPlainTerms` | src/trading/cli/train_last90s.py:349 | truncation never moves a time away from zero, nor by a whole second |
| `MacroLookup.TrainingMatchesServing` | src/trading/cli/train_last90s.py:348-357 | both windows are equal at integer times, and at all nonnegative times for candles on whole seconds |
| `MacroLookup.NoLookAhead` | src/trading/strategies/polymarket_btc5m/_macro_provider.py:55-63 | candles after the cutoff never change the window |
| `MacroLookup.SuffixIsEnough` | src/trading/strategies/polymarket_btc5m/_macro_provider.py:137-174 | a cache cut to any suffix with enough eligible candles gives the same window |
| `MacroLookup.MacroProvider.Fixed` | src/trading/strategies/polymarket_btc5m/_macro_provider.py:81-97 | the in-memory provider sorts stably and keeps the timestamps parallel |
| `MacroLookup.MacroProvider.Refresh` | src/trading/strategies/polymarket_btc5m/_macro_provider.py:154-164 | a refreshed cache keeps them parallel |
| `MacroLookup.MacroProvider.SnapshotAt` | src/trading/strategies/polymarket_btc5m/_macro_provider.py:166-174 | every lookup on a provider returns the specified window |
| `WalkForward.FitsIffCounted` | src/trading/research/walk_forward.py:69-86 | the idx-th fold fits if and only if idx is below the closed-form count |
| `WalkForward.FoldsInPlainTerms` | src/trading/research/walk_forward.py:70-86 | the first window starts at the beginning and each one a step after the one before; both parts have their length in days |
| `WalkForward.BuildFolds` | src/trading/research/walk_forward.py:62-87 | the ValueError exactly for bad arguments, else the walk's folds or its overflow |
| `WalkForward.EngineSplits` | src/trading/engine/walk_forward.py:70-109 | for every argument for which the loop ends it takes the same walk, windows or overflow |
| `WalkForward.EndsIff` | src/trading/engine/walk_forward.py:73-109 | the loop ends if and only if the step is not 0 or the first window does not fit or cannot be represented |
| `WalkForward.SomeFoldFailsIff` | src/trading/engine/walk_forward.py:73-79 | some window does not fit if and only if the step is positive or the first does not |
| `WalkForward.BackwardOverflows` | src/trading/engine/walk_forward.py:49-50 | a negative step leaves the calendar |
| `WalkForward.WalkOutcome` | src/trading/engine/walk_forward.py:70-109 | for a positive step exactly the counted folds, or the overflow if one of them or the next cannot be represented; otherwise nothing or the overflow |
| `WalkForward.SameWalk` | src/trading/research/walk_forward.py:69-87 | research builder and engine loop agree wherever both walk |
| `WalkForward.OneFoldWalk` | src/trading/cli/walk_forward.py:316-324 | the one-fold call of the CLI yields exactly that fold |
| `WalkForward.StepIsOosTiles` | src/trading/research/walk_forward.py:56-61 | with the step equal to the out-of-sample length the out-of-sample windows tile |

## Left out

- Ingest adapters, WebSocket feeds, Redis, Postgres persistence, Telegram, the web API and the LLM client: plumbing around the modelled state.
- Floating-point rounding: all arithmetic is over the reals.
- `GlobalMMState`: its verdict on each new quote is an arbitrary input, because nothing updates the registry; no cap across instances is claimed.
- The fill-intensity estimator and the logarithm: `k` and the logarithmic term are inputs. SHA-256 truncation of order ids: ids are taken to be injective, and rounding the timestamp to six decimals is kept.
- The taker-fee canary, alert lists, counters, heartbeats, order metadata and reason strings.
- Restart and rehydration of the paper driver: the first tick's day roll clears what was restored.
- Exceptions out of price queries or persistence in the paper driver: the rest of a watchdog sweep, or a position already popped, would be lost there. Which query answers and how old a window must be for a fallback or a timeout is an arbitrary outcome.
- Telegram sends after an entry or a settlement as further suspension points: no modelled field changes after them.
- The risk manager inside the paper lifecycle: its verdict is an input of the tick; `Risk` proves the manager on its own.
- The strategy and the random generator of the backtest: the decision and the draw of a tick are inputs. Recorded trade fields that no rule reads (signal features, regime, first-seen time) are dropped.
- Candle patterns, order-book ratios, Kelly sizing, EMA, regime classification and the snapshot computed from a macro window: easy members.
- LightGBM, hidden Markov models, Optuna and bootstrap sampling.
- Quoting.SigmaSquared: a window of 0 seconds with a tick before it opens, where the source raises ZeroDivisionError; the loop is modelled for configurations with a window other than 0.
- WalkForward.EngineSplits: the endless walk of a step of 0 whose window fits has no result to state; WalkForward.EndsIff says exactly when that happens.
- GuardInLoop.EventsInOrder: for a wall clock that never runs back; a guard fed by a clock that does keeps no exact windows.
