# Execution books, replays and data pipelines: a verified model

The trading system keeps the same exposure in three places: the planner's list of open trades, the tracker's list of
tickets with their stop state and cash, and the coarse risk inventory with net units and dollar exposure. One engine
moves all three: stop and target checks on every candle, hold expiry, and allocations that are planned, guarded, sent to
a broker and then either rolled back or synced. Nothing in the engine checks that slot `i` of one list and slot `i` of
another are the same trade; it is simply relied on. This project states the agreement as an invariant, proves for every
step and every run exactly when it is kept, and builds the loss bound and the hold bound on top of it; the caps hold in
every run, also where agreement is lost.

The second core is the parameter sweep: many parameter sets at once, five masked slots each, whatever a closed slot last
held still lying in it. A scalar replay claims to run one parameter set with the same event logic. That claim is proved
as a refinement, row by row.

Around these are independent cores, each with a fast loop proved equal to a plain specification: candle gap filling,
the overlap audit, repetition counting, the window bit codec, run-length aggregation of bit transitions, the regime
filter, event alignment without look-ahead, gate mapping, and the reconcile against the broker.

## How it is laid out

- `Common`, `Pricing`, `TimeSort`: options, signed sides, sums over dictionaries, conversion and commission, stable
  sorting by time.
- `Tpsl`, `TradeState`, `PositionTracker`, `RiskLimits`: the pieces of the books. Each is a class with the source's
  fields and, beside it, its value (`StoreV`, `TrackerV`, `RiskV`) with the operations as functions; every method is
  proved to take the value where the function says.
- `Books` puts the three values together and says what each engine operation does to them. `ExecutionEngine` is the
  engine with its loops and callbacks, proved against `Books`.
- `Agreement` states the invariant; `ExitAgreement`, `OrderAgreement` and `RunAgreement` say when exit passes,
  allocations and runs keep it; `LiveRuns` adds the reconcile against the broker; `OrderlyRuns`, `Caps`, `RefreshedRuns`
  and `CashConservation` build on them. A run starts from any books the theorem admits and is any interleaving of
  stop checks, expiry checks, allocations and price marks over any instruments, with a broker that may refuse or partly
  fill any order or close and may report its own fill prices, with limits that change from allocation to allocation, and
  with arbitrary blocking and scalping flags. A step that raises is caught, and the run goes on with what is left of it.
- `TpslMoves`, `Flows`, `CashFlow`, `EngineCash`: what exits and cash come to, told in price moves and units instead of the
  formulas of the code. `ParityMoves` and `ParityCash` do the same for the scalar replay.
- `Simulator`, `LossBound`, `HoldBound`, `HazardRuns`: replays of candles and decisions over the same books, their two
  bounds, and what the hazard exit does to them. `SimulationReplay` is the backtest itself, which takes its decisions from
  gates, signatures, the session (`SessionPolicy`) and its own entry cooldown, and is proved to be such a replay.
- `ParityReplay`, `ParityInvariants`, `BatchSweep`, `SweepParity`, `GateMapping`, `HazardSeries`, `TimelineParity`: the
  scalar replay, the sweep, and why they agree, from the files of gates and signatures to the tallies. `SweepFilters` adds
  the sweep's source and regime filters.
- `Reconcile`: rebuilding all three books from the broker's reply.
- `EventAlignment`, `OverlapAudit`, `CandleFiller`, `Repetition`, `WindowCodec`, `StructuralEvents`, `RegimeFilter`.

## Where the code does not do what one might expect

Each of these comes with a condition that says exactly when the code does as expected; nearly all come with an input
that fails.

- A slot entered at price zero. The closing loops divide by the entry price after the ticket is gone and before the
  trade list is stored. `ExitAgreement.ExpiryPassAgrees`: an expiry pass keeps agreement if and only if no slot it
  expires, and the venue gives up, was entered at zero; `OrderlyRuns.ZeroPriceExpirySplits` is one that was, and
  `Reconcile.PricelessPositionIsFiledAtZero` shows where such slots come from. The stop and target pass is safe: the
  checker never fires on an entry of zero (`ExitAgreement.CheckerSparesZero`).
- An order filled in part. The inventory records the fill, the tracker is synced to the plan.
  `OrderAgreement.TransactAgrees`: agreement is kept if and only if an order that executes is filled in full;
  `OrderlyRuns.HalfFilledOrderSplits` is one that is not. A close filled in part does no harm, as the inventory is
  synced to the tickets afterwards (`ExitAgreement.TpslPassAgrees`).
- `RunAgreement.RunAgreesIffNoStepSplits`: over whole runs of the engine, from any agreeing books, these two are the only
  ways to lose agreement. `LiveRuns.LiveRunAgreesIffNothingLosesIt` adds those of the reconcile (below), and
  `LiveRuns.AgreementComesBack` says when a reconcile restores what was lost.
- `Agreement.HazardExitSplits`: the backtest's hazard exit closes tickets alone; agreement survives if and only if
  there were none (`OrderlyRuns.HazardExitSplitsOneUnit`). It also comes before the stop is looked at, and the trade it
  leaves behind has no ticket that an expiry could close. So a backtest's stops hold, and its holds are bounded, if and
  only if the hazard exit is off (`HazardRuns.StopsHoldIffHazardExitOff`, `HoldsAreBoundedIffHazardExitOff`).
- `RiskLimits.FlipEscapesExposureCaps`: the order guard calls a fill that flips the side a reduction and skips the
  exposure caps for it. `FillWithinExposureCapsIffChecked` says for every fill when the caps hold afterwards: exactly
  when the skipped check would have passed. The planner never asks for a flip, so an opening the engine makes stays
  within the caps (`Caps.OpeningStaysWithinExposureCaps`).
- `RefreshedRuns.RefreshHoldsIffRoom`: limits refreshed from a new balance hold at once if and only if what is open fits
  under the new number of positions and the new dollar caps; nothing is closed to make room, and
  `ShrunkBalanceOverrunsOneUnit` exceeds both dollar caps. `RefreshedRunsFindRoom` says what follows for a run: the number
  of positions never grows while it is too large, and the refreshed caps on it hold for good once they hold.
- `Reconcile.OthersLoseTheirTickets`: with a list of enabled instruments, a reconcile wipes the tickets of every other
  instrument but neither its trades nor its risk; the books agree there afterwards exactly when they had neither
  (`PoundsOnlySplitsOneUnit`). Inside the list they agree exactly when the broker holds no hedge
  (`EnabledInstrumentsMirror`).
- `Reconcile.CalledOffReconcileSplits`: a reconcile that gets no positions leaves tickets and risk alone, yet the trade
  lists of the enabled instruments are cleared; the books agree afterwards exactly when they were empty
  (`SilentBrokerSplitsOneUnit`).
- `Reconcile.UnlistedTradesGetNoTickets`: without a list, trades the broker reports for an instrument with no position
  entry and no place in any book reach the risk inventory but not the tickets (`UnlistedUnitSplits`).
- `SweepParity.TalliesAgreeIffHeld`: a hold of zero means "leave at the next candle" to the sweep and "no limit" to the
  replay; a parameter set tallies alike on all tame timelines if and only if it holds for at least a minute or its
  thresholds let nothing survive the next candle anyway (`ZeroHoldSplits`).
- `GateMapping.PeaksAgreeIffPreviousOnGrid`: an acting gate between two candles takes part in the replay's peak flags
  and not in the sweep's; the flag at a candle agrees, whatever the gates' metrics, if and only if the gate acting right
  before an acting one is at a candle (`OffGridGateSplits`).
- `HazardSeries.SeriesAgreeIffSampled`: the replay samples hazards every five seconds from the first candle and takes any
  other moment for one without hazard; it sees what the sweep sees at a candle, whatever the signatures, if and only if a
  whole number of such intervals has passed.

## Model

| member | source | states |
|---|---|---|
| `RunAgreement.RunAgreesIffNoStepSplits` | scripts/trading/execution_engine.py:38-326 | For any run of engine steps from any agreeing books: the books agree in every state it passes through if and only if none of its steps expires a slot entered at zero that the venue gives up, and none has an order filled otherwise than asked. |
| `LiveRuns.LiveRunAgreesIffNothingLosesIt` | scripts/trading/portfolio_manager.py:244-258 | With reconciles in between: from agreeing books, a live run agrees throughout if and only if, besides, no completed reconcile meets a hedge at the broker or something held outside the enabled instruments, and none is called off with something held inside. |
| `LiveRuns.AgreementComesBack` | scripts/trading/portfolio_manager.py:446-490 | Whatever happened before, agreement is back after a completed reconcile that meets neither, and lasts until one of these events. |
| `OrderlyRuns.EveryRunAgrees` | scripts/trading/execution_engine.py:38-326 | In every state of a run whose allocations name a price and whose executed orders are filled in full: for every instrument trades and tickets have equal length and are slot by slot the same trade, all on one side, and the risk inventory holds their sum. No trade is then filed at price zero. |
| `OrderlyRuns.OrderlyRunAgrees` | scripts/trading/execution_engine.py:38-326 | The same from any agreeing books in which no trade is filed at price zero. |
| `RunAgreement.StepAgrees` | scripts/trading/execution_engine.py:38-326 | A single operation from any agreeing books leads to agreeing books if and only if it does neither of these; either way it touches no instrument but its own. |
| `ExitAgreement.CloseDownSweeps` | scripts/trading/execution_engine.py:60-96 | If no slot given up was entered at zero, the closing loop from the back takes exactly the slots with an exit that were not refused out of both lists, keeps the order of the rest and, live, moves the risk inventory with them. |
| `ExitAgreement.CloseDownAborts` | scripts/trading/execution_engine.py:151-178 | If one was, the loop raises, with fewer tickets than before and the stored trade list as it was. |
| `ExitAgreement.CheckerSparesZero` | scripts/trading/tpsl/checker.py:79-91 | The checker asks to close no slot entered at zero, so the loop after it never raises. |
| `ExitAgreement.TpslPassAgrees` | scripts/trading/execution_engine.py:38-110 | A stop/target pass never raises and keeps the books in agreement, whatever closes the broker refuses or fills in part. |
| `ExitAgreement.ExitPassRevalues` | scripts/trading/execution_engine.py:98-110 | After a backtest pass that closed something, the risk inventory holds the net of the tickets left, revalued at the exit price of the lowest slot closed. |
| `ExitAgreement.LiveCloseTakesTheFill` | scripts/trading/exposure_tracker.py:137-196 | A live close is logged at the price the broker reports, else at the one asked for, and the inventory moves by the units reported, else by the whole ticket. |
| `ExitAgreement.ExpiryPassAgrees` | scripts/trading/execution_engine.py:112-198 | A hold-expiry pass keeps agreement if and only if no slot it expires, and the venue gives up, was entered at zero; it raises exactly if one was. |
| `OrderAgreement.RefusalLeavesNoTrace` | scripts/trading/execution_engine.py:257-297 | An order stopped by the risk guard or by the broker leaves trades, pending-close flag, last signal, tickets and risk exactly as they were before the plan. |
| `OrderAgreement.RefusedAllocationIsJustExpiry` | scripts/trading/execution_engine.py:200-306 | Hence a refused allocation, as a whole, changes what its expiry pass changes and nothing more, from agreeing books or not. |
| `OrderAgreement.UnfilledOrderLeavesNoTrace` | scripts/trading/execution_engine.py:282-297 | So does an order that is rejected or of which nothing at all is filled. |
| `OrderAgreement.AnyFillIsRecorded` | scripts/trading/execution_engine.py:282-306 | One past the guard that is filled with anything moves the inventory by the fill. |
| `OrderAgreement.HardBlockAgrees` | scripts/trading/trade_planner.py:25-34 | A hard block whose order is filled leaves the instrument with no trade, no ticket and no risk; the other instruments are untouched. |
| `OrderAgreement.AppendAgrees` | scripts/trading/trade_planner.py:106-148 | An admitted request that is filled in full adds one and the same slot at the end of both lists, the tracker's sync opening exactly the planned difference. |
| `OrderAgreement.TransactAgrees` | scripts/trading/execution_engine.py:226-306 | Planning, guarding, ordering and settling keep agreement, for every request and every answer, if and only if an order that executes is filled in full. |
| `OrderAgreement.BlockedAllocationEntersNothing` | scripts/trading/execution_engine.py:226-229 | While the breaker blocks, a request that is not hard-blocked leaves the instrument with the trade list its expiry pass left. |
| `OrderAgreement.BlockedAllocationOrdersNothing` | scripts/trading/execution_engine.py:226-256 | If that list agrees with tickets and risk, no order is sent and both stay as the expiry pass left them. |
| `OrderAgreement.UnblockedAllocationTransacts` | scripts/trading/execution_engine.py:200-306 | While it does not block, the allocation is planned and settled for the request as it came, and its order goes out if the guard lets it. |
| `OrderAgreement.RepeatedSignalEntersNothing` | scripts/trading/trade_planner.py:106-131 | A request with the key of the last entry on file adds no trade. |
| `OrderAgreement.EnteredSignalIsRemembered` | scripts/trading/trade_planner.py:132-148 | A request that adds a trade leaves its key on file as the last one. |
| `OrderAgreement.EnteredTradeIsAsAsked` | scripts/trading/trade_planner.py:66-148 | What a transaction adds is one trade on the side, of the units and hold asked for, at the price and time of the request, its clock at zero; it never opposes what is open and does not join it when stacking is off. |
| `OrderAgreement.PlanReportsChanges` | scripts/trading/trade_planner.py:25-157 | A plan reports a change exactly if the trade list changes or a pending close is confirmed by the inventory; its target is the net of the list; an unconfirmed close stays pending as long as trades are left, and a hard block leaves one pending exactly if it dropped something. |
| `Agreement.MarkAgrees` | scripts/research/simulator/tracker.py:183-204 | Marking prices moves peaks and excursions only; slots still match. |
| `OrderAgreement.PartialFillSplits` | scripts/trading/execution_engine.py:282-306 | After an order filled otherwise than asked the instrument no longer agrees; the others are untouched. |
| `Agreement.HazardExitSplits` | scripts/research/simulator/backtest_simulator.py:157-168 | Closing an instrument's tickets alone leaves it in agreement if and only if it had no ticket. |
| `OrderlyRuns.ZeroPriceExpirySplits` | scripts/trading/execution_engine.py:151-178 | A concrete unit entered at zero: its hold over, the expiry pass raises and leaves a trade without its ticket. |
| `OrderlyRuns.HalfFilledOrderSplits` | scripts/trading/execution_engine.py:282-306 | A concrete order for two units filled with one, after which inventory and tickets differ. |
| `OrderlyRuns.HazardExitSplitsOneUnit` | scripts/research/simulator/backtest_simulator.py:157-168 | A concrete unit the hazard exit sells from the tickets alone. |
| `Caps.EveryRunStaysWithinCaps` | scripts/trading/risk_limits.py:191-256 | In every state of a run, steps that raise and books that disagree included, as long as the limits in force at each allocation are no looser than the caps: trades per pair, trades overall, instruments held, absolute net units per pair and absolute units overall are within the caps. |
| `Caps.RunStaysWithinCaps` | scripts/trading/risk_limits.py:191-256 | The same from any books within the caps whose tickets are one-sided and backed by the inventory. |
| `Caps.ShrinkingStaysWithinCaps` | scripts/trading/execution_engine.py:308-326 | A step that only takes trades off one instrument keeps every cap, also when the inventory is flattened and filled again. |
| `Caps.TpslPassShrinks` | scripts/trading/execution_engine.py:38-110 | Exits, partial and interrupted ones included, lengthen no trade list, grow no net position and touch no other instrument. |
| `Caps.ExpiryPassShrinks` | scripts/trading/execution_engine.py:112-198 | Nor do expiries, whether or not one of them raises. |
| `Caps.TransactStaysWithinCaps` | scripts/trading/trade_planner.py:36-157 | Planning, guarding and settling any request keeps caps that the limits in force do not exceed. |
| `Caps.OpeningStaysWithinExposureCaps` | scripts/trading/risk_limits.py:235-254 | After an opening filled at the checked price, the dollar exposure on file is within the caps of the instrument and of the portfolio. |
| `RefreshedRuns.RefreshedRunsFindRoom` | scripts/trading/risk_limits.py:115-129 | In a run under refreshed limits, the caps from before the refresh keep holding; and if the books fit into some number of positions at one moment they do at every later one, so the refreshed number holds for good once it holds, and is never exceeded by more than before. |
| `RefreshedRuns.RefreshHoldsIffRoom` | scripts/trading/portfolio_manager.py:354-369 | At the refresh itself: books within all caps, those on dollar exposure included, are within the refreshed ones if and only if positions and exposures fit under those that were given. |
| `RefreshedRuns.ShrunkBalanceOverrunsOneUnit` | scripts/trading/portfolio_manager.py:354-369 | Concrete agreeing books within all caps that exceed both dollar caps after a refresh although the number of positions fits. |
| `RiskLimits.ApprovedFillWithinExposureCaps` | scripts/trading/risk_limits.py:191-256 | An approved fill at the checked price that does not reduce the position leaves both exposure caps intact. |
| `RiskLimits.FillWithinExposureCapsIffChecked` | scripts/trading/risk_limits.py:81-113 | For any fill: both exposure caps hold afterwards if and only if the exposure check would have passed before. |
| `RiskLimits.FlipEscapesExposureCaps` | scripts/trading/risk_limits.py:213-254 | A concrete order the guard approves although it takes the exposure to ten times its cap, because it flips the side. |
| `RiskLimits.UnitsAfterFill` | scripts/trading/risk_limits.py:81-102 | A fill moves the total of absolute units by the change at its own instrument, flattening included. |
| `RiskLimits.ExposureIsDollarValue` | scripts/trading/risk_limits.py:81-102 | After a fill that leaves a position the exposure on file is the dollar value of the whole position at the fill price, its units if those are dollars; without a price the old figure stays. |
| `RiskLimits.RiskManager.RecordFill` | scripts/trading/risk_limits.py:81-102 | Net units add up, a flat instrument loses its entries, and exposure is revalued at the fill price when it can be. |
| `RiskLimits.RiskManager.Flatten` | scripts/trading/risk_limits.py:104-113 | Units and exposure of one instrument are gone, the rest stays. |
| `RiskLimits.RiskManager.CanAdd` | scripts/trading/risk_limits.py:191-256 | Approves exactly the orders that keep the unit caps and either reduce or keep the exposure caps. |
| `TradeState.RestoreUndoes` | scripts/trading/trade_state.py:171-191 | Restoring a snapshot undoes every change made to that instrument in between, whatever it was: the whole store is back. |
| `TradeState.TradeStateStore.TotalTradeCount` | scripts/trading/trade_state.py:51-53 | The count is the sum over all instruments. |
| `TradeState.TradeStateStore.ReplaceTrades` | scripts/trading/trade_state.py:80-91 | The list of one instrument is the one given, an empty list being no entry at all. |
| `TradeState.TradeStateStore.RemoveTrades` | scripts/trading/trade_state.py:93-102 | Trades, flag and signal of the instrument go together. |
| `TradeState.TradeStateStore.Restore` | scripts/trading/trade_state.py:180-191 | Puts back what the snapshot recorded about the instrument, absent entries included. |
| `ExecutionEngine.TradePlanner.PlanAllocation` | scripts/trading/trade_planner.py:36-157 | Ends in the store, target and flags of the plan specification that the theorems of `OrderAgreement` and `Caps` are about. |
| `ExecutionEngine.TradePlanner.EvaluateHardBlocks` | scripts/trading/trade_planner.py:25-34 | The instrument's trades are dropped and, if there were any, it is left pending close without a last signal. |
| `ExecutionEngine.Engine.CloseFromBack` | scripts/trading/execution_engine.py:60-96 | The loop over popped working copies reaches the books, the copy and the exception, if any, of the sweep specification. |
| `ExecutionEngine.Engine.CheckTpslExitIntraCandle` | scripts/trading/execution_engine.py:38-110 | The three live objects end up as the stop/target pass says, and the result reports whether anything was closed. |
| `ExecutionEngine.Engine.CheckTimeExpiry` | scripts/trading/execution_engine.py:112-198 | Likewise for the expiry pass, with ages stored only where the source stores them and nothing stored when it raises. |
| `ExecutionEngine.Engine.ExecuteAllocation` | scripts/trading/execution_engine.py:200-306 | Likewise for a whole allocation: expiry, plan, guard, order, rollback or sync, and nothing after an expiry that raises; and it reports the order it handed to the broker. |
| `ExecutionEngine.Engine.SyncRiskAfterTrackerExit` | scripts/trading/execution_engine.py:308-326 | The inventory is refilled from the tickets; live it is left alone if it already matches. |
| `Tpsl.CheckIntraCandle` | scripts/trading/tpsl/checker.py:79-140 | The mutating checker computes the exit and next state of the specification: stop, target, breakeven, trailing, in that order. |
| `TpslMoves.CheckerInMoves` | scripts/trading/tpsl/checker.py:79-140 | In moves from the entry instead of price levels: each rule fires exactly when the worst or best move of the candle reaches its distance and no earlier rule did; a stop leaves that distance below the entry and a target that distance above, a breakeven exit at the entry, a trailing exit the configured share below the best price seen, which is kept; the latch closes exactly when the best move reaches the trigger. |
| `TpslMoves.CheckerIsIdleWithoutRules` | scripts/trading/tpsl/config.py:28-76 | Without a stop, a target, a trailing stop and a breakeven trigger the checker does nothing, and only then. |
| `TpslMoves.TargetExitIgnoresOverrun` | scripts/trading/tpsl/checker.py:101-105 | A target is filled at the same price however far the candle runs past it. |
| `TpslMoves.StopExitIgnoresOverrun` | scripts/trading/tpsl/checker.py:95-100 | A stop is filled at the same price however far the candle falls through it. |
| `Tpsl.TriggeredExitNoWorseThanStop` | scripts/trading/tpsl/checker.py:79-140 | Whichever rule fires, the exit price is no worse than the stop level of the trade. |
| `Tpsl.SurvivorNoWorseThanStop` | scripts/trading/tpsl/checker.py:95-105 | A trade the checker leaves open could be sold anywhere between the candle's low and high without breaching its stop. |
| `Tpsl.EntryNoWorseThanStop` | scripts/trading/tpsl/config.py:60-76 | Leaving at the entry price or better never breaches a stop. |
| `Tpsl.CheckerKeepsIdentity` | scripts/trading/tpsl/checker.py:79-140 | Entry and direction never change and the breakeven latch never reopens. |
| `LossBound.EveryTradeRespectsItsStop` | scripts/research/simulator/backtest_simulator.py:564-585 | Any backtest with plausible candles runs to its end without an exception, and every logged trade, whatever closed it, the end-of-run liquidation included, left no worse than its stop level. |
| `LossBound.CheckedExitsOk` | scripts/trading/tpsl/checker.py:79-140 | One checker pass over a ticket list: every exit it asks for respects its stop, every ticket it keeps is safe at the close. |
| `LossBound.ExitsKeepSound` | scripts/research/simulator/backtest_simulator.py:157-177 | After a candle's exit check every ticket left is safe at that candle's close, which is where expiry, sync and liquidation sell. |
| `LossBound.ExpiryKeepsSound` | scripts/trading/execution_engine.py:112-198 | Expiries at that close keep the log within its stops. |
| `LossBound.EntryKeepsSound` | scripts/research/simulator/backtest_simulator.py:179-269 | So do entries and hard blocks at that close. |
| `HazardRuns.StopsHoldIffHazardExitOff` | scripts/research/simulator/backtest_simulator.py:157-177 | Parameters with a stop respect it in every backtest with plausible candles if and only if the hazard exit is off, provided the guard lets some first short order through. |
| `HoldBound.EveryOpenTradeIsHeldSoFar` | scripts/research/simulator/backtest_simulator.py:251-269 | After every candle a backtest gets to, each open trade's clock shows one tick per candle since its entry and is short of its hold. |
| `HoldBound.HoldIsBounded` | scripts/trading/execution_engine.py:127-197 | Hence a trade that is open was entered at one of the last ceil(hold / tick) candles. |
| `HoldBound.HoldIsBoundedInMinutes` | scripts/research/simulator/backtest_simulator.py:251-269 | Told in minutes: a trade configured to be held for so many of them, at least one, was entered no more candles ago than start in that time. |
| `HazardRuns.HoldsAreBoundedIffHazardExitOff` | scripts/research/simulator/backtest_simulator.py:157-168 | With the same proviso, no backtest holds a trade longer than its hold if and only if the hazard exit is off. |
| `HazardRuns.OrphanedForGood` | scripts/research/simulator/backtest_simulator.py:157-168 | A scripted short that the hazard exit sells at the second candle is logged at that close, and without a further signal stays on the trade list without a ticket, however many candles follow. |
| `HoldBound.ExpiryKeepsHeld` | scripts/trading/execution_engine.py:127-197 | After the expiry pass every trade left has aged by exactly one tick and is short of its hold. |
| `SimulationReplay.SimulationReplayContext.Run` | scripts/research/simulator/backtest_simulator.py:564-585 | The candle loop finishes exactly if no candle raises; it then ends with the liquidated tracker of the replay under the decisions it has taken, and one equity point per candle: starting capital, realized and unrealized profit. |
| `SimulationReplay.SimulationReplayContext.ProcessCandle` | scripts/research/simulator/backtest_simulator.py:564-578 | One candle: events aligned, exits, entry, marking and an equity point, in this order; an exception ends it. |
| `SimulationReplay.SimulationReplayContext.ProcessExits` | scripts/research/simulator/backtest_simulator.py:157-177 | The hazard exit, if it is on and the hazard is low enough, then the stop/target pass on the candle's extremes. |
| `SimulationReplay.SimulationReplayContext.EvaluateEntry` | scripts/research/simulator/backtest_simulator.py:179-269 | The decision of this candle becomes an allocation at the close with the tick as age; the last close is remembered, and the time if an order went out in the direction of a ready signal. |
| `SimulationReplay.SimulationReplayContext.Decide` | scripts/research/simulator/backtest_simulator.py:179-233 | Admission, direction, size and key from the gate on offer, not admitted within a minute of the last entry, and blocked outside the session unless something is held. |
| `SimulationReplay.BacktestIsAReplay` | scripts/research/simulator/backtest_simulator.py:564-585 | A backtest over gates and signatures is the replay under the decisions it takes, candle by candle, exceptions included. |
| `SimulationReplay.EntryOrdersAreSpaced` | scripts/research/simulator/backtest_simulator.py:184-187 | Any two entry orders of a backtest are at least a minute apart. |
| `SimulationReplay.EntriesAreAdmitted` | scripts/research/simulator/backtest_simulator.py:179-248 | A candle that ends with an entry order had a gate on offer that was admitted, in a session open through its buffer unless something was held; the side is the one the signal gives for the gate, the last close and this close, and the order goes that way. |
| `SimulationReplay.DecisionsSeeTheCandle` | scripts/research/simulator/backtest_simulator.py:140-233 | Whatever is decided at a candle, the hazard is that of the latest signature up to it and the breaker's flags are those of the moment. |
| `SimulationReplay.EnteredTradeIsAsDecided` | scripts/research/simulator/backtest_simulator.py:235-269 | A trade that a candle adds is on that side, of the size decided, at its close and time, to be held for the minutes configured and at least one; neither the breaker nor the session blocked, its signal is not that of the last entry and becomes it, and it joins others only where stacking is on. |
| `Simulator.HazardExitDecides` | scripts/research/simulator/backtest_simulator.py:157-177 | A held position is sold at the close exactly when there is a threshold below 0.999 and the hazard is at or below it; the checker then sees what is left. |
| `SimulationReplay.BacktestKeepsItsBounds` | scripts/research/simulator/backtest_simulator.py:564-585 | With plausible candles and the hazard exit off every backtest gets to its end with agreeing books, a log within its stops, and open trades within their holds. |
| `SessionPolicy.ClosesAfterMinutesLeft` | scripts/trading/session_policy.py:46-64 | The minutes left are those until the first minute of the day outside the window, windows over midnight included. |
| `SessionPolicy.TradableIffOpenThroughBuffer` | scripts/trading/session_policy.py:93-137 | An instrument is tradable if and only if a position is held or its session stays open for this minute and the five after it; without a session only the former. |
| `SessionPolicy.MinutesPass` | scripts/trading/session_policy.py:30-64 | The minute of the day is zero at midnight, stays for sixty seconds and then moves on by one, round the clock. |
| `CashConservation.EveryRunIsBalanced` | scripts/research/simulator/tracker.py:47-204 | After any sequence of opens, closes, closes of all, syncs and marks: realized cash is the logged profit less the entry costs of open tickets, and tickets opened are tickets logged plus tickets open. |
| `CashFlow.CashLaw` | scripts/research/simulator/tracker.py:47-218 | After any sequence of operations from an empty tracker: realized cash is what the logged trades earned, signed units times the move from entry to exit (over the exit price if units are dollars), less their commissions and those paid for open tickets; open profit at a price is what the open tickets would earn there. |
| `CashFlow.EveryRunPays` | scripts/research/simulator/tracker.py:76-129 | Each record pays what its units earned less its commission, which is the configured share of the value traded at the entry and at the exit. |
| `CashFlow.RecordTellsTheClose` | scripts/research/simulator/tracker.py:76-129 | The record of a close names what was held, both times and prices and the reason; the other tickets keep their order. |
| `CashFlow.RecordShowsExtremes` | scripts/research/simulator/tracker.py:183-204 | A record shows, as sizes, the best and the worst of what its ticket would have earned at each price it was marked with. |
| `CashFlow.MarksKeepPeak` | scripts/research/simulator/tracker.py:183-204 | The peak of a ticket's stop state is the best extreme seen in its favour since entry. |
| `EngineCash.EngineRunAccounts` | scripts/trading/execution_engine.py:38-326 | Every run of the engine, refusals, partial fills and exceptions included, keeps its cash accounted for in this way. |
| `EngineCash.ExpiriesAreLogged` | scripts/trading/execution_engine.py:139-185 | All that an expiry pass of a backtest adds to the log is trades leaving at the price and time of the pass, as expired. |
| `EngineCash.EquityPointIsCashFlow` | scripts/research/simulator/backtest_simulator.py:564-578 | Every point of a backtest's equity curve is the starting capital, plus what its logged trades earned and what its open ones would earn at the close, less all commissions so far. |
| `EngineCash.FinalIsCashFlow` | scripts/research/simulator/backtest_simulator.py:579-585 | The tracker a backtest hands back is flat in the instrument, and its cash is what the logged trades earned less all commissions. |
| `EngineCash.TicketsHaveSeenTheCandle` | scripts/research/simulator/backtest_simulator.py:564-578 | After a candle no open ticket's peak is worse than the candle's extreme in its favour, and what it would earn at the close lies between its excursions. |
| `CashConservation.LiquidationCostsOnlyCommissions` | scripts/research/simulator/tracker.py:131-143 | Liquidating an instrument empties it and changes realized plus unrealized by exactly the exit commissions. |
| `CashConservation.SyncConserves` | scripts/research/simulator/tracker.py:145-181 | A sync conserves cash and tickets on each of its paths. |
| `PositionTracker.TPSLPositionTracker.OpenPosition` | scripts/research/simulator/tracker.py:47-74 | Charges the entry commission and appends a ticket with fresh stop state; nothing for zero units. |
| `PositionTracker.TPSLPositionTracker.CloseTicket` | scripts/research/simulator/tracker.py:76-129 | Takes one ticket out, books cash and a record with its largest excursions; an index out of range changes nothing and yields no record. |
| `PositionTracker.TPSLPositionTracker.ClosePosition` | scripts/research/simulator/tracker.py:131-143 | Closes tickets from the front until none is left. |
| `PositionTracker.TPSLPositionTracker.SyncToNetPosition` | scripts/research/simulator/tracker.py:145-181 | Adds the difference on the same side; closes everything and reopens when shrinking or flipping. |
| `PositionTracker.TPSLPositionTracker.ReplaceTickets` | scripts/trading/position_tracker.py:45-51 | Tickets that hold something replace the list; nothing is realized or logged. |
| `PositionTracker.TPSLPositionTracker.Unrealized` | scripts/research/simulator/tracker.py:206-218 | The sum over open tickets of their profit in dollars at a price. |
| `SweepParity.SweepCountsTheReplaysTrades` | scripts/research/optimizer/gpu_runner.py:25-278 | For every row of the sweep with a hold of at least a minute, or whose thresholds let nothing survive the next candle, whatever the other rows do and whatever lies in closed slots: basis points, wins and losses are those of the scalar replay's trades as the exporter counts them. |
| `SweepFilters.FilteredSweep` | scripts/research/optimizer/gpu_runner.py:172-190 | The sweep with source and regime filters ends like the unfiltered sweep over the timeline without the gates they refuse: a gate of another source, a buy where longs are not allowed, a sell where shorts are not. |
| `SweepFilters.AdmittedSweep` | scripts/research/optimizer/gpu_runner.py:172-190 | Where every gate is admitted the filters change nothing. |
| `SweepFilters.EveryNewTradeIsAdmitted` | scripts/research/optimizer/gpu_runner.py:172-190 | Every cell that is newly open after a tick was opened by an acting gate at that tick, in its direction, of the source asked for, and on a side the regime allows there. |
| `SweepFilters.FilteredSweepCountsTheReplaysTrades` | scripts/research/optimizer/gpu_runner.py:71-278 | So a filtered sweep tallies the trades of the replay over the timeline without the refused gates. |
| `SweepParity.RowsInStep` | scripts/research/optimizer/gpu_runner.py:71-278 | After every candle each row's masked slots hold what the replay's open slots hold, with equal cooldown and equal tally. |
| `SweepParity.SlotExit` | scripts/research/simulator/gpu_parity_replay.py:242-336 | One slot of the exit phase: mask, price and count of the masked cell match the scalar slot's fate. |
| `SweepParity.SameTrigger` | scripts/research/optimizer/gpu_runner.py:87-118 | On matching slots the six masked rules fire exactly when the scalar rules do, sentinels standing in for rules that are off. |
| `SweepParity.RowIdles` | scripts/research/optimizer/gpu_runner.py:86-118 | Skipping the exit phase while no row is in a trade changes nothing that counts. |
| `SweepParity.RowEnters` | scripts/research/simulator/gpu_parity_replay.py:338-394 | Both admit the same gates, pick the same slot and restart the cooldown together. |
| `SweepParity.ZeroHoldSplits` | scripts/research/simulator/gpu_parity_replay.py:163-165 | For every parameter set without a hold, and any pair of prices at which no other rule fires, a two-candle run that the sweep counts and the replay leaves open. |
| `SweepParity.TalliesAgreeIffHeld` | scripts/research/simulator/gpu_parity_replay.py:163-165 | A parameter set tallies alike on every tame timeline if and only if its hold is at least a minute, or it has a stop at the entry and a target or trailing stop at zero. |
| `TimelineParity.SweepOfAFileCountsTheReplaysTrades` | scripts/research/optimizer/tensor_builder.py:156-233 | From one file of gates, one file of signatures and one list of candles to equal tallies: the sweep over mapped gates and merged hazards counts what the replay over collapsed gates and sampled hazards trades. Alignment is asked only of what the parameter set reads. |
| `TimelineParity.RunReadsAlike` | scripts/research/simulator/gpu_parity_replay.py:338-366 | Peak flags do not matter to a replay that does not ask for peaks, nor hazards to one without hazard exit. |
| `HazardSeries.LoadContinuousHazard` | scripts/research/simulator/gpu_parity_replay.py:121-160 | The dictionary has exactly the moments every five seconds from start to end, each with the hazard of the latest signature up to it. |
| `HazardSeries.MergeHazards` | scripts/research/optimizer/tensor_builder.py:236-269 | The cursor merge gives each candle the hazard of the latest signature up to the newest candle so far. |
| `HazardSeries.SeriesAgreeIffSampled` | scripts/research/simulator/gpu_parity_replay.py:150-160 | The two agree at a candle, whatever the signatures, if and only if a whole number of sampling intervals has passed since the first candle. |
| `BatchSweep.ProcessTimeline` | scripts/research/optimizer/gpu_runner.py:71-278 | The time loop over all rows computes the tallies of the batch specification, global skip of the exit phase and the source and regime filters included. |
| `ParityReplay.ReplayGpuParity` | scripts/research/simulator/gpu_parity_replay.py:208-416 | The loop over mutable slots reaches the state of the replay specification, records with their excursions included, with the equity of every candle and a last point of cash alone. |
| `ParityReplay.DecideExit` | scripts/research/simulator/gpu_parity_replay.py:257-305 | The slot leaves exactly when one of the six rules fires, and the chain of overwrites settles on breakeven over trailing over target over stop over close. |
| `ParityMoves.LeavesInMoves` | scripts/research/simulator/gpu_parity_replay.py:257-305 | In moves from the entry: a slot leaves exactly when the candle reaches the stop's or the target's share of the entry, comes back to the entry once latched, gives back the trailing share of its best, meets a hazard at or below the threshold, or has been held its minutes. |
| `ParityMoves.ExitPriceInMoves` | scripts/research/simulator/gpu_parity_replay.py:284-305 | And it leaves at the entry, the trailing share below its best, the target's or the stop's share away, or at the close, the first of these that applies. |
| `ParityMoves.ReasonInMoves` | scripts/research/simulator/gpu_parity_replay.py:281-305 | The reason recorded is the rule that set the price, except that a hazard overrides it. |
| `ParityMoves.AgesInMoves` | scripts/research/simulator/gpu_parity_replay.py:245-256 | A candle ages a slot by one, raises its best to the candle's best move, and closes the latch exactly when that reaches the trigger. |
| `ParityInvariants.EveryRunIsOneSidedAndShort` | scripts/research/simulator/gpu_parity_replay.py:221-405 | After every candle all open slots, at most five, are on one side and each is short of a positive hold limit. |
| `ParityInvariants.HoldsAreShortInMinutes` | scripts/research/simulator/gpu_parity_replay.py:163-165 | With a hold given in minutes, every open slot has been held for fewer than twelve candles a minute. |
| `ParityInvariants.EntriesAreSpaced` | scripts/research/simulator/gpu_parity_replay.py:239-240 | Any two entries are at least twelve candles apart. |
| `ParityInvariants.EntersIffClear` | scripts/research/simulator/gpu_parity_replay.py:338-394 | A candle opens a trade if and only if its gate acts and meets every threshold given, the exits have left a free slot and nothing on the other side, the order has a size, and none of the eleven candles before opened one. |
| `ParityInvariants.EntriesMeetTheirThresholds` | scripts/research/simulator/gpu_parity_replay.py:338-394 | A slot that a candle opens is on the gate's side, or the other one in mean reversion, of the size asked for and at the close, its clock at zero; the gate met every threshold given. |
| `ParityInvariants.EveryRunBalancesCash` | scripts/research/simulator/gpu_parity_replay.py:245-405 | After every candle realized cash is the profit of the closed trades less the entry commissions of the open ones. |
| `ParityCash.EveryTradePays` | scripts/research/simulator/gpu_parity_replay.py:180-336 | Each trade of a run pays signed units times the move from entry to exit, in dollars, less a fee at either end, and shows the best and worst such value over the candles it was held. |
| `ParityCash.EquityIsEarned` | scripts/research/simulator/gpu_parity_replay.py:396-416 | Realized cash and open profit are what closed trades earned and open ones would earn, less all fees. |
| `ParityCash.ProfitHasTheSignOfTheReturn` | scripts/research/simulator/gpu_parity_replay.py:306-336 | The profit of a trade before fees has the sign of the return that the sweep counts. |
| `ParityInvariants.ExitPhase` | scripts/research/simulator/gpu_parity_replay.py:242-336 | The exit phase acts on each slot by itself: gone if a rule fired, one candle older if none did. |
| `GateMapping.CollapseGates` | scripts/research/simulator/gpu_parity_replay.py:89-118 | Strictly ascending timestamps, the last gate of each, flagged exactly when its tension dropped from a positive one at the acting gate before. |
| `GateMapping.PeaksAreFalls` | scripts/research/simulator/gpu_parity_replay.py:89-118 | What is flagged is an acting gate under less tension than the one that acted last before it; a fall from a positive one is always flagged, and where tension never falls nothing is. |
| `GateMapping.MapGates` | scripts/research/optimizer/tensor_builder.py:156-233 | At each candle the last gate with its timestamp; flagged by the same rule among the gates at candles. |
| `GateMapping.TensionScales` | scripts/research/simulator/gpu_parity_replay.py:64-86 | Tension grows in proportion with repetitions and with coherence. |
| `GateMapping.TensionDecays` | scripts/research/simulator/gpu_parity_replay.py:64-86 | Of two gates alike but for the hazard, the one whose decay is lower is under less tension. |
| `GateMapping.SortKeepsLast` | scripts/research/simulator/gpu_parity_replay.py:89-118 | A stable sort by time does not change which gate is the last of its timestamp. |
| `GateMapping.SamePeak` | scripts/research/optimizer/tensor_builder.py:223-233 | The flag at a candle is the same with and without the gates between candles if the gate acting right before an acting one is at a candle. |
| `GateMapping.PeaksAgreeIffPreviousOnGrid` | scripts/research/optimizer/tensor_builder.py:223-233 | The flag at a candle agrees for all repetitions and coherences on the same layout of gates if and only if, should a gate act there, the one acting right before it is at a candle. |
| `GateMapping.SameGateAtEveryCandle` | scripts/research/simulator/gpu_parity_replay.py:338-340 | At a candle for which that holds, replay and sweep see the same gate with the same flag. |
| `GateMapping.OffGridGateSplits` | scripts/research/optimizer/tensor_builder.py:196-233 | Three concrete gates, one between candles, that the two flag differently. |
| `EventAlignment.EventFeed.AlignEvents` | scripts/research/simulator/backtest_simulator.py:140-155 | After each candle the hazard is that of the latest signature up to it, and the gate on offer is the one the specification offers. |
| `EventAlignment.OfferedIsTheGate` | scripts/research/simulator/backtest_simulator.py:146-155 | That is the last gate since the previous candle if it is at most 15 seconds old, and none if there is no such gate. |
| `EventAlignment.LatestIsLatest` | scripts/research/simulator/backtest_simulator.py:140-145 | The latest signature is at or before the candle, and none at or before the candle is later. |
| `EventAlignment.EachGateOfferedOnce` | scripts/research/simulator/backtest_simulator.py:146-155 | A gate on offer at one candle is not in its future and is not on offer at any later candle. |
| `EventAlignment.HazardIgnoresTheFuture` | scripts/research/simulator/backtest_simulator.py:140-145 | What a candle sees does not depend on signatures after it. |
| `Reconcile.ExposureTracker.BrokerTradeMap` | scripts/trading/exposure_tracker.py:366-399 | Per instrument, the usable open trades of the reply in stable order of entry time. |
| `Reconcile.BrokerTradesAreListed` | scripts/trading/exposure_tracker.py:366-399 | Exactly the trades the reply lists with non-zero units, price and time; and where it lists none, one made up from the first position that is not flat. |
| `TimeSort.SortIsStable` | scripts/trading/exposure_tracker.py:397-398 | The sort orders by time, and entries of one moment keep the order they came in. |
| `Reconcile.ExposureTracker.ReconcilePortfolio` | scripts/trading/exposure_tracker.py:401-503 | From any books: each instrument reached has the broker's trades for tickets, others have none; admitted instruments have the broker's net on file at its unit-weighted price, others keep theirs; cash and log are untouched. Without positions nothing changes and the result is empty. |
| `Reconcile.Coordinator.ReconcilePortfolio` | scripts/trading/portfolio_manager.py:446-490 | Each enabled instrument's trade list is rebuilt from the trades that came out of the reconcile, with age, hold, pending flag, last signal and entry cooldown, or removed if there are none; the other instruments' lists stay. |
| `Reconcile.EnabledInstrumentsMirror` | scripts/trading/portfolio_manager.py:446-490 | Afterwards tickets, trades and risk net of every enabled instrument are the broker's, index by index, and agree as the engine needs if and only if the broker's trades are on one side. |
| `Reconcile.OthersLoseTheirTickets` | scripts/trading/exposure_tracker.py:436-488 | Outside a non-empty list tickets are wiped while trades and risk stay: the instrument agrees afterwards if and only if it had neither, which for agreeing books means that nothing was held. |
| `Reconcile.ReconcileRestoresAgreement` | scripts/trading/portfolio_manager.py:446-490 | Whatever the books were before, all three agree afterwards if and only if no enabled instrument is hedged at the broker and the others had neither trades nor risk. |
| `Reconcile.CalledOffReconcileSplits` | scripts/trading/exposure_tracker.py:415-429 | After a reconcile that was called off, an enabled instrument has no trades left and agrees if and only if it had none before. |
| `Reconcile.UnlistedTradesGetNoTickets` | scripts/trading/exposure_tracker.py:436-503 | Without a list, tickets and risk have the same net if and only if the instrument was reached or the broker's net is zero. |
| `Reconcile.CooldownRunsFromLatestEntry` | scripts/trading/portfolio_manager.py:454-483 | Afterwards an enabled instrument without trades has no entry cooldown, and that of one with trades runs from its latest entry. |
| `Reconcile.RebuiltTradeExpiresOnTime` | scripts/trading/portfolio_manager.py:454-490 | A rebuilt trade has the broker's units, entry and time, and has expired exactly when its hold has passed since. |
| `Reconcile.RebuiltTradesHoldTheirMinutes` | scripts/trading/portfolio_manager.py:446-490 | That hold is the profile's, in minutes, or the configured default. |
| `Reconcile.ReferencePriceIsBetween` | scripts/trading/exposure_tracker.py:489-503 | The price the inventory is filled at lies between the lowest and the highest entry price. |
| `Reconcile.ReferencePriceTimesUnits` | scripts/trading/exposure_tracker.py:489-503 | And times the units held, whatever their side, it is their value at entry. |
| `Reconcile.PricelessPositionIsFiledAtZero` | scripts/trading/exposure_tracker.py:458-470 | A position the broker reports without trades and without a price is filed at a price of zero, in books that agree. |
| `Reconcile.SilentBrokerSplitsOneUnit` | scripts/trading/exposure_tracker.py:415-429 | A concrete unit that loses its trade, and keeps ticket and risk, when the broker does not answer. |
| `Reconcile.PoundsOnlySplitsOneUnit` | scripts/trading/exposure_tracker.py:436-488 | A concrete unit outside the list that loses its ticket only. |
| `Reconcile.UnlistedUnitSplits` | scripts/trading/exposure_tracker.py:436-503 | A concrete unit the broker reports that reaches the risk inventory but not the tickets. |
| `OverlapAudit.Audit` | scripts/tools/audit_portfolio_overlap.py:50-131 | Peak concurrency, peak notional and peak per instrument are the maxima over all times of what is open in [entry, exit); the moment reported is the first with the peak notional; the flat time is the number of moments between first and last event with nothing open; the weighted sum is the sum of all trade durations. |
| `OverlapAudit.LevelAtIsLoad` | scripts/tools/audit_portfolio_overlap.py:62-75 | The events up to a time, in any order, add up to what is open at that time. |
| `OverlapAudit.EntryBelowLoad` | scripts/tools/audit_portfolio_overlap.py:75-104 | With exits sorted first, the running total right after an entry never exceeds the true load of that moment. |
| `OverlapAudit.PeakIsReached` | scripts/tools/audit_portfolio_overlap.py:97-104 | A running maximum over all events is the maximum over all times. |
| `CandleFiller.IterCandles` | scripts/research/data_store.py:48-135 | Asking any source whose answers are ascending, on the grid and in range, failed requests included: terminates, and its output is contiguous on the grid from the first candle (or the slot due) up to the end, each bar being what an answer had there and else a repeat of the close before. |
| `CandleFiller.AllCalls` | scripts/research/data_store.py:61-114 | The requests the loop makes: each starts where the one before left off, asks for a step or what is left, and together they reach the end. |
| `CandleFiller.EveryQuoteIsGot` | scripts/research/data_store.py:67-135 | Every candle of every answer is among those the output is complete for; no later answer replaces it. |
| `CandleFiller.EveryGotIsAQuote` | scripts/research/data_store.py:67-135 | And each of those is a candle of some answer. |
| `CandleFiller.ServedOutputIsComplete` | scripts/research/data_store.py:48-135 | From a source that serves a fixed market, the output is complete for that market. |
| `CandleFiller.EveryCandleOnce` | scripts/research/data_store.py:48-135 | Every candle such an output is complete for appears in it at exactly one place. |
| `CandleFiller.CountGaps` | scripts/tools/manage_manifolds.py:61-66 | The integrity check's number is the number of entries that do not follow their predecessor by exactly one step. |
| `CandleFiller.OutputHasNoGaps` | scripts/tools/manage_manifolds.py:47-71 | What the filler writes passes that check. |
| `Repetition.CountByTime` | scripts/research/simulator/signal_deriver.py:392-409 | The deque's length is the number of windows so far with this signature that ended within the retention. |
| `Repetition.CountByIndex` | src/core/byte_stream_manifold.cpp:208-265 | Likewise by index within the lookback (zero keeps all); each histogram entry counts the windows with that repetition, and the entries add up to the number of windows. |
| `Repetition.Prune` | src/core/byte_stream_manifold.cpp:231-239 | Dropping from the front while too old leaves exactly the entries recent enough. |
| `Repetition.WindowOffsets` | src/core/byte_stream_manifold.cpp:187-213 | Windows start at every multiple of the step that fits, up to the maximum, and none that fits is missed. |
| `WindowCodec.PackRoundTrip` | scripts/research/regime_manifold/encoder.py:271-280 | Unpacking packed bits returns them, for any length, a partial last byte included. |
| `WindowCodec.BitsToBytes` | scripts/research/regime_manifold/encoder.py:271-280 | The accumulator loop packs eight bits a byte, the last one padded on the right. |
| `WindowCodec.BytesToBits` | scripts/research/regime_manifold/decoder.py:61-68 | The unpacking loop yields the first bits of the bytes, no more than asked for. |
| `WindowCodec.IntRoundTrip` | scripts/research/regime_manifold/encoder.py:267-268 | A number that fits its width comes back from its bits. |
| `WindowCodec.EncodeBits` | scripts/research/regime_manifold/encoder.py:73-125 | Eight bits per candle, for as many candles as have a range: direction, clamped delta and range buckets, liquidity and volume flags; with the mean range as scales and the splits as they were. |
| `WindowCodec.EncodedBitsSay` | scripts/research/regime_manifold/encoder.py:81-117 | Each candle's eight bits told from the candles: whether it closed no lower than the one before, the two rounded ratios, and on which side of their splits spread and volume are. |
| `WindowCodec.FeaturesSay` | scripts/research/regime_manifold/encoder.py:84-115 | What is encoded: whether the close is no lower than the one before, how far it moved and ranged against the typical range, capped at one, whether the spread is within its split, and whether the volume reaches its own. |
| `WindowCodec.RoundsToNearest` | scripts/research/regime_manifold/encoder.py:88-98 | Buckets are rounded to the nearest number, from half way to the even one. |
| `WindowCodec.MetaSays` | scripts/research/regime_manifold/encoder.py:119-125 | Kept beside the bits: the mean range as both scales, one if there is no range, and the two splits. |
| `WindowCodec.DecodeWindowBits` | scripts/research/regime_manifold/decoder.py:17-51 | One record for every eight bits, each read from its own slice. |
| `WindowCodec.WindowRoundTrip` | scripts/research/regime_manifold/decoder.py:17-68 | Decoding an encoded window recovers every direction and flag, and both ratios within 1/8 and 1/4 of the clamped originals. |
| `WindowCodec.OwnScalesRoundTrip` | scripts/research/regime_manifold/encoder.py:119-125 | The same with the scales the encoder itself keeps beside the bits. |
| `StructuralEvents.TransformRich` | src/core/structural_entropy.cpp:24-55 | One event per neighbouring pair with the right state; a single byte that is not a bit discards everything. |
| `StructuralEvents.StructuralProcessor.Process` | src/core/structural_entropy.cpp:74-95 | Ignores what is not a bit, primes on the first bit, and then reports the state of each step. |
| `StructuralEvents.Feed` | src/core/structural_entropy.cpp:24-95 | On any bit stream the one-at-a-time processor reports the states of the batch transform, in order. |
| `StructuralEvents.StatesSay` | src/core/structural_entropy.cpp:24-55 | Two bits oscillate if they differ, shift if both are set, and are null if neither is. |
| `StructuralEvents.StatesDetermineBits` | src/core/structural_entropy.cpp:24-55 | Streams with the same states are the same, unless they oscillate throughout and start with different bits. |
| `StructuralEvents.Aggregate` | src/core/structural_entropy.cpp:57-72 | Run-length coding without loss: expands back exactly, no run is empty, neighbours differ, each index is the sum of the counts before it. |
| `StructuralEvents.RunsAreUnique` | src/core/structural_entropy.cpp:57-72 | There is only one such coding of a stream. |
| `RegimeFilter.BuildRegimeFilters` | scripts/research/optimizer/tensor_builder.py:288-304 | The prefix-sum filter admits a side exactly by comparing the close with the mean of its full window, and both sides before there is one. |
| `RegimeFilter.WindowSum` | scripts/research/optimizer/tensor_builder.py:294-300 | The difference of two prefix sums is the sum of the window between them. |
| `RegimeFilter.OneSideUnlessAtTheMean` | scripts/research/optimizer/tensor_builder.py:288-304 | With a full window at least one side is admitted, and both only at the mean itself. |

## Left out

- `OrderlyRuns.EveryRunAgrees`: for runs whose allocations name a price other than zero and whose executed orders are filled in full, as the fill-or-kill order asks (scripts/trading/oanda.py:171); `RunAgreement.RunAgreesIffNoStepSplits` is the exact condition.
- `Caps.EveryRunStaysWithinCaps`: executed orders are taken to be filled in full and closes to fill no more than was asked for. Dollar exposure is not among the run-long caps, because price moves revalue it only at fills and reducing fills skip the check; it is a postcondition of openings.
- `LossBound.EveryTradeRespectsItsStop`: with the hazard exit off (`HazardRuns.StopsHoldIffHazardExitOff`). Not claimed for the scalar parity replay, where a trailing or target hit overrides the stop price.
- `HoldBound.EveryOpenTradeIsHeldSoFar`: stated for the backtest with the hazard exit off (`HazardRuns.HoldsAreBoundedIffHazardExitOff`); the live loop ages trades twice per cycle (scripts/trading/portfolio_manager.py:406-413).
- `SimulationReplay.SimulationReplayContext.Decide`: what the thresholds and bundles make of a gate, its direction and the size of an order are arbitrary functions of gate and prices; overrides of a session are not modelled. The class of the simulation's parameters (scripts/research/simulator/models.py) is not part of this model.
- `LiveRuns.LiveRunAgreesIffNothingLosesIt`: a reconcile that raises half way is not modelled, and neither is one without enabled instruments, as the loop then does nothing (scripts/trading/portfolio_manager.py:245-246).
- `Reconcile.ReconcileRestoresAgreement`: for a list of enabled instruments that is not empty and names each of them.
- `SweepParity.SweepCountsTheReplaysTrades`: for thresholds that are not negative, positive prices, orders with a size wherever a gate acts, and the sweep's source and regime filters off (`SweepFilters.FilteredSweepCountsTheReplaysTrades` is for those on: the replay has no such filters, so it is given the admitted gates); where a rule or a threshold is not given, excursions and gates stay short of the default that stands for it. A division by zero in a closed slot yields an arbitrary number.
- `SweepFilters.FilteredSweepCountsTheReplaysTrades`: under the same conditions on sets and timeline.
- `SweepParity.RowsInStep`: under the same conditions.
- `SweepParity.TalliesAgreeIffHeld`: under the same conditions.
- `TimelineParity.SweepOfAFileCountsTheReplaysTrades`: under the same conditions. Candles without an open price, which the sweep leaves out, are not modelled.
- `ParityReplay.ReplayGpuParity`: the summary metrics of a replay are not modelled.
- `CandleFiller.IterCandles`: answers out of order, off the grid or out of range are not modelled. Merging with cached candles, which may repeat one, is not modelled.
- `OverlapAudit.Audit`: the source's one loop is written as a peaks loop and a durations loop; averages and percentages of capital are not modelled.
- `Reconcile.Coordinator.ReconcilePortfolio`: the parsing of the broker's payload is not modelled; numbers arrive coerced, and a failed request for open trades is an empty list.
- `StructuralEvents.TransformRich`: the parallel loop is written in order (each step writes its own slot), and 32-bit indices are taken not to wrap.
- `WindowCodec.EncodeBits`: splits and ranges are given; the metrics of a window, its signature text and the regime label are not modelled.
- `Repetition.CountByIndex`: signatures are given strings; entropy, coherence and the calibrator of hazards (which drops its smallest sample, not its oldest) are not modelled.
- `RegimeFilter.BuildRegimeFilters`: closes are numbers, never NaN.
- The structural circuit breaker is two arbitrary flags; of its notification after a close only the division by the entry price is modelled.
- Tickets, trades and stop states are values inside lists that the objects reassign: that the source updates a ticket in place, through a reference others may hold, is not captured. The live tracker is the backtest tracker plus the replacement of tickets.
- Tensors are rows of slot records instead of one array per field.
- Prices, cash and ratios are real numbers; the tension's exponential is an arbitrary function.
- Instrument names are taken as upper-cased. Logging, locks, files, environment variables, HTTP, the OANDA client and Valkey are not modelled.
