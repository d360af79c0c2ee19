# A verified model of the trading engine's money path

The engine buys and sells sets of prediction-market shares whose combined payout is fixed.
Several parts of it keep redundant views of the same facts, and this project proves how far
those views agree, over every run:

* the **ledger** (`Ledger`, `LedgerAgreement`): a double-entry journal beside running
  balances, with deduplicated trades, a suspense account for unsettled fills, reversals and
  reconciliation adjustments; what the two ways of booking one trade charge together
  (`SuspenseDedup`);
* **fill events** (`FillEvents`) and **orders** (`Orders`): how the venue's event stream
  drives the suspense account, and the life cycle of tracked orders;
* the **position manager** (`Positions`, `Entries`, `Capital`, `PartialExits`): entry,
  resolution, liquidation, rollback and partial exits, and the capital each of them moves;
* the **engine steps** (`Engine`) that must keep the position manager and the ledger in
  agreement: entries, resolutions, liquidations and rollbacks (`BooksAgree`), exits (`Exits`,
  `ExitsAgree`), all of them along whole runs (`BookRuns`), and a run that parts the books
  (`ExitWitness`); what positions pay at resolution (`Settlement`);
* the **asset holdings** of the ledger, as bought and sold along any run (`Holdings`), and beside
  the open legs that trade the asset (`LegHoldings`, `HoldingRuns`);
* the **arbitrage mathematics** (`Arbitrage`, `ScenarioExactness`, `FrankWolfe`,
  `Convergence`, `FallbackWitness`): closed-form checks, enumeration of outcomes, and the
  optimiser, with how near it comes to the best guarantee;
* **detection and evaluation** (`Detection`, `AssetIndex`, `EvalQueue`, `Evaluation`,
  `Selection`, `Riskless`, `Trades`, `Fallback`): from markets to opportunities, exactly when one
  is found, and what it pays and earns once it is entered;
* **supporting algorithms**: the order book and its mirror (`OrderBook`, `VwapWalk`,
  `BookMirror`), token buckets (`RateLimiter`), order amounts (`OrderAmounts`),
  reconciliation (`Reconciliation`, `ReportMeaning`, `ReconciliationFixpoint`) and the circuit breaker
  (`CircuitBreaker`). `Totals` and `Arithmetic` hold the facts about sums and reals.

Each object the engine updates in place is a class. Its methods are proved against functions
on a value of the same shape (`Ledger`, `Portfolio`, `State`, `Queue`, `Breaker`, ...), and the
theorems about whole runs are stated on those functions. Amounts are real numbers, times are
parameters, and a loop over a hash map runs in an arbitrary order that the contracts name.

## Where the obvious claim is false

The code is modelled as it is. Where an expected property fails, the exact condition is proved:

* a ledger operation keeps journal and balances in agreement only inside its guard
  (`StepAgreesExactly`); resetting cash breaks it unless the amount is the balance itself;
* reversing a buy twice pays it back twice (`ReversalRepeats`);
* suspense and plain booking share a dedup key in one direction only: a trade booked plainly
  first is charged again on entering suspense (`EnterChargesExactly`, `ChargedOnceExactly`);
* a rolled-back entry returns its fee to the ledger but not to the position manager
  (`RollBackAgreesExactly`, `RollBackLosesTheFee`);
* a comment says that reversing a buy clears the asset holdings
  (`rust_engine/src/accounting.rs:345`); the code leaves them, so holdings and open legs part on a
  rollback (`RollBackMatchesExactly`), and they part when a sale drops a rest of at most 0.001
  shares (`StepMatchesExactly`, `HoldingsMatchLegsExactly`);
* a resolution won by a leg that was sold out, or by no leg, is not booked in cash
  (`ResolveAgreesExactly`);
* the exit that closes a position credits earlier partial exits again
  (`ExitCredits`, `EntryToClosingExit`), so two calls are not one (`BatchesMerge`);
* exit fees are taken from the proceeds and added to the fees paid, so an exit conserves money
  only when it pays none (`ExitConservesExactly`, `ResolutionKeepsTheExitFees`);
* the ledger books only the first exit of a leg, and in full even when it exceeds what is held
  (`OnlyFirstFillsAreBooked`, `ExitMovesGaps`); the books stay in agreement under the exact
  conditions of `ExitAgreesExactly`, `OneExitAgreesExactly` and `RepeatedExitsAgreeExactly`, and
  a run from a fresh engine breaks them (`SellingInTwoHalvesParts`);
* a reconciliation adjustment moves the ledger and not the manager (`AdjustmentAgreesExactly`);
* an order reported over its quantity keeps the excess when a later report is smaller
  (`FillIsAccountedExactly`);
* a request that its category refuses still costs a global token (`GlobalTokenIsCharged`);
* the optimiser starts off budget (`StartOnBudgetExactly`) and its first step, of size one,
  repairs that (`IterateOnBudget`);
* all-NO is an outcome of implication constraints and of complementary ones over more than
  two markets, so those never yield a result (`AllNoPaysNothing`);
* a comment in reconciliation says a phantom position is dropped when every leg is missing
  on the venue (`rust_engine/src/lib.rs:1340`); the code drops it when one reported market
  is missing and no leg has a recorded fill (`RolledBackExactly`);
* reconciliation settles a shared market only if the other positions' legs in it are
  negligible (`SecondMismatchExactly`), and a market that matched can differ once a phantom that
  shared it is dropped (`EveryMarketAfterAPass`); a mismatch found by token id is booked at price
  zero (`FallbackMovesNoMoney`);
* a background queue entry survives its promotion, so an id can repeat once it is pushed again
  (`PushKeepsDistinctExactly`, `DistinctExactlyWithoutReadmission`, `BackgroundCanRepeat`);
* the sell-all payout is flat only if no leg's NO price is below the clamp
  (`SellAllPaysTheSameExactly`).

## Model

| member | source | states |
|---|---|---|
| `Accounting.AccountingLedger.constructor` | rust_engine/src/accounting.rs:128-154 | a new ledger holds the opening cash, posted once as cash and once as equity |
| `Accounting.AccountingLedger.RecordBuy` | rust_engine/src/accounting.rs:221-266 | the whole new ledger state: entries in order, cash, deployed, fees, holdings |
| `Accounting.AccountingLedger.RecordSell` | rust_engine/src/accounting.rs:276-333 | the same for a sale, with the gain or loss booked on its own side and a holding of at most 0.001 shares dropped |
| `Accounting.AccountingLedger.RecordBuyDedup` | rust_engine/src/accounting.rs:177-196 | a key seen before changes nothing and is reported; a new key is remembered and booked |
| `Accounting.AccountingLedger.RecordSellDedup` | rust_engine/src/accounting.rs:199-218 | the same for sales |
| `Accounting.AccountingLedger.ReverseBuyByPosition` | rust_engine/src/accounting.rs:347-406 | the two collecting loops post exactly one mirror per capital and fee debit of the position, and return the sum reversed |
| `Accounting.AccountingLedger.RecordReconciliationAdjustment` | rust_engine/src/accounting.rs:548-593 | both signs of the share difference, with the clamps on deployed capital and on the holding |
| `Accounting.AccountingLedger.EnterSuspense` | rust_engine/src/accounting.rs:601-648 | cash moves to suspense unless the trade is in suspense already; the trade key is marked as recorded |
| `Accounting.AccountingLedger.ConfirmFromSuspense` | rust_engine/src/accounting.rs:654-696 | a live entry moves to position and fees and is returned; anything else is untouched |
| `Accounting.AccountingLedger.MarkSuspenseRetrying` | rust_engine/src/accounting.rs:699-706 | only a matched entry becomes retrying |
| `Accounting.AccountingLedger.ReverseSuspense` | rust_engine/src/accounting.rs:712-736 | a live entry returns to cash as failed; a settled one is untouched |
| `Accounting.AccountingLedger.VerifyBalance` | rust_engine/src/accounting.rs:445-449 | the two summing loops answer whether the net over the whole journal is within a tenth of a cent of zero |
| `LedgerAgreement.StepAgreesExactly` | rust_engine/src/accounting.rs:221-406 | one operation keeps journal, running balances and suspense in agreement if and only if its guard holds: fee not negative, or clamp argument within the balance, or cash reset to its own value |
| `LedgerAgreement.EveryRunAgrees` | rust_engine/src/accounting.rs:128-749 | over every guarded run: debits equal credits, each balance equals its accounts' net, each suspense entry equals its account's net, and cash + deployed + fees + suspense - realized profit is the opening equity |
| `LedgerAgreement.ReversalRepeats` | rust_engine/src/accounting.rs:347-406 | reversing twice pays twice; it is idempotent on cash if and only if nothing was booked |
| `Holdings.StepCarriesTrade` | rust_engine/src/accounting.rs:221-736 | every ledger operation changes a holding by exactly the shares and cost it trades of that asset: a purchase adds both, a sale takes both off and drops a rest of at most 0.001 shares, a downward correction trims shares alone, everything else leaves it |
| `Holdings.HoldingIsTheFlow` | rust_engine/src/accounting.rs:221-736 | over any run in which an asset stays held, its shares are those held at first plus those bought less those sold, its basis the capital booked less the cost sold |
| `SuspenseDedup.EnterChargesExactly` | rust_engine/src/accounting.rs:601-648 | in any ledger, entering suspense leaves cash alone if and only if the trade is in suspense already or costs nothing |
| `SuspenseDedup.ChargeOfNewTrade` | rust_engine/src/accounting.rs:177-196 | over any run, whatever else happens in it, a new trade is charged its cost for its first booking, and once more for suspense if that first booking was plain |
| `SuspenseDedup.ChargedOnceExactly` | rust_engine/src/accounting.rs:177-625 | so a trade that goes through suspense is charged once if and only if no plain booking comes before its first entry into suspense |
| `FillEvents.ProcessFillEvent` | rust_engine/src/executor.rs:1585-1633 | the ledger effect and the returned action of one venue fill event |
| `FillEvents.FirstMatchLocks` | rust_engine/src/executor.rs:1592-1608 | after any prefix of a stream the suspense entry of a trade holds the order of its first match: shares, fill price, price times shares, and two cents on the dollar of that |
| `FillEvents.SettlementEnds` | rust_engine/src/executor.rs:1609-1631 | a confirmed pending trade becomes book value, fees and a holding; a failed one gives back its capital and fees; a retried one only changes status |
| `FillEvents.ActionMeans` | rust_engine/src/executor.rs:1585-1633 | the returned action says how the standing of the trade changed: unseen, pending, settled either way |
| `FillEvents.PhaseAfter` | rust_engine/src/executor.rs:1585-1633 | after any prefix of a stream: which trades have entered suspense and which are still open |
| `FillEvents.OnlyEssentialEventsMatter` | rust_engine/src/executor.rs:1585-1633 | a stream with duplicates and stray events leaves the same journal, balances and holdings as only the first match of each trade and the first settlement after it |
| `FillEvents.EventsCommute` | rust_engine/src/executor.rs:1585-1633 | events of different trades commute on balances, suspense and holdings |
| `FillEvents.InterleavingIrrelevant` | rust_engine/src/executor.rs:1585-1633 | two streams with the same events per trade end with the same balances, however they interleave |
| `Orders.Executor.UpdateTradeStatus` | rust_engine/src/executor.rs:937-977 | the new tracked map: a forbidden transition or unknown id changes nothing, a fill above the quantity is split into fill and overfill |
| `Orders.UpdateAppliesExactly` | rust_engine/src/executor.rs:235-251 | an update is applied if and only if it is one of the legal transitions, listed pair by pair; applied, it changes that order alone, and without a quantity leaves its fill |
| `Orders.CanAlwaysSettle` | rust_engine/src/executor.rs:235-251 | from every status that is not terminal an order can fail at once, and can be confirmed with its fill in at most two updates |
| `Orders.Executor.CancelAllOrders` | rust_engine/src/executor.rs:1108-1152 | every pending order, and no other, becomes cancelled; the count is exact |
| `Orders.CancelsExactly` | rust_engine/src/executor.rs:1138-1148 | the kill switch sets every order that is not confirmed, failed or cancelled to cancelled at that time, and leaves the others as they are |
| `Orders.Executor.PositionHasConfirmedFills` | rust_engine/src/executor.rs:1012-1018 | the loop finds a confirmed order of the position if and only if there is one |
| `Orders.TerminalIsFinal` | rust_engine/src/executor.rs:228-251 | over every run an order in a terminal status keeps status, fill and timestamp |
| `Orders.NeverOverfilled` | rust_engine/src/executor.rs:937-977 | over every run no order of positive quantity is filled above it |
| `Orders.FillIsAccountedExactly` | rust_engine/src/executor.rs:937-977 | over any run, filled and recorded excess add up to the last amount reported if and only if that report exceeded the quantity or nothing before it did: a recorded excess is never taken back |
| `Orders.ConfirmedFillsPersist` | rust_engine/src/executor.rs:1012-1018 | once a position has confirmed fills it has them along every run without cleanup |
| `Orders.ConfirmedWasMatched` | rust_engine/src/executor.rs:235-251 | an order that got past submission was matched at some earlier point of the run, despite the mined-retrying cycle |
| `Orders.NothingPending` | rust_engine/src/executor.rs:1138-1148 | after cancel-all no order is pending |
| `Orders.CancelledStaysQuiet` | rust_engine/src/executor.rs:1138-1148 | after cancel-all no run of status updates changes any order until a new one is submitted |
| `Positions.PositionManager.EnterPosition` | rust_engine/src/position.rs:260-376 | capital check, legs built by the loop, capital, counters and the new open position |
| `Positions.PositionManager.CloseOnResolution` | rust_engine/src/position.rs:380-474 | payout by the losing NO legs or the winning YES leg, and the whole new portfolio |
| `Positions.PositionManager.ResolutionPayout` | rust_engine/src/position.rs:411-439 | the accumulating loop equals the order-free sum over losing legs, whatever the hash order |
| `Settlement.PayoutMeans` | rust_engine/src/position.rs:411-439 | NO positions pay the shares of all losing legs, YES positions what divided by the winner's entry price its bet is, and nothing for a winner that is not held |
| `Settlement.SidePaid` | rust_engine/src/position.rs:390-409 | the side paid is decided by the method, else by the flag, else by the strategy |
| `Settlement.ContainsSellExactly` | rust_engine/src/position.rs:390-409 | the method or strategy counts as a sale if and only if "sell" stands somewhere in it |
| `Settlement.UnsharedLegPays` | rust_engine/src/position.rs:411-428 | a NO leg without shares pays its bet over the NO price, and nothing where that price is not positive |
| `Positions.PositionManager.LiquidationSale` | rust_engine/src/position.rs:480-526 | the accumulating loop equals the order-free sum of share values at the bids |
| `Positions.PositionManager.LiquidatePosition` | rust_engine/src/position.rs:585-619 | proceeds less the fee, and the whole new portfolio |
| `Positions.PositionManager.RollBackEntry` | rust_engine/src/position.rs:815-819 | the position goes, its capital comes back without the fee |
| `Positions.PositionManager.ApplyExitFills` | rust_engine/src/position.rs:631-723 | the fill loop, the close test and both ways of crediting |
| `Capital.EnterConservesExactly` | rust_engine/src/position.rs:277-374 | an entry conserves money if and only if it does not overwrite an open position that holds any; an accepted entry never makes capital negative |
| `Capital.NewPortfolioConserves` | rust_engine/src/position.rs:208-222 | a new position manager starts conserved, with counters that rebuild from its empty list |
| `Capital.EveryRunConserves` | rust_engine/src/position.rs:277-619 | along every run of enter, resolve and liquidate with fresh ids: capital + invested - profit is the initial capital, and the stored counters rebuild from the closed positions |
| `Entries.NewPositionSoundExactly` | rust_engine/src/position.rs:260-376 | a new position has no overdrawn leg and total capital equal to its leg bets if and only if every bet is on a listed market, whatever the prices |
| `Entries.NewLegBuys` | rust_engine/src/position.rs:285-311 | a new leg's shares times the price of the side it buys are its bet, with a NO price of at least a tenth of a cent |
| `Capital.RollBackLosesTheFee` | rust_engine/src/position.rs:815-819 | a rollback breaks conservation by exactly the entry fee |
| `PartialExits.FillsKeepCostPerShare` | rust_engine/src/position.rs:648-681 | any batch of fills keeps each remaining leg's cost per share, never clears more than held, and clears cost exactly as the bets shrink |
| `PartialExits.ExitKeepsPositionSound` | rust_engine/src/position.rs:683-694 | after any batch total capital is again the sum of the leg bets; the clamps at zero are not reached |
| `PartialExits.SplitFill` | rust_engine/src/position.rs:648-681 | one fill and its two parts at the same price tally identically: legs, proceeds, fees, cost |
| `PartialExits.BatchesMerge` | rust_engine/src/position.rs:631-723 | two calls leave the same portfolio as one call with both batches, except that a closing second call credits the proceeds and the profit of the first again |
| `PartialExits.SplitExit` | rust_engine/src/position.rs:631-723 | one fill in two calls at the same price leaves what one call leaves, up to that double credit when the second call closes the position |
| `PartialExits.ExitCredits` | rust_engine/src/position.rs:696-720 | a call credits exactly its proceeds if and only if it leaves the position open or nothing was paid before |
| `PartialExits.OpenExitsCreditOnce` | rust_engine/src/position.rs:718-720 | over any run of partial exits capital grows by exactly what the position has been paid |
| `PartialExits.ClosingExitDoubleCredits` | rust_engine/src/position.rs:711-711 | over any batches the last of which closes the position, capital gains every batch's net proceeds plus, once more, all that was paid before the last |
| `PartialExits.EntryToClosingExit` | rust_engine/src/position.rs:260-720 | from an accepted entry to its closing exit: capital moves by the cost and entry fee, all net proceeds, and all but the last batch's again |
| `PartialExits.ExitConservesExactly` | rust_engine/src/position.rs:648-723 | an exit that leaves the position open conserves money if and only if it pays no fee; a closing one if and only if what was paid before is the profit counted before, the fees paid and the cost of what was not sold |
| `PartialExits.ResolutionKeepsTheExitFees` | rust_engine/src/position.rs:380-723 | after any partial exits, money is up by exactly the fees they paid, and a later resolution neither adds to that nor repairs it |
| `Engine.TradingEngine.InitPositions` | rust_engine/src/lib.rs:553-559 | both books start from the same capital |
| `Engine.TradingEngine.EnterPosition` | rust_engine/src/lib.rs:622-665 | the position manager step, then one deduplicated buy per leg in some hash order |
| `Engine.TradingEngine.CloseOnResolution` | rust_engine/src/lib.rs:667-702 | the payout goes to the winner's leg, empty legs are skipped |
| `Engine.TradingEngine.LiquidatePosition` | rust_engine/src/lib.rs:850-885 | one deduplicated sale per leg at its shares times its bid |
| `Engine.TradingEngine.RollbackPaperEntry` | rust_engine/src/lib.rs:739-758 | the position is removed and refunded, the ledger reversed |
| `Engine.TradingEngine.ApplyExitFills` | rust_engine/src/lib.rs:766-811 | fills booked in order at the cost per share before the batch, one key per leg |
| `BooksAgree.EnterAgreesExactly` | rust_engine/src/lib.rs:622-665 | an entry keeps the books in agreement if and only if no bet lies outside the listed markets |
| `BooksAgree.ResolveAgreesExactly` | rust_engine/src/lib.rs:667-702 | a resolution does if and only if the winner is a leg that has not been sold out, or the position pays its YES side, or all its legs are sold out |
| `BooksAgree.LiquidateAgreesExactly` | rust_engine/src/lib.rs:850-885 | a liquidation does if and only if both books value the sale alike |
| `BooksAgree.ValuedAlikeExactly` | rust_engine/src/position.rs:480-526 | they value it alike for all bids if and only if the valuation uses the shares each leg holds |
| `BooksAgree.EnteredLegsValuedExactly` | rust_engine/src/position.rs:304-330 | which is so at entry if and only if the position is a buy or every NO price is 1 - YES |
| `BooksAgree.RollBackAgreesExactly` | rust_engine/src/lib.rs:739-758 | a rollback widens the cash gap by exactly the entry fee if and only if the ledger still books the position's full capital |
| `BooksAgree.UnexitedIsBookedInFull` | rust_engine/src/lib.rs:739-811 | which holds of every open position no leg of which was exited |
| `BooksAgree.RollBackKeepsInvariant` | rust_engine/src/lib.rs:739-758 | while the ledger books the full capital, a rollback reaches no clamp and keeps everything else in agreement |
| `BookRuns.BooksAgreeAlongEveryRun` | rust_engine/src/lib.rs:553-811 | from a fresh engine along every admissible run of entries, resolutions, liquidations, exits and rollbacks: deployed capital agrees, the cash gap is exactly the fees of rolled-back entries, and the journal identity holds |
| `HoldingRuns.StepMatchesExactly` | rust_engine/src/lib.rs:622-885 | one admissible step keeps an asset's holding equal to the open legs that trade it, shares and bets, if and only if what it sells leaves nothing or more than 0.001 shares, and it rolls back no leg of that asset |
| `HoldingRuns.HoldingsMatchLegsExactly` | rust_engine/src/lib.rs:553-885 | over every admissible run from a fresh engine, holdings and open legs match after every step if and only if every step of it meets that condition |
| `HoldingRuns.RollBackMatchesExactly` | rust_engine/src/accounting.rs:347-406 | a rollback keeps the match if and only if the position holds and has bet nothing on the asset, since the ledger leaves its holdings |
| `HoldingRuns.SoleHolderSettles` | rust_engine/src/lib.rs:667-885 | closing the only position that trades an asset always meets the condition |
| `Exits.OnlyFirstFillsAreBooked` | rust_engine/src/lib.rs:793-808 | of any batch the ledger books exactly the first effective fill of each leg not exited before |
| `Exits.BatchGap` | rust_engine/src/lib.rs:766-811 | of every batch, closing or not: what the ledger books beyond what the manager tallies, in cash, fees and deployed capital |
| `ExitsAgree.ExitMovesGaps` | rust_engine/src/lib.rs:766-811 | any batch on any sound position parts cash by the excess the ledger books, less what a closing batch credits again, and deployed capital by the cost of the dust less that of the excess |
| `ExitsAgree.ExitAgreesExactly` | rust_engine/src/lib.rs:766-811 | a batch of first exits keeps cash and deployed capital in agreement if and only if no fill exceeds what is held and, where it closes the position, it is its only exit and leaves no dust |
| `ExitsAgree.OneExitAgreesExactly` | rust_engine/src/lib.rs:766-811 | a fill that leaves the position open does so if and only if it is the leg's first exit and sells no more than is held, or an exited leg holds nothing |
| `ExitsAgree.RepeatedExitsAgreeExactly` | rust_engine/src/lib.rs:793-808 | a batch that is cleared in full and leaves the position open does so if and only if no leg in it is exited a second time |
| `ExitsAgree.DustIsSmall` | rust_engine/src/position.rs:683-711 | what a closing batch leaves in deployed capital is the bets of the unsold shares, at most the cost of 1e-9 shares a leg, and zero if and only if no leg keeps a bet |
| `ExitsAgree.SellingTheRestParts` | rust_engine/src/lib.rs:766-811 | selling out legs that were exited before parts cash by the proceeds and all earlier payouts, and deployed capital by all that was still at work |
| `ExitWitness.SellingInTwoHalvesParts` | rust_engine/src/lib.rs:553-811 | a run from a fresh engine that reaches that: enter, sell half, sell the other half; the books agree up to the first sale and by no refund after the second |
| `ExitsAgree.SecondExitIsUnbooked` | rust_engine/src/lib.rs:802-802 | a later batch on exited legs leaves the ledger untouched, while the manager is credited its net proceeds and, where it closes the position, all earlier payouts |
| `Arbitrage.BuildScenarios` | rust_engine/src/arb.rs:132-153 | the mask loop and the one-hot branches produce the specified scenario list |
| `Arbitrage.GuaranteedPayout` | rust_engine/src/arb.rs:190-198 | the minimum loop returns the least payout and the first scenario that attains it |
| `Arbitrage.FrankWolfe` | rust_engine/src/arb.rs:185-221 | the in-place loop computes the specified iterate, including the early stop |
| `Arbitrage.RunPolytope` | rust_engine/src/arb.rs:156-247 | every rejection test, and the figures of the result: bets, gross and net profit, fees, percentage |
| `Selection.DirectExactly` | rust_engine/src/arb.rs:60-129 | stated on prices, capital and rates: the direct check finds something if and only if the prices pass the guards and buying every YES, or every NO, returns a fraction of the capital inside the profit window after the fee; and which of the two it reports |
| `Selection.OptimiserExactly` | rust_engine/src/arb.rs:156-247 | the optimiser returns a result if and only if its guards hold and the guaranteed payout, less capital and a fee for every market, returns a fraction of the capital inside the window |
| `ScenarioExactness.ScenariosExact` | rust_engine/src/arb.rs:132-153 | every outcome the constraint admits is enumerated exactly once, and nothing else |
| `ScenarioExactness.RespectsMeans` | rust_engine/src/arb.rs:148-148 | an outcome respects the implications if and only if, in each that names markets of the set, a winning premise has a winning conclusion |
| `ScenarioExactness.BitsOfMask` | rust_engine/src/arb.rs:143-150 | reading back the mask of an outcome gives the outcome |
| `ScenarioExactness.MaskOfBits` | rust_engine/src/arb.rs:143-150 | and the outcome of a mask gives the mask: the enumeration is a bijection |
| `FrankWolfe.IterateOnBudget` | rust_engine/src/arb.rs:185-221 | after every iteration holdings are nonnegative and cost exactly the capital |
| `FrankWolfe.StartOnBudgetExactly` | rust_engine/src/arb.rs:187-187 | the starting point is on budget if and only if the prices average one |
| `FrankWolfe.BetsSpendTheCapital` | rust_engine/src/arb.rs:223-237 | the bets of a result are nonnegative and sum to the capital |
| `FrankWolfe.EveryOutcomePays` | rust_engine/src/arb.rs:185-237 | every outcome the constraint admits pays at least capital plus the stated gross profit, and one pays no more |
| `FrankWolfe.MutexFloor` | rust_engine/src/arb.rs:185-237 | under mutual exclusion the guaranteed payout times the price sum fits the capital |
| `Convergence.FloorNearsTheBest` | rust_engine/src/arb.rs:185-237 | under mutual exclusion the guaranteed payout times the price sum falls short of the capital, the best possible, by at most n times 2 capital / (rounds + 1) |
| `Convergence.MutexSearchIsLong` | rust_engine/src/arb.rs:205-221 | and the search stops early only after more than 20000 times the capital in rounds |
| `Convergence.OptimiserDecides` | rust_engine/src/arb.rs:156-247 | so on every searchable set the optimiser decides by a floor that close to the best one, and finds something if and only if that floor is profitable |
| `Convergence.CheapSetsAreAccepted` | rust_engine/src/arb.rs:156-247 | every searchable set cheap enough to return the minimum with that shortfall, and not above the cap, is accepted |
| `FrankWolfe.PolytopeIsDominated` | rust_engine/src/arb.rs:156-247 | at prices up to one the optimiser never beats the closed-form buy-all profit |
| `FrankWolfe.ProfitNeedsCheapSet` | rust_engine/src/arb.rs:156-247 | a profitable result forces a price sum below one, and with it every price below one |
| `FrankWolfe.FallbackOnlyAboveTheCap` | rust_engine/src/eval.rs:243-260 | where the direct check found nothing, a result implies the buy-all profit exceeded the cap, and the cap is below one ninth |
| `FrankWolfe.AllNoPaysNothing` | rust_engine/src/arb.rs:141-152 | implication constraints, and complementary ones over more than two markets, never yield a result: all-NO is an outcome |
| `FallbackWitness.FallbackHappens` | rust_engine/src/eval.rs:243-260 | a concrete set of two markets that the direct check rejects as too profitable and the optimiser then accepts, so the fallback theorems are not vacuous |
| `EvalQueue.EvalQueue.Push` | rust_engine/src/queue.rs:63-89 | the new lists and sets for urgent and background pushes, with promotion |
| `EvalQueue.EvalQueue.Drain` | rust_engine/src/queue.rs:107-141 | what is handed out and what remains, urgent first |
| `EvalQueue.EveryRunIsValid` | rust_engine/src/queue.rs:63-141 | over every run urgent ids are distinct and equal their set, and the background set is disjoint from it and contained in the background ids |
| `EvalQueue.DrainKeepsValid` | rust_engine/src/queue.rs:107-141 | a drain hands out the smaller of what is asked for and what is queued, and loses nothing |
| `EvalQueue.PushedWorkIsServed` | rust_engine/src/queue.rs:63-141 | a pushed constraint is still pending at the end of any run or was handed out in it |
| `EvalQueue.UrgentIsFifo` | rust_engine/src/queue.rs:63-141 | urgent ids handed out, followed by those waiting, are the admitted ids in order, over whole runs |
| `EvalQueue.BackgroundIsFifo` | rust_engine/src/queue.rs:63-141 | the same for background ids |
| `EvalQueue.HandedEntries` | rust_engine/src/queue.rs:107-141 | what is handed out carries the id and both times of an entry that waited in the list it is marked with |
| `EvalQueue.PushKeepsDistinctExactly` | rust_engine/src/queue.rs:63-89 | a push keeps background ids distinct if and only if it is urgent, or the id is pending, or no entry of that id waits in the background |
| `EvalQueue.DistinctExactlyWithoutReadmission` | rust_engine/src/queue.rs:63-141 | over every run background ids stay distinct if and only if no background push re-admits an id whose promoted entry still waits there |
| `EvalQueue.BackgroundCanRepeat` | rust_engine/src/queue.rs:76-76 | four steps from the empty queue that repeat an id |
| `Detection.DetectConstraints` | rust_engine/src/detect.rs:56-143 | the loops detect exactly the groups the rule accepts, with the spread and the resolution time of each, and count the groups large enough and those rejected either way |
| `Detection.DetectedExactly` | rust_engine/src/detect.rs:80-140 | a constraint is detected for a group if and only if enough members, enough of them tradable, have YES prices whose sum lies in the configured window |
| `Detection.DetectedSays` | rust_engine/src/detect.rs:80-140 | a detected constraint lists exactly the tradable members, resolves with the earliest dated one, and is named after the first 32 characters of its group |
| `Detection.EarliestEndIsLeast` | rust_engine/src/detect.rs:80-140 | the earliest end is the least positive one, and zero if and only if no member has one |
| `Detection.RecordsAreOfDetected` | rust_engine/src/detect.rs:73-143 | a spread and an end are recorded for exactly the ids of detected constraints, and belong to one of them: the end its own, the spread the distance of its price sum from a dollar |
| `Detection.GroupMembers` | rust_engine/src/detect.rs:62-70 | a group has exactly the negRisk markets that carry its id |
| `Detection.GroupedExactly` | rust_engine/src/detect.rs:62-70 | and there is a group for exactly the nonempty ids that some negRisk market carries |
| `Detection.RejectedAreCounted` | rust_engine/src/detect.rs:80-105 | the counts of incomplete and overpriced groups are the numbers of large enough groups whose YES prices add up to less, and to more, than the window |
| `Detection.FullGroupIsCovered` | rust_engine/src/detect.rs:80-140 | a detected constraint has as many markets as its group has members if and only if it lists them all, in order |
| `AssetIndex.BuildIndex` | rust_engine/src/detect.rs:145-177 | the loops build the four index maps over the constraints |
| `AssetIndex.NotifiesExactly` | rust_engine/src/detect.rs:151-175 | an asset leads to a constraint id if and only if a constraint of that id trades it, on either side of one of its markets |
| `AssetIndex.FirstMarketIsKept` | rust_engine/src/detect.rs:151-175 | an asset names the market, and the side, it was listed for first |
| `AssetIndex.AssetsOfConstraint` | rust_engine/src/detect.rs:152-176 | with distinct ids, an asset is listed for a constraint if and only if that constraint trades it |
| `Evaluation.EvaluateBatch` | rust_engine/src/eval.rs:135-321 | what is drained, which opportunities are returned and the five counts |
| `Selection.FoundExactly` | rust_engine/src/eval.rs:135-262 | a drained entry yields an opportunity if and only if its constraint is stored, unheld, in time, complete and fully quoted, and worthwhile at the book's prices: by buying every YES, by buying every NO, or by what the optimiser guarantees |
| `Selection.HeldExactly` | rust_engine/src/eval.rs:160-200 | an entry is counted as held if and only if its constraint is held, or one of its markets is while it is still in time |
| `Selection.EverythingReturnedIsSound` | rust_engine/src/eval.rs:135-321 | everything returned touches no held market and states a fraction of the capital inside the window, the profit and fee that belong to it, its hours, its score and the depth of its shallowest leg |
| `Selection.MinDepthIsLeast` | rust_engine/src/eval.rs:264-285 | no leg is shallower than the stated depth and one is as shallow |
| `Evaluation.HeldAreCounted` | rust_engine/src/eval.rs:135-200 | the count of held entries is the number of drained entries passed over as held |
| `Evaluation.UrgentAreCounted` | rust_engine/src/eval.rs:135-155 | and the urgent count the number of those marked urgent |
| `Evaluation.TopAreBest` | rust_engine/src/eval.rs:316-318 | the returned opportunities are in descending order, and nothing left out scores better |
| `Evaluation.TiesKeepTheirOrder` | rust_engine/src/eval.rs:317-317 | opportunities of one score keep the order they were found in |
| `Evaluation.BestAreFound` | rust_engine/src/eval.rs:135-321 | every opportunity returned was found in evaluating one of the drained entries |
| `Evaluation.StoredIsDetected` | rust_engine/src/eval.rs:59-64 | a stored constraint is one of those detected, under its own id |
| `Evaluation.LastConstraintIsStored` | rust_engine/src/eval.rs:59-64 | of constraints with one id the last is the one stored |
| `Riskless.OpportunityCoversItsGroup` | rust_engine/src/eval.rs:212-250 | every opportunity lists every market of the group its constraint was detected from |
| `Riskless.BuyAllPaysTheSame` | rust_engine/src/position.rs:411-439 | a buy-all entered as found pays capital over the price sum, whoever wins |
| `Riskless.SellAllPaysTheSameExactly` | rust_engine/src/position.rs:411-439 | a sell-all pays (n - 1) capital over the NO cost whoever wins, if and only if every leg's NO price reaches the clamp or there is one leg |
| `Riskless.DirectOpportunityIsRiskless` | rust_engine/src/eval.rs:212-250 | every direct opportunity that evaluation finds has those payouts when entered unmodified |
| `Riskless.FallbackInEvaluation` | rust_engine/src/eval.rs:243-260 | a fallback opportunity implies a buy-all profit above the cap and a cap below one ninth |
| `Trades.DirectBetsSpendTheCapital` | rust_engine/src/arb.rs:88-120 | the bets of a direct opportunity sum to the capital it states |
| `Trades.FoundEntryIsAdmissibleExactly` | rust_engine/src/eval.rs:236-321 | under a fresh id a direct opportunity is an admissible entry of the two-book runs if and only if it buys YES or every NO price is positive |
| `Trades.TradeEarnsItsEstimate` | rust_engine/src/position.rs:260-474 | entered as found and resolved for any winner, a direct opportunity gains payout - capital - entry fee; with one fee rate that is never below the stated profit, and equal to it if and only if there is no fee or no gross profit |
| `Fallback.FallbackPaysAtLeast` | rust_engine/src/position.rs:260-439 | an opportunity of the optimiser, entered as found, pays at least its capital, stated profit and fees, whoever wins |
| `Fallback.FallbackWorstWinner` | rust_engine/src/position.rs:260-439 | and some winner makes it pay exactly that |
| `Fallback.FallbackEarnsItsEstimate` | rust_engine/src/position.rs:260-474 | resolved for any winner, it gains at least its stated profit, with one fee rate |
| `OrderBook.OrderBook.EffectiveFillPrice` | rust_engine/src/types.rs:62-92 | the walk over ascending asks, including the uncovered and empty cases |
| `OrderBook.OrderBook.AskDepthUsd` | rust_engine/src/types.rs:96-102 | the sum over the book, in ascending order, times the haircut |
| `OrderBook.OrderBook.ApplySnapshot` | rust_engine/src/types.rs:105-119 | both sides are rebuilt from the positive levels |
| `OrderBook.SnapshotPrices` | rust_engine/src/types.rs:105-119 | a snapshot holds exactly the prices it names with a positive size |
| `OrderBook.SnapshotHolds` | rust_engine/src/types.rs:105-119 | and the last positive size it names for a price |
| `OrderBook.OrderBook.ApplyDelta` | rust_engine/src/types.rs:122-131 | one level is set or removed on one side only |
| `OrderBook.LastSizeIsTheLevel` | rust_engine/src/types.rs:122-131 | after any series of deltas a price holds the last size sent for it, and no level if that is not positive |
| `OrderBook.UnnamedPriceKeeps` | rust_engine/src/types.rs:122-131 | a price no delta names keeps its level |
| `VwapWalk.GreedyIsOptimal` | rust_engine/src/types.rs:62-92 | no way of spending the same money across the asks buys more shares than the walk |
| `VwapWalk.GreedyAllocates` | rust_engine/src/types.rs:62-92 | the walk is itself such a way |
| `VwapWalk.BookPriceNeverFalls` | rust_engine/src/types.rs:62-92 | the effective price is positive and never falls as the trade grows |
| `VwapWalk.BookPriceWithinAsks` | rust_engine/src/types.rs:62-92 | the price lies between the best ask and some ask of the book |
| `VwapWalk.PricedExactlyWhenCovered` | rust_engine/src/types.rs:62-101 | the price is nonzero if and only if the size is positive and the unhaircut depth covers it |
| `VwapWalk.DepthIsWhatFills` | rust_engine/src/types.rs:62-102 | the reported depth is the haircut share of the largest size the book prices |
| `BookMirror.BookMirror.ApplySnapshot` | rust_engine/src/book.rs:50-57 | the asset's book is replaced, its cached price refreshed, no other book touched |
| `BookMirror.BookMirror.ApplyDelta` | rust_engine/src/book.rs:60-71 | only ask changes refresh the cached price |
| `BookMirror.BookMirror.ApplyBestPrices` | rust_engine/src/book.rs:74-87 | the best-price update of one book, no other book touched |
| `BookMirror.BookMirror.CheckEfpDrift` | rust_engine/src/book.rs:90-108 | the cached price and the notices after one comparison |
| `BookMirror.CacheStaysClose` | rust_engine/src/book.rs:50-108 | over every run at one trade size, each cached price is within the threshold of the book's current positive price |
| `BookMirror.QuotesAreCached` | rust_engine/src/book.rs:90-108 | over every run, a book with a quote has a cached price |
| `BookMirror.NoticesMean` | rust_engine/src/book.rs:90-108 | a constraint of the asset is told urgently if and only if a positive quote lies further than the threshold from the cached price, and without urgency if and only if nearer and nothing is cached |
| `BookMirror.BestPricesFillEmptySides` | rust_engine/src/book.rs:74-87 | best prices fill empty sides with one level of 100 and leave the others |
| `BookMirror.MovesAreAnnounced` | rust_engine/src/book.rs:90-108 | over any run, a quote that ends further than the threshold from the price cached before it was announced in some step to every constraint of the asset, however small the single moves |
| `RateLimiter.TokenBucket.TryConsume` | rust_engine/src/rate_limiter.rs:47-55 | one token is taken after a refill if there is one |
| `RateLimiter.RateLimiter.Check` | rust_engine/src/rate_limiter.rs:110-136 | a token of the global bucket first, then one of the category, with no refund of the global one, and the wait of the bucket that refused |
| `RateLimiter.LevelInRange` | rust_engine/src/rate_limiter.rs:39-44 | a refill keeps the tokens between zero and the capacity and adds at most rate times time |
| `RateLimiter.WaitIsExact` | rust_engine/src/rate_limiter.rs:58-65 | without another consumer the next request passes one bucket if and only if its reported wait has elapsed |
| `RateLimiter.RetryPassesExactly` | rust_engine/src/rate_limiter.rs:110-136 | with no other traffic a refused request passes later if and only if the reported wait has elapsed and the other bucket has a token by then |
| `RateLimiter.GlobalTokenIsCharged` | rust_engine/src/rate_limiter.rs:110-117 | a request that finds a global token pays for it even when its category refuses, and the category then loses nothing |
| `RateLimiter.CategoryBound` | rust_engine/src/rate_limiter.rs:110-136 | over any interval of any run each category passes at most its capacity plus rate times length |
| `RateLimiter.GlobalBound` | rust_engine/src/rate_limiter.rs:110-136 | and all categories together obey the global bucket |
| `RateLimiter.ClosedCategoryPassesNothing` | rust_engine/src/rate_limiter.rs:47-136 | over any run a category without capacity passes nothing, however long it waits |
| `RateLimiter.BoundsFromTheStart` | rust_engine/src/rate_limiter.rs:99-136 | both bounds from the creation of the limiter on, after any earlier traffic |
| `RateLimiter.LimitsInFigures` | rust_engine/src/rate_limiter.rs:99-136 | from creation on, in any interval: capacity plus capacity a minute for each category, capacity plus a tenth of it a minute for all together |
| `OrderAmounts.AmountsOnGrid` | rust_engine/src/signing.rs:583-616 | both raw amounts lie on the decimal grids of their side and order type |
| `OrderAmounts.AmountsMeetRules` | rust_engine/src/signing.rs:583-616 | in raw units: shares are a multiple of 10^4 for every sell and limit order and of 10^(6 - decimals) for a market buy, dollars the reverse; the shares are the largest such multiple whose cost fits the size, the dollars a nearest one |
| `OrderAmounts.SharesAreTheLargestAffordable` | rust_engine/src/signing.rs:601-609 | a number of share steps is affordable if and only if it is at most the computed one |
| `OrderAmounts.UsdWithinHalfAStep` | rust_engine/src/signing.rs:603-611 | dollars are within half a grid step of shares times price |
| `OrderAmounts.BuyNeverExceedsSize` | rust_engine/src/signing.rs:583-616 | a buy never spends more than a size on the dollar grid |
| `Reconciliation.ExtractPositionData` | rust_engine/src/lib.rs:1191-1206 | every leg of every open position is listed exactly once |
| `Reconciliation.ComparePositions` | rust_engine/src/reconciliation.rs:130-243 | the report computed by the loops, for some hash orders |
| `Reconciliation.ApplyReconciliation` | rust_engine/src/lib.rs:1259-1393 | the effect of a report on both books: corrected shares, ledger adjustments, dropped phantoms |
| `ReconciliationFixpoint.CountsAddUp` | rust_engine/src/reconciliation.rs:130-243 | every internal market is checked once, and checked = matched + mismatched + missing on the venue |
| `ReconciliationFixpoint.ReportIsExact` | rust_engine/src/reconciliation.rs:91-243 | a discrepancy is reported if and only if some market calls for it; the run passes if and only if none is critical |
| `ReportMeaning.ReportMeans` | rust_engine/src/reconciliation.rs:91-243 | stated on rows and venue alone: for each of the three kinds, exactly when it is reported, of which market and position, with which figures and severity; an untracked market if and only if its venue sizes exceed 0.01, no row names it, and no row's token was found under it or its first asset |
| `ReportMeaning.QuoteMeans` | rust_engine/src/lib.rs:1265-1290 | an adjustment is booked at the first average price and asset the venue lists for the market, at zero when there is none |
| `ReconciliationFixpoint.GroupIsHeld` | rust_engine/src/reconciliation.rs:146-153 | whatever the extraction order, a group holds what the open positions hold in that market and is named after one of them |
| `ReconciliationFixpoint.RolledBackExactly` | rust_engine/src/lib.rs:1340-1377 | a position is removed if and only if it has no recorded fill and one market reported under its name is absent from the venue |
| `ReconciliationFixpoint.SecondMismatchExactly` | rust_engine/src/lib.rs:1276-1316 | an applied mismatch shows again if and only if the legs of other surviving positions in that market sum to the tolerance |
| `ReconciliationFixpoint.EveryMarketAfterAPass` | rust_engine/src/lib.rs:1259-1393 | for every market, mismatched at first or not: the next comparison finds it different if and only if the surviving positions hold it and what they then hold is off the venue by the tolerance |
| `ReconciliationFixpoint.OnePassSettles` | rust_engine/src/reconciliation.rs:130-243 | when each market belongs to one open position, no later comparison against the same venue reports a quantity mismatch, token fallbacks included |
| `ReconciliationFixpoint.FallbackMovesNoMoney` | rust_engine/src/lib.rs:1285-1313 | a mismatch found through the token id moves shares but neither cash, deployed capital nor fees |
| `ReconciliationFixpoint.AdjustmentAgreesExactly` | rust_engine/src/lib.rs:1276-1313 | a mismatch keeps the two books in agreement if and only if it is at most 0.001 shares or booked at price zero |
| `ReconciliationFixpoint.AdjustmentMovesCash` | rust_engine/src/lib.rs:1285-1313 | a booked one moves the ledger's cash by its value against the manager's, with the clamp on deployed capital, and no capital in the manager |
| `CircuitBreaker.CircuitBreaker.Check` | rust_engine/src/circuit_breaker.rs:135-181 | the new state and the reason reported, in the order drawdown, errors, silence |
| `CircuitBreaker.CircuitBreaker.RecordError` | rust_engine/src/circuit_breaker.rs:184-187 | the time is appended, then expired ones leave from the front |
| `CircuitBreaker.CircuitBreaker.RecordApiSuccess` | rust_engine/src/circuit_breaker.rs:190-194 | the clock is reset and the errors forgotten |
| `CircuitBreaker.CircuitBreaker.RaiseAlarm` | rust_engine/src/circuit_breaker.rs:215-291 | gas and revert alarms trip an enabled untripped breaker, and only that |
| `CircuitBreaker.CircuitBreaker.RecordGeoblockProbeSuccess` | rust_engine/src/circuit_breaker.rs:235-262 | the streak, and the recovery when it reaches the threshold |
| `CircuitBreaker.CircuitBreaker.RecordGeoblockProbeFailure` | rust_engine/src/circuit_breaker.rs:267-269 | the streak starts over |
| `CircuitBreaker.DequeMatchesHistory` | rust_engine/src/circuit_breaker.rs:184-317 | the deque of errors agrees with the whole history from every later cutoff on |
| `CircuitBreaker.CheckDecidesOnHistory` | rust_engine/src/circuit_breaker.rs:135-181 | after any history in time order, an untripped check decides on the highest value checked while untripped, the errors since the last success inside the window, and the last success |
| `CircuitBreaker.CheckTripsExactly` | rust_engine/src/circuit_breaker.rs:135-181 | with H the highest value checked, it trips on drawdown if and only if H > 0 and the value is at most (1 - limit) H, and reports the fraction which times H is H less the value; else on as many errors as allowed in the window; else on a silence as long as the limit; else not |
| `CircuitBreaker.AlarmTripsExactly` | rust_engine/src/circuit_breaker.rs:215-291 | an alarm changes a breaker if and only if it is enabled and untripped |
| `CircuitBreaker.GeoblockIsAPrefix` | rust_engine/src/circuit_breaker.rs:235-262 | a trip is a geoblock if and only if its message starts with that word |
| `CircuitBreaker.OtherTripsArePermanent` | rust_engine/src/circuit_breaker.rs:235-291 | a trip that is not a geoblock keeps its reason and time for ever |
| `CircuitBreaker.StretchIsQuiet` | rust_engine/src/circuit_breaker.rs:235-269 | in the stretch that counts, every event kept the geoblock and no probe failed |
| `CircuitBreaker.GeoblockStandsExactly` | rust_engine/src/circuit_breaker.rs:235-291 | a geoblock stands through a whole run, reason unchanged, if and only if every successful probe in it leaves the streak short of the threshold |
| `CircuitBreaker.RecoveryIsExact` | rust_engine/src/circuit_breaker.rs:235-262 | a geoblock clears if and only if the successes since the trip or the last failure reach the threshold |
| `CircuitBreaker.RevertRateTracker.Record` | rust_engine/src/circuit_breaker.rs:359-364 | the oldest outcome leaves a full window, the new one is appended |
| `CircuitBreaker.RevertRateTracker.TripSignal` | rust_engine/src/circuit_breaker.rs:367-380 | the counting loop signals if and only if there are enough outcomes and the share of reverts reaches the threshold |
| `CircuitBreaker.RevertsAreCounted` | rust_engine/src/circuit_breaker.rs:367-380 | the count it reports is the number of reverted outcomes in the window |
| `CircuitBreaker.WindowIsRecentHistory` | rust_engine/src/circuit_breaker.rs:359-364 | the window is the latest outcomes, as many as its size and never fewer than one |

## Left out

- Floating-point rounding, NaN and infinity: amounts are exact reals, so the tests that guard against NaN are not modelled, and the square-root convergence test is compared in squares.
- Saturating and truncating integer widths: counters, streaks and window counts are unbounded naturals.
- Journal entry ids, timestamps, descriptions and the flush cursor: they carry no amount.
- Order book sides as trees: a side is a finite map walked in ascending price order; the walk, not the tree, is modelled.
- Trade keys as strings: they are constructors of a datatype, so two different trades never collide.
- Trigger strings of trips: a reason is a datatype; only the geoblock prefix is a string, because recovery tests it.
- Constraint ids are cut at 32 characters, while the program cuts at 32 bytes; the two agree on ASCII ids.
- Threads, locks and condition variables: each locked method is one atomic step, and each rate limiter check sees one clock reading.
- Network, files, database, dashboard, notifications and signing: submission and remote answers appear only as the events and arguments they produce.
- `reset_cash_to` (`rust_engine/src/accounting.rs:161`) also replaces the fee rate; only its effect on cash is a step of the ledger runs.
- Resolutions that close positions without booking the ledger (`rust_engine/src/lib.rs:1134-1151`): the two-book theorem covers the engine steps that drive both books.
- Reconciliation adjustments are not steps of the two-book run theorem; a single one keeps the books in agreement exactly when `AdjustmentAgreesExactly` says so.
- BookRuns.BooksAgreeAlongEveryRun: exits are steps when they are first exits that satisfy `CleanExit`; a batch that follows a partial exit, closes the position and oversells as well is covered by `ExitMovesGaps` only, since its two gaps could cancel.
- Order ids are taken to be fresh when an order is submitted.
- Removal of old orders from the tracked map: persistence of confirmed fills is stated until then.
- Changes of the trade size in the book mirror: closeness of the cached price is stated at one trade size.
- `set_peak` of the breaker: restoring a saved peak is not an event of the breaker histories.
- Position metadata, categories, postponement, proactive exits and persistence: they do not move capital.
- Latency tracking, book age, and the opportunity fields that only displays use (`n_scenarios`, `capital_efficiency`, `collateral_per_unit`).
- Synthetic positions of negative-risk markets in reconciliation: detection of a pattern, without effect on the books.
- BuildScenarios: the mask loop of the program is limited by the machine word; here any number of markets is enumerated.
