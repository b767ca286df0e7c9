# Verification of the backfill oracle

A Dafny model of the order-fulfilment protocol of the backfill oracle, with proofs about every run of it.
Users create orders in an on-chain program. A worker outside the chain learns of an order from the program's
event logs or from a one-second poll of the accounts, prices it from two sources, and sends a fulfilment
that the program accepts from the registered enclave signer only.

The project follows the program's parts:

- `MachineIntegers`, `Wrappers`, `Addresses`: bounded integers, options and results, markets and derived
  addresses.
- `BackfillProgram`, `ProgramHistory`, `ProgramTheorems`, `ProgramAcceptance`: the four on-chain instructions with their account
  constraints, as methods of a class and as the function they are proved against, what the ledger holds after
  any log of executed transactions, and exactly when each instruction is accepted on such a ledger.
- `TimestampCache`, `CacheRefinement`, `CacheRuns`: the single-flight cache as interleaved sections of `get`
  and `set`, its refinement of an atomic register per timestamp, and its whole runs.
- `Coinbase`, `Pricing`, `PythScaling`, `Pyth`: the ticker loop with its expiring accumulators, the
  two-source average, fixed-point scaling, and the loop that stores fetched prices.
- `WorkerClaims`, `WorkerSteps`: how the two loops claim and release orders in `active_orders`, as methods, and
  that these make the steps of the composed protocol.
- `FulfilmentSystem`, `SystemInvariants`, `SystemTheorems`, `PriceTheorems`, `Progress`, `Endings`, `Outcomes`,
  `Sources`, `StaleEvents`: all of this composed into one state machine, its inductive invariant, and the results about
  its runs.
- `ByteFields`, `OrderLayout`, `Base64`, `EventLogs`: the order account's bytes and the open-order query, the
  way from log lines to events, and the reconnecting loop.

An action of `FulfilmentSystem` is what the worker runs between two awaits, or one thing that the environment
does: others commit transactions, the clock advances, events are lost, repeated or delayed, polls answer with
old accounts, a Pyth response refreshes the caches, a fetch answers or fails, a sent transaction lands late or
never, also after it was reported as failed, and also after the worker has panicked, which does not stop the
chain. `SystemInvariants.Inv` holds in every reachable state (`SystemInvariants.Reachable`); the results below
that ask for `Inv` are therefore about every reachable state.

## Hypotheses

- No two of the addresses that are derived are the same: those of the program, of the three markets, and of the
  oracles of the authorities that occur, which are any finite set. No oracle's is the default key, and none has
  bump zero (`AddressBook.Valid`; `SeedsKeepAddressesApart` obtains it from a derivation without collisions on
  those seeds). A derived address signs nothing.
- Slots and timestamps never go back, and timestamps are not negative (`ValidLog`, `Enabled` for `Advance`).
- A transaction reported as confirmed was executed (`Enabled` for `Report`). Nobody else signs with the
  worker's enclave key (`MayCommit`).
- Requested-price events come from creations; those of transactions that failed afterwards are included
  (`Commit` and `RollBack`).
- In the expiring cache library, `set` renews the expiry and `get` hides an expired entry (`TtlGet`). One tick
  is handled at one instant.
- Atomic map operations and a correct read/write lock are taken as given.

These hypotheses can be met: `AddressHypothesesCanBeMet` gives a derivation without collisions for every
authority, `HypothesesCanBeMet` a deployment and an order for which all the others hold, and `MispricingHappens`
a complete run of it, from deployment to a closed order.

## Where code and documentation disagree

- The comment at switchboard-function/src/cache.rs:18 says that a value in the map resolves once. `set` replaces
  the entry: for every timestamp and any two values there is a run in which two gets return the one and the
  other (`ResolvesTwice`). What holds is that each cell is written once and each timestamp has at most one cell
  born empty; `GetsAgreeExactlyWhen` says exactly when two gets agree.
- README.md:47 promises prices with nine decimals. For the exponents 0 to 9 the scaling divides where it would
  have to multiply (`ScalingMisses` gives an input); `ScaledExactlyWhen` gives the exact condition.
- The worker does not look at the error field of a log notification
  (switchboard-function/src/worker.rs:451-480), so it also acts on creations that were rolled back. A closing
  price is then for the time that the rolled-back event names: `RolledBackEventsMisprice` gives such a run for
  every order, market, price and pair of times. `ClosingPriceIsAQuote` has the exact condition: the price is for
  the order's own opening time if and only if the claim was polled or its event names that time.
- The five-second cap of the reconnect delay (switchboard-function/src/worker.rs:496) is never reached, since the
  loop gives up at the third failure in a row.

## Model

| member | source | states |
|---|---|---|
| SystemTheorems.ClosedOnceForGood | switchboard-function/src/worker.rs:334-389 | over every interleaving of creations, lost or repeated events, stale polls, retries and sends that land but report failure, an order is fulfilled at most once, and a closed account is the same in every later state |
| SystemTheorems.ActiveOrdersPartition | switchboard-function/src/worker.rs:507-522 | `active_orders` is exactly the disjoint union of pending or in-flight, failed but unreleased, and confirmed orders; no two attempts in the two loops are for one order |
| SystemTheorems.NoOrderIsLost | switchboard-function/src/worker.rs:348-384 | an order open on chain is active exactly when one of the loops has an attempt at it |
| SystemTheorems.NextPollRetries | switchboard-function/src/worker.rs:348-360 | the next poll that lists an open order outside the set starts an attempt with the order's own market and opening time, and unwrapping the market code never panics |
| SystemTheorems.PanicsExactlyWhen | switchboard-function/src/worker.rs:541-542 | in either build a step of the worker panics if and only if it is a price sum beyond 64 bits, a tick with which an accumulator's total or count overflows (debug) or its count wraps to zero (release), or a Pyth price with an unusable text, exponent or time; claims, polls, sends and releases never do |
| SystemTheorems.BatchStaysClaimed | switchboard-function/src/worker.rs:344-363 | whatever runs in between, a batch keeps its orders in order from its claim to its end |
| SystemTheorems.BatchNetEffect | switchboard-function/src/worker.rs:344-384 | the net effect of a batch of any size and outcomes: keys distinct and new, result i belongs to key i, exactly the keys whose fulfilment was reported as confirmed in between are left and confirmed, all other keys are as the event route left them |
| Outcomes.EventNetEffect | switchboard-function/src/worker.rs:507-522 | an event that claims its order leaves it in the set, and confirmed, if and only if a fulfilment was reported as confirmed before the event was done |
| Outcomes.ReportDecides | switchboard-function/src/worker.rs:590-597 | after a report and the end of its loop the order is in the set and confirmed if and only if the report said so; otherwise it is in neither |
| Outcomes.AttemptOutcome | switchboard-function/src/worker.rs:366-383 | the same from any moment at which the attempt is not settled, whatever runs in between |
| Outcomes.OnlyReportsSucceed | switchboard-function/src/worker.rs:511-519 | an attempt of either loop is successful exactly since a report confirmed it, and a settled one stays as it is |
| PriceTheorems.ClosingPriceIsAQuote | switchboard-function/src/worker.rs:551-565 | while the worker's key is the registered signer, a closed order holds a price that `get_price` returned for its own market; it is for its own opening time if and only if the claim was polled or its event names that time, as those of executed transactions do |
| PriceTheorems.QuoteMeaning | switchboard-function/src/worker.rs:529-548 | what a quote is: the Pyth value, which is the latest one set for that second or else the fetched one, alone exactly when the product has no ticks of that second or the last is over an hour old, otherwise averaged with the machine mean of these ticks; while their sums fit it is one floor of the exact average, between the least and the greatest of them |
| Sources.QuotedPriceWasBrought | switchboard-function/src/providers/pyth.rs:107-132 | the Pyth part of every quote of every run is the scaled price of a quote that an earlier response gave for that market and second, or of the answer to an earlier fetch for it |
| Sources.FetchStores | switchboard-function/src/providers/pyth.rs:37-56 | an answered fetch returns the scaled price of its quote, which the cell then holds; a refused one returns the error and stores nothing |
| Sources.RefreshStores | switchboard-function/src/providers/pyth.rs:110-121 | after a response each second that it quotes for a market holds the scaled price of the last such quote |
| Sources.FeedIsWhatWasHeard | switchboard-function/src/providers/coinbase.rs:109-143 | as long as the worker runs, the feed has handled exactly the messages that were heard, in order |
| Sources.EveryCreationIsTold | programs/backfill-oracle/src/lib.rs:118-124 | no creation goes untold: each one has its event, with its own market, key, time and slot |
| PriceTheorems.WorkerFulfilmentAccepted | switchboard-function/src/worker.rs:571-584 | exactly when the worker's transaction is accepted: order open, its own market named, worker's oracle and key current; the worker's addresses never fail a check |
| PriceTheorems.CreationDecides | programs/backfill-oracle/src/lib.rs:110-116 | an order's market and opening time are those of its creation, in every reachable state |
| StaleEvents.RolledBackEventsMisprice | switchboard-function/src/worker.rs:451-470 | for every order, market, price and two times there is a run in which an event of a rolled-back creation makes the worker close the order with a quote for the wrong time |
| StaleEvents.CreateTwice | programs/backfill-oracle/src/lib.rs:118-124 | one key can be named by a rolled-back creation at one time and created at a later one |
| StaleEvents.MispricingHappens | switchboard-function/src/worker.rs:451-470 | such a run exists, under all the hypotheses at once |
| Progress.SomeStepHelps | switchboard-function/src/worker.rs:551-606 | while an attempt is not settled some step that moves an attempt or a read is enabled: no deadlock, whoever holds the cache locks |
| Progress.HelpingStep | switchboard-function/src/worker.rs:551-606 | every such step makes the work ahead smaller, or ends in a panic |
| Progress.WorkNeverGrows | switchboard-function/src/worker.rs:348-384 | only claiming an order adds work |
| Progress.AttemptsEnd | switchboard-function/src/worker.rs:366-383 | once a loop's own attempts are settled its end is enabled, whatever the other loop does, and each of them ends in an order that is closed on chain or released |
| Endings.EveryScheduleEnds | switchboard-function/src/worker.rs:348-384 | under every schedule, new claims included, the attempts are moved at most as often as the work ahead says and eight times more for each order claimed on the way |
| Endings.EveryAttemptIsBounded | switchboard-function/src/worker.rs:511-519 | until its loop ends it, an attempt of either loop and its read are moved at most eight times, whatever else is claimed in the meantime |
| Endings.AttemptsSettle | switchboard-function/src/worker.rs:551-606 | from every reachable state a path no longer than the work ahead settles all attempts, or ends in a panic |
| Endings.EveryAttemptCanEnd | switchboard-function/src/worker.rs:348-384 | from every reachable state every attempt can end without new claims: its order is then closed on chain or no longer active, or the worker has panicked |
| Progress.OwnersReachable | switchboard-function/src/cache.rs:42-53 | every unreturned read belongs to a live attempt, in every reachable state |
| Progress.SomeSection | switchboard-function/src/cache.rs:45-53 | a read that has not returned can move, or the holder of its cell's lock can |
| SystemInvariants.InvStep | switchboard-function/src/worker.rs:165-199 | every action of every interleaving keeps the invariant of the composed protocol |
| SystemInvariants.Reachable | switchboard-function/src/worker.rs:165-199 | the invariant holds in every state of every run |
| SystemInvariants.ListedIsCreated | switchboard-function/src/worker.rs:391-427 | what a poll lists, however stale, is an order with its creation's market code and opening time |
| SystemInvariants.EmissionStep | programs/backfill-oracle/src/lib.rs:118-124 | every event of a committed transaction tells of a creation in the log |
| SystemInvariants.OwnWorkStep | switchboard-function/src/worker.rs:567-598 | every logged fulfilment signed by the worker's key is a transaction that the worker built and that was executed |
| SystemInvariants.KeysStep | switchboard-function/src/worker.rs:349-384 | every action keeps the set equal to event order, batch orders and confirmed orders, all disjoint, confirmed ones closed |
| WorkerClaims.ClaimsExactlyTheNew | switchboard-function/src/worker.rs:348-360 | a poll claims exactly the listed orders that are not active, each once, with its own entry's market and time |
| WorkerClaims.OracleWorker.ClaimOpenOrders | switchboard-function/src/worker.rs:344-360 | the claiming loop: futures and keys run in parallel, the set grows by exactly the claimed orders, a panic exactly on an unknown code |
| WorkerClaims.OracleWorker.ProcessResults | switchboard-function/src/worker.rs:366-384 | the result loop removes exactly the keys at the positions of the failed results |
| WorkerSteps.DeliverStep | switchboard-function/src/worker.rs:507-511 | the event route's claim makes exactly the protocol's change of `active_orders`, and starts an attempt exactly when it claimed |
| WorkerSteps.FinishEventStep | switchboard-function/src/worker.rs:511-521 | so does what follows the event's attempt |
| WorkerSteps.PollStep | switchboard-function/src/worker.rs:344-360 | in every reachable state the claiming loop starts exactly the protocol's batch and does not panic |
| WorkerSteps.FinishBatchStep | switchboard-function/src/worker.rs:366-384 | the result loop releases by position exactly what the protocol's end of the batch releases |
| WorkerClaims.ResultsMatchKeys | switchboard-function/src/worker.rs:363-378 | releasing by position is releasing the failed attempts |
| BackfillProgram.BackfillOracleProgram.Initialize | programs/backfill-oracle/src/lib.rs:64-90 | either the four accounts exist as specified or nothing changed |
| BackfillProgram.BackfillOracleProgram.RegisterOracle | programs/backfill-oracle/src/lib.rs:93-107 | a first registration sets the program's oracle and the oracle's data, every registration the signer; or nothing changed |
| BackfillProgram.BackfillOracleProgram.CreateOrder | programs/backfill-oracle/src/lib.rs:110-127 | a new open order and its event, or nothing changed |
| BackfillProgram.BackfillOracleProgram.FulfillOrder | programs/backfill-oracle/src/lib.rs:130-151 | the order closed with price and clock and its event, or nothing changed, also on an overflow of the latency |
| ProgramHistory.LedgerMatchesLog | programs/backfill-oracle/src/lib.rs:205-338 | after any log of executed transactions every account is what the log says: oracle, signers, markets, orders |
| ProgramTheorems.OrdersAreTheCreatedOnes | programs/backfill-oracle/src/lib.rs:286-287 | order accounts are exactly the created orders, and one is closed exactly when the log fulfils it |
| ProgramTheorems.CreatedOnceFulfilledOnce | programs/backfill-oracle/src/lib.rs:318-323 | an order is created and fulfilled at most once in a run and holds that creation's and that fulfilment's data |
| ProgramTheorems.ClosedForever | programs/backfill-oracle/src/lib.rs:130-134 | a closed order account is never changed by any later transaction |
| ProgramTheorems.FulfilmentsAreAuthorised | programs/backfill-oracle/src/lib.rs:325-337 | every accepted fulfilment is signed by the signer last registered for the oracle current at that step and names the market of the creation |
| ProgramTheorems.OrdersNameAMarket | programs/backfill-oracle/src/lib.rs:22-56 | every reachable order has one of the three codes, that market's derived address and its creation's market and time |
| ProgramTheorems.OracleIsTheLatestFirstRegistered | programs/backfill-oracle/src/lib.rs:93-107 | the program names the oracle most recently first-registered, and each oracle account its last signer |
| ProgramTheorems.OneAuthorityPerOracle | programs/backfill-oracle/src/lib.rs:250-276 | all registrations of an oracle account, which set its signer, are signed by one and the same authority |
| ProgramTheorems.CurrentOracleMeaning | programs/backfill-oracle/src/lib.rs:94-95 | the current oracle is that of the last first registration; signer updates do not move it |
| ProgramTheorems.LastSignerMeaning | programs/backfill-oracle/src/lib.rs:104 | the signer of an oracle is that of its last registration |
| ProgramTheorems.LatencyAlwaysFits | programs/backfill-oracle/src/lib.rs:143-144 | the checked latency subtractions never fail while the clock does not go back |
| ProgramTheorems.FulfilmentAccepted | programs/backfill-oracle/src/lib.rs:315-338 | exactly when a fulfilment with the program's own derived accounts is accepted, on any reachable ledger |
| ProgramAcceptance.InitializeAccepted | programs/backfill-oracle/src/lib.rs:64-90 | an initialization is accepted if and only if it names the derived addresses and is the first |
| ProgramAcceptance.InitializedOnce | programs/backfill-oracle/src/lib.rs:64-90 | there is one initialization in a run; the program account keeps its authority and the three market codes |
| ProgramAcceptance.MarketsAreAsCreated | programs/backfill-oracle/src/lib.rs:70-87 | every market account has its code and address, nine decimals and a staleness threshold of thirty |
| ProgramAcceptance.RegistrationAccepted | programs/backfill-oracle/src/lib.rs:250-276 | a registration, the first of an oracle account or a later one, is accepted if and only if the program is initialized, the oracle is the authority's, and authority and enclave signer sign |
| ProgramAcceptance.AfterRegistration | programs/backfill-oracle/src/lib.rs:93-107 | it leaves the new signer in the oracle account; the program moves to the oracle exactly when it is new, and nothing else changes |
| ProgramAcceptance.OraclesAreAsRegistered | programs/backfill-oracle/src/lib.rs:97-101 | every oracle account holds the authority and the clock of its first registration |
| ProgramAcceptance.CreationAccepted | programs/backfill-oracle/src/lib.rs:279-302 | a creation is accepted if and only if it names the derived program and market, an oracle is registered, and the order is a new account that signs |
| ProgramAcceptance.AfterCreation | programs/backfill-oracle/src/lib.rs:110-127 | it leaves one open order with nothing of a closing in it, and requests its price from the current oracle at its own opening time and slot |
| ProgramAcceptance.OpenOrdersAreBlank | programs/backfill-oracle/src/lib.rs:188-203 | the reserved bytes of an order are zero, and an open order holds no closing time, slot or price |
| ProgramAcceptance.FulfilmentTells | programs/backfill-oracle/src/lib.rs:137-148 | the event of an accepted fulfilment names its order's creation, the seconds and slots since then, its own price, and nine decimals |
| ProgramAcceptance.ClosedOrderIsRefused | programs/backfill-oracle/src/lib.rs:318-323 | a fulfilment of a closed order is refused for that reason |
| ProgramAcceptance.CreationNeedsAnOracle | programs/backfill-oracle/src/lib.rs:288-293 | before any registration a creation is refused for that reason |
| Addresses.MarketCodesRoundTrip | programs/backfill-oracle/src/lib.rs:22-56 | codes and markets are in bijection |
| Addresses.SeedsKeepAddressesApart | programs/backfill-oracle/src/lib.rs:205-276 | a derivation without collisions on the program's own seeds keeps program, market and oracle addresses distinct, although only concatenated seeds count |
| Addresses.AddressHypothesesCanBeMet | programs/backfill-oracle/src/lib.rs:205-276 | there is such a derivation, whoever the authority is |
| Addresses.TableMeetsProgramChecks | switchboard-function/src/worker.rs:98-122 | the worker's market table has every market, with the address the program checks |
| TimestampCache.InvStep | switchboard-function/src/cache.rs:42-71 | every section of every interleaving keeps the cache invariant |
| TimestampCache.CellsAreWriteOnce | switchboard-function/src/cache.rs:56-66 | a cell goes from empty to full once, by a successful fetch, and then stays; failures are not stored |
| TimestampCache.SingleFlight | switchboard-function/src/cache.rs:49-56 | at most one fetch per timestamp is in flight |
| TimestampCache.Cache.Set | switchboard-function/src/cache.rs:33-39 | `set` swaps in a new full cell and leaves cells and reads alone |
| TimestampCache.Cache.TakeCell | switchboard-function/src/cache.rs:43 | a `get` takes the entry's cell, born empty when there was none |
| TimestampCache.Cache.ReadCheck | switchboard-function/src/cache.rs:45-47 | the read check returns the cell's value or misses |
| TimestampCache.Cache.LockWrite | switchboard-function/src/cache.rs:49 | the write lock is taken when free |
| TimestampCache.Cache.Recheck | switchboard-function/src/cache.rs:51-55 | under the lock the cell is read again: return, or fetch |
| TimestampCache.Cache.FetchReturns | switchboard-function/src/cache.rs:56-67 | a fetched value is stored, a failure is not, and the lock is freed |
| TimestampCache.Cache.Get | switchboard-function/src/cache.rs:42-71 | an uninterrupted `get` returns the cached value, or else what the fetch gives, which then stays |
| CacheRefinement.Refines | switchboard-function/src/cache.rs:33-71 | every section is a step, or no step, of an atomic register per timestamp whose initial value is fixed by the first successful fetch |
| CacheRefinement.RunsRefine | switchboard-function/src/cache.rs:33-71 | every run, whatever is interleaved, is a run of these registers from the state in which nothing is fixed, written or read |
| CacheRefinement.SetWrites | switchboard-function/src/cache.rs:36 | `set` is the register's write |
| CacheRefinement.TakeReads | switchboard-function/src/cache.rs:43 | taking the cell is the moment at which a `get` reads the register |
| CacheRefinement.ReturnAnswers | switchboard-function/src/cache.rs:45-69 | a `get` that returns answers its read as the register allows |
| CacheRuns.AtMostOneFetchSucceeds | switchboard-function/src/cache.rs:43-67 | in a whole run at most one fetch of a timestamp succeeds, also with interleaved `set` calls |
| CacheRuns.WhatGetsReturn | switchboard-function/src/cache.rs:33-71 | a successful get returns exactly the latest `set` of the moment it took its cell, or else the one fetched value; a get fails only without such a `set` |
| CacheRuns.GetsAgreeExactlyWhen | switchboard-function/src/cache.rs:18 | exactly when two successful gets return the same |
| CacheRuns.ResolvesTwice | switchboard-function/src/cache.rs:18 | for every timestamp and any two values there is a run in which one get returns the one and another the other |
| Coinbase.PublishedMean | switchboard-function/src/providers/coinbase.rs:98-141 | after any stream an entry is live exactly for an hour after the product's last tick of that second, and is the machine mean of the ticks since the accumulator last expired |
| Coinbase.EachCacheHasItsProduct | switchboard-function/src/providers/coinbase.rs:98-138 | each of the three caches holds the means of exactly the ticks that carry its own product's name |
| Coinbase.TickMeaning | switchboard-function/src/providers/coinbase.rs:111-124 | which messages are ticks of a market and second, with the product names written out |
| Coinbase.PlayInOrder | switchboard-function/src/providers/coinbase.rs:109-143 | a stream is handled message by message |
| Coinbase.SegmentMeaning | switchboard-function/src/providers/coinbase.rs:97-106 | the ticks since the last expiry: the accumulator lives for sixty seconds after each tick |
| Coinbase.TotalOfBoth | switchboard-function/src/providers/coinbase.rs:128 | totals add up over the parts of a stream of ticks |
| Coinbase.LivePriceIsTheFloorMean | switchboard-function/src/providers/coinbase.rs:98-132 | while the sums fit, as in a debug build always, a live entry is exactly the floor mean of the filtered ticks since the last expiry, and of all of them when no gap exceeds a minute |
| Coinbase.MachineArithmeticIsExact | switchboard-function/src/providers/coinbase.rs:127-136 | with bounded prices the stream never panics and every machine total and count is exact |
| Coinbase.PanicsExactlyWhen | switchboard-function/src/providers/coinbase.rs:127-132 | a message makes the loop panic if and only if with it the total or number of ticks since the last expiry overflows (debug build) or their number wraps to zero (release build) |
| Coinbase.CoinbaseProvider.Watch | switchboard-function/src/providers/coinbase.rs:97-144 | the receive loop with its three stores publishes what the stream specification says, or ends in its panic |
| Coinbase.CoinbaseProvider.Record | switchboard-function/src/providers/coinbase.rs:127-138 | one price updates accumulator and cache as specified |
| Pricing.TwoFloorsAreOne | switchboard-function/src/worker.rs:541-542 | floor of the average over a floored mean is one floor of the exact average |
| Pricing.CombinedPrice | switchboard-function/src/worker.rs:541-545 | the sum overflows exactly when it does not fit 64 bits; otherwise the price is one floor and lies between the least and greatest source |
| Pricing.PublishedPriceCombined | switchboard-function/src/worker.rs:537-545 | the same over whatever the Coinbase feed publishes at any instant of any stream |
| PythScaling.ScaledExactlyWhen | switchboard-function/src/providers/pyth.rs:26-35 | exactly when scaling yields the nine-decimal price, for every price, exponent and build |
| PythScaling.ScalingMisses | switchboard-function/src/providers/pyth.rs:29-34 | a price of 1 with exponent 0 is scaled to 0, although its nine-decimal price is a billion |
| PythScaling.NineDecimalsAreExact | README.md:47 | from exponent -9 on the nine-decimal number is the quoted real number |
| PythScaling.Computed | switchboard-function/src/providers/pyth.rs:27-34 | what the machine computes for every exponent, including the huge powers that a negative difference causes |
| PythScaling.RescalingIsNeutral | switchboard-function/src/providers/pyth.rs:29-30 | (p, e) and (10p, e-1) scale alike |
| PythScaling.OrderIsKept | switchboard-function/src/providers/pyth.rs:29-30 | quotes with different exponents keep their order |
| Pyth.PythProvider.Fetch | switchboard-function/src/providers/pyth.rs:107-132 | the loop makes on each cache exactly the `set` calls of its own feed, in order, or panics exactly on a price it cannot handle |
| Pyth.LastQuoteWins | switchboard-function/src/providers/pyth.rs:110-121 | each quoted second holds the last quote of the response and no waiting read is disturbed |
| Pyth.ScalingPanicsExactlyWhen | switchboard-function/src/providers/pyth.rs:26-35 | exactly when the scaling panics, in either build |
| Pyth.FetchMeaning | switchboard-function/src/providers/pyth.rs:37-56 | what fetching one price gives: an error for a refused request, for a quote its scaled price, or a panic exactly when it cannot be scaled |
| Pyth.OneQuote | switchboard-function/src/providers/pyth.rs:110-129 | one quote makes one call with its own second and its scaled price, on the cache of its own feed |
| Pyth.FeedIds | switchboard-function/src/providers/pyth.rs:5-9 | which feed is whose |
| Pyth.QuotesInOrder | switchboard-function/src/providers/pyth.rs:110-129 | the calls of a response are those of its quotes, in order |
| PythScaling.ScalingMeaning | switchboard-function/src/providers/pyth.rs:26-35 | every scaled price is the nine decimals below exponent 0, the quotient up to 9, and zero below -9 |
| OrderLayout.LayoutRoundTrips | programs/backfill-oracle/src/lib.rs:188-203 | every order account reads back from its bytes, also with bytes after them |
| OrderLayout.LayoutIsCanonical | programs/backfill-oracle/src/lib.rs:188-203 | bytes that read as an order start with that order's serialization |
| OrderLayout.FilterIsTheOpenFlag | switchboard-function/src/worker.rs:394-407 | on accounts that decode, the nine-byte prefix filter is exactly the open flag |
| OrderLayout.FetchOpenOrderAccounts | switchboard-function/src/worker.rs:394-426 | filter and decoding loop select exactly the accounts that decode to open orders, in order |
| OrderLayout.OpenOrdersAreFound | switchboard-function/src/worker.rs:420-424 | every account that holds an open order is found, under its key |
| OrderLayout.OpenOrdersAreOpen | switchboard-function/src/worker.rs:420-424 | nothing else is listed: an entry is the key of an account and the open order that its bytes start with |
| OrderLayout.OpenOrdersInOrder | switchboard-function/src/worker.rs:420-424 | the listed orders are those of each account, in order |
| OrderLayout.FieldsOfAnOrder | programs/backfill-oracle/src/lib.rs:188-203 | at which of the 152 bytes each field of an order stands |
| ByteFields.LeDigits | programs/backfill-oracle/src/lib.rs:188-203 | numbers are little-endian |
| Base64.DecodeEncode | switchboard-function/src/worker.rs:454 | every byte string is decoded from its encoding (section 4 of RFC 4648) |
| Base64.EncodeDecode | switchboard-function/src/worker.rs:454-458 | a word decodes only if it is the encoding of its bytes, with canonical padding |
| Base64.SplitIsPositional | switchboard-function/src/worker.rs:454 | the four sextets of a group are the 24 bits of its bytes, most significant first (section 4 of RFC 4648) |
| Base64.Alphabet | switchboard-function/src/worker.rs:454 | the alphabet of table 1 of RFC 4648 |
| Base64.TestVectors | switchboard-function/src/worker.rs:454 | test vectors of section 10 of RFC 4648 |
| EventLogs.JoiningKeepsWords | switchboard-function/src/worker.rs:452-453 | joining a non-empty list of lines with spaces and splitting on spaces gives each line's words in order |
| EventLogs.SplitMeaning | switchboard-function/src/worker.rs:453 | splitting is the inverse of joining: no word contains a space, and joined they are the text again |
| EventLogs.DispatchIsLineByLine | switchboard-function/src/worker.rs:452-482 | from any log lines the dispatched events are those of each line, once each, in log order |
| EventLogs.LoggedLineYieldsItsEvent | programs/backfill-oracle/src/lib.rs:340-361 | a line that the program logs for an event yields exactly that event |
| EventLogs.EventsRoundTrip | switchboard-function/src/worker.rs:463-478 | every event is read back from the word it is logged as |
| EventLogs.WordOfAnEvent | switchboard-function/src/worker.rs:454-478 | a word is taken for an event if and only if it is the word that the event is logged as |
| EventLogs.FieldsOfARequest | programs/backfill-oracle/src/lib.rs:340-347 | at which of its 89 bytes each field of a request stands |
| EventLogs.FieldsOfAFulfilment | programs/backfill-oracle/src/lib.rs:351-361 | at which of its 85 bytes each field of a fulfilment stands |
| EventLogs.DrainStream | switchboard-function/src/worker.rs:451-482 | the loop over a stream returns the events of all lines of all its notifications, once each and in order |
| EventLogs.OneMoreNotification | switchboard-function/src/worker.rs:451-482 | one more notification adds the events of its lines |
| EventLogs.TrailingMeaning | switchboard-function/src/worker.rs:444-495 | the counter is the length of the longest failing streak at the end |
| EventLogs.OneMoreOutcome | switchboard-function/src/worker.rs:444-496 | a failure adds the sleep of its place in the streak, a connection none |
| EventLogs.OneMoreConnection | switchboard-function/src/worker.rs:436-484 | a connection adds the events of all lines received on it |
| EventLogs.Dispatch | switchboard-function/src/worker.rs:452-482 | the word loop returns exactly these events |
| EventLogs.WatchAnchorEvents | switchboard-function/src/worker.rs:430-505 | the counter is the trailing failures, the loop stops exactly at the first third failure in a row, with the sleeps of its history and the events of every line received, in order; the inner abort is dead |
| EventLogs.BackoffDoubles | switchboard-function/src/worker.rs:496 | doubling with a cap is the capped power of two |
| EventLogs.CapIsNeverReached | switchboard-function/src/worker.rs:494-496 | every sleep lasts half a second, one second or two |

## Left out

- RPC, websocket, HTTP and JSON calls, signing and blockhash refresh: external I/O; their outcomes are
  nondeterministic actions.
- Panics on network errors and worker shutdown: they end the run, since all loops are dropped together.
- `to_f64_price` and `to_u64_price`: floating-point parsing; ticks enter the model as optional 64-bit numbers.
- Forks of the chain: an account or confirmation read at the processed commitment is taken to stay.
- Fees, rents and account sizes, and the payer of a transaction: no property rests on them; every transaction
  is taken to have a paying signer.
- Error numbers of the framework: the model tells the errors apart only as far as the constraints differ, and
  checks the accounts of an instruction before its constraints.
- `valid_until_slot`, `verification_slot` and `oracle_staleness_threshold`: stored and never checked.
- `env.rs`, enclave keys, the payer balance, `main.rs`, the scripts and the deployment files: configuration.
- The skip branch of `initialize_oracle_signer`: registration is modelled as always sent.
- TimestampCache.Cache.TakeCell: cells are numbered instead of being heap references, so sharing is modelled by
  equal numbers, because the sections of different reads must be able to interleave.
- The type parameter of the timestamp cache: the model has the 64-bit prices it is used with.
