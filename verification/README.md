# A verified model of the FX wallet

A Dafny 4.11 project that models the money engine of a double-entry foreign-exchange wallet and
proves what its bookkeeping rests on. `dafny verify dfyconfig.toml` checks all of it.

The system keeps integer balances per user and currency, with a seeded *house* account as the
counterparty of every movement. Three flows move money: funding, conversion at the going rate, and
trades on single-use quotes. Each is a database transaction with row locks, an idempotency key, a
journal of two or four legs and an outbox row, inside a per-user lease that may run out. Workers
publish the outbox rows. Users read their wallets through a cache and their history in pages.

## How the model is laid out

- **Decimal arithmetic.** `Decimal40` is 40-digit decimal arithmetic with round-half-even (section
  4.3.1 of IEEE 754-2019), defined by scaling and rounding. `Money` has the engine's money
  functions on it, `ConversionLoops` chains of conversions, `FairPayouts` what a conversion pays
  against the true ratio of two rates and `Spreads` what a quote's spread costs. `Doubles` is
  JavaScript's `Number` on whole values. Rates and amounts are reals and integers; each operation rounds where the
  library does.
- **The books.** `Ledger` says what one operation does to the tables in exact integers (`Book`),
  when it is accepted (`Accepts`) and what running a list of operations one after the other gives
  (`Replay`). `LedgerFacts` proves what every such history keeps, over the sums of `Sums`.
  `MachineMoney` has the arithmetic the flows really do, doubles or big integers, and when it is exact.
- **The engine.** `Engine` runs any number of calls at once, one step per database or lock-service
  round trip, with row locks held to the end of the transaction, inserts that collide, buffered
  writes, aborts and crashes anywhere, and leases that may lapse at any moment. `EngineSafety`
  shows each step keeps the invariant and each commit is `Book`; `EngineTheorems`, `QuoteOrders`,
  `Leases`, `Deadlock` and `WalletCache` draw the consequences over whole runs. `EngineRuns` builds
  runs; with it `Histories` reaches every serial history, `DeadlockRuns` every ring that blocks, and
  `Duplicates` what two calls for one key or one quote come to.
  The price of a conversion may be any positive amount there, so those results do not depend on
  rates.
- **The services one request at a time.** `Database`, `QuoteService` and `WalletService` are
  classes whose methods go through the same branches as the services, in the machine's arithmetic,
  proved against `Ledger`. `Outcomes` says in the tables' own terms what each flow answers and
  leaves, and the methods keep to it. `Results` has their errors and currency codes.
- **Quotes.** `QuoteStore` is the key-value store with a clock: issuing, atomic get-and-delete,
  putting back after a wrong user, expiry, and the get-then-delete fallback.
- **The outbox.** `Outbox` has the table, its statements and one processor as classes;
  `OutboxProtocol` has many workers, crashes and the recovery sweep, `OutboxSends` counts what goes
  to the broker, `OutboxTermination` bounds the work, `OutboxSettles` brings every row to its end and
  `OutboxFinality` says when it stays there.
  `Delivery` runs engine and workers on one database.
- **History.** `Pagination` is the keyset walk over the journals and its cursor.

## Where the code and its own documentation differ

The model follows the code.

- README.md:163 says a conversion rounds to the nearest subunit; the code floors
  (src/wallet/utils/money.ts:36).
- src/wallet/utils/money.ts:22-31 says a user receives the floor of the amount times the rate, never
  more. The product is rounded to 40 digits before the floor, so it can be one more:
  `Money.ConversionCanOverpay` is an input, `Money.ConversionWithinOne` says exactly when. The rate
  there is itself rounded; against the true ratio of the provider's rates no conversion overpays
  (`FairPayouts.PaysWhatIsOwed`), but it can pay one less than a whole amount owed:
  `FairPayouts.ConversionCanUnderpay` is an input, `FairPayouts.UnderpaysExactlyWhen` says when.
- src/fx/quote.service.ts:181-182 calls get-then-delete functionally equivalent to the atomic
  command. Undisturbed it is (`QuoteService.QuoteService.ConsumeQuote`), but with two clients
  `QuoteStore.FallbackRedeemsTwice` redeems one quote twice, `Duplicates.FallbackFillsTwice` has two
  filled orders come of it, and `QuoteStore.FallbackRedeemsLate` redeems one any time after its
  expiry.
- src/wallet/wallet.service.ts:191-194, 399-401 and 533-537 say the lock order avoids deadlocks.
  `DeadlockRuns.DeadlockHappens` reaches one with prices of one rate table;
  `Deadlock.DeadlockIffCurrencyCycle` says exactly which states are deadlocked and
  `DeadlockRuns.RequestsDeadlockIffRing` exactly which requests can get there.
- README.md:134-141 says that a request whose key exists is answered with the previous result. Two
  conversions can both look before either is booked, and then the second gets an error:
  `Duplicates.SecondConversionRefused`; `Duplicates.RecordsIffFresh` says exactly when a call that
  has its rows goes through. There is one journal all the same (`EngineTheorems.SameKeySameJournal`).
- src/common/outbox/outbox.service.ts:91-95 calls FAILED terminal. Both marks are unconditional, so a
  worker that outlasts `staleAfterMs` may overwrite a row another worker has finished:
  `OutboxFinality.FailedIsNotTerminal` is a run in which a FAILED row turns PUBLISHED, after
  `OutboxFinality.TwoOwners` has two workers on it. `OutboxFinality.FinalIffUndisturbed` says exactly
  when a finished row stays as it is, and `OutboxFinality.FinalUnlessSwept` that every row does that
  the sweep never took from a live worker.

## Model

| member | source | states |
|---|---|---|
| `EngineTheorems.Serializable` | src/wallet/wallet.service.ts:161-260 | in every reachable state of the interleaved engine, for any number of fund, convert and trade calls, any aborts and any lapsed leases, the committed balances, journals, outbox rows and orders are those of running the committed operations one at a time in commit order |
| `EngineSafety.CommitIsBook` | src/wallet/wallet.service.ts:588-732 | what a committing transaction read is still what is committed, the operation is one the committed books accept, and everything it wrote in machine arithmetic is what the operation run alone would write, rows created on the way included |
| `EngineSafety.NextKeepsInv` | src/wallet/wallet.service.ts:352-500 | every step of every call keeps: locked rows belong to one live transaction and hold what it read, journal keys in flight are fresh, the books are sound |
| `Histories.SerialHistoriesAreRuns` | src/wallet/wallet.service.ts:137-262 | the converse: every serial history the books accept, of fundings, conversions, trades and rejected orders, whatever the expiries of its quotes, is the log of some run of the engine, which ends idle |
| `Histories.RunsAreSerialHistories` | src/wallet/wallet.service.ts:545-782 | nothing else is reachable, as long as the fallback read none of the log's quotes: a run's log is accepted entry by entry, no call has two entries, and every trade or rejected order has a quote of its own user that no other entry has |
| `Histories.CanBookTrade` | src/wallet/wallet.service.ts:545-732 | from any idle reachable state a new call that redeems a quote from the store can commit the trade whenever the books accept it |
| `EngineTheorems.MoneyConserved` | src/migrations/1748880000000-HouseAccount.ts:59-68 | in every reachable state the house's and all users' balances in a currency add up to 9e15 exactly, and every balance is between 0 and 9e15, below 2^53 |
| `EngineTheorems.MachineNumbersExact` | src/wallet/wallet.service.ts:394-418 | a transaction that has locked and checked its rows computes in doubles exactly what integers give, legs included, and the database accepts every number it writes |
| `MachineMoney.ChecksAreExact` | src/wallet/wallet.service.ts:199-205 | on conserved books the balance and house checks, done in doubles or big integers, fail exactly when the exact balance would go negative, for amounts of any size |
| `MachineMoney.MachineIsExact` | src/wallet/wallet.service.ts:634-646 | once the checks pass, every after-balance and every leg the flows compute equals exact integer arithmetic |
| `MachineMoney.LegsStorable` | src/migrations/1743811200000-InitialSchema.ts:117-123 | no leg of an operation that passed the checks violates a column check or the bigint range |
| `LedgerFacts.BookConserves` | src/wallet/wallet.service.ts:189-205 | a booking that overdraws nobody keeps every currency's total and leaves every balance non-negative |
| `LedgerFacts.ReplaySound` | src/wallet/wallet.service.ts:207-243 | after every serial history: balanced SUCCESS journals with distinct keys, an unbroken chain of before and after balances on every row, one outbox row per journal with the same content, no pending order, each filled order settled by a journal of exactly its amounts |
| `LedgerFacts.LedgerReconstructs` | src/wallet/wallet.service.ts:420-481 | every stored balance is the opening balance plus all credits minus all debits on its row |
| `LedgerFacts.SeedConserved` | src/migrations/1748880000000-HouseAccount.ts:38-69 | the seeded database satisfies the conservation invariant |
| `EngineTheorems.BooksAlwaysSound` | src/transactions/transactions.service.ts:39-92 | in every reachable state of the engine the same holds: journals and outbox rows in one-to-one correspondence with equal legs, no pending order, ledger and balances agree |
| `EngineTheorems.JournalsTell` | src/wallet/wallet.service.ts:207-243 | in every reachable state each journal tells in full what its call was asked to do: owner, currency, side and amount of each leg, the purpose, no rate for a funding, a conversion's own rate, a trade's quoted rate to eight decimals |
| `EngineTheorems.EventsMirrorJournals` | src/transactions/transactions.service.ts:71-86 | in every reachable state each outbox row has its journal's identifier, key, purpose, status, rate and legs |
| `EngineTheorems.SameKeySameJournal` | src/wallet/wallet.service.ts:113-153 | two calls of any kind with one (user, key) that both succeed name the same journal, and no other journal has that key |
| `EngineTheorems.LookupTells` | src/transactions/transactions.service.ts:118-126 | a look-up that finds a journal answers with that key's committed journal |
| `EngineTheorems.LookupHeedsStatus` | src/wallet/wallet.service.ts:117-135 | of any tables, a look-up is answered with a succeeded journal of that key or, from one that has not succeeded, refused |
| `Leases.LeaseExcludes` | src/common/lock/lock.service.ts:38-64 | until a lease of that user lapses, no two of the user's calls are inside the locked section together, whatever happens to other users' leases |
| `Leases.FundNeverCollides` | src/wallet/wallet.service.ts:137-153 | until a lease of its user lapses, a funding that has its rows finds nothing in the way of its journal, so same-key fundings never fail on the unique key |
| `Duplicates.RecordsIffFresh` | src/wallet/wallet.service.ts:420-440 | until a lease of its user lapses, any call that has its rows can write its journal if and only if no journal has its key and the columns take its rate |
| `Duplicates.SecondConversionRefused` | src/wallet/wallet.service.ts:292-315 | two conversions with one key whose look-ups overlap: the first is booked, and the second, with lease, rows and money in hand, fails on the unique key, since nothing looks again inside the lock |
| `Deadlock.DeadlockIffCurrencyCycle` | src/wallet/wallet.service.ts:357-409 | calls wait for each other in a circle if and only if they are conversions or trades stopped between source and target row, all on the house's rows or all on one user's, and each buys what the next sells |
| `Deadlock.CircleEndsByAbort` | src/wallet/wallet.service.ts:357-409 | a call in such a circle can take no step of its own but give up |
| `Deadlock.AcyclicPairsNeverDeadlock` | src/wallet/wallet.service.ts:191-198 | if some ranking of the currencies rises along every conversion and trade in flight, nothing waits in a circle; fundings never matter |
| `DeadlockRuns.RequestsDeadlockIffRing` | src/wallet/wallet.service.ts:399-409 | given any conversions, and trades that have their quotes, of distinct paying users, some of them wait for each other in a circle in some run if and only if what they sell and buy closes a ring of currencies |
| `DeadlockRuns.SimpleRingDeadlocks` | src/wallet/wallet.service.ts:352-409 | from any idle reachable state, conversions and trades of n distinct paying users in a ring that passes no currency twice can come to wait for each other all the way round |
| `DeadlockRuns.OneUserDeadlocks` | src/wallet/wallet.service.ts:352-390 | once a lease has lapsed, one user's two opposed conversions can wait for each other on the user's own two rows |
| `DeadlockRuns.OneUserCircleNeedsLapse` | src/common/lock/lock.service.ts:38-64 | a call waits in a circle between its user's own rows only if a lease of that user has lapsed |
| `DeadlockRuns.DeadlockHappens` | src/wallet/wallet.service.ts:399-401 | a concrete deadlock reached from the seed at a hundred naira to the dollar, naira for dollars against dollars for naira, both calls priced as the service prices them |
| `WalletCache.CachedViewIsCommitted` | src/wallet/wallet.service.ts:41-87 | over engine and cache together, readers that missed or could not read the cache included: a user with no flow between commit and delete finds nothing or exactly the committed balances, unless that very entry was written by a reader a commit of the user had overtaken or outlived a failed delete |
| `WalletCache.RaceLeavesStale` | src/wallet/wallet.service.ts:245-247 | any commit and its successful delete between a reader's read and cache write leave a wrong entry, since every commit changes its user's balances |
| `WalletService.WalletService.FundWallet` | src/wallet/wallet.service.ts:93-262 | from its arguments alone: each error under its condition, a key already used answered with its journal, and otherwise the user's row in the currency of that code up by exactly the amount, the house's down by it, and a journal and outbox row that say so; whatever is not booked changes nothing |
| `WalletService.WalletService.ConvertFunds` | src/wallet/wallet.service.ts:264-502 | the same for a conversion, in the order same currency, unsupported, bad amount, replay, bad rate, too small, insufficient, illiquid; a booking moves the amount and the floored decimal conversion on the four rows and records the cross rate to within half of the eighth decimal, and only a rate that does not fit its column is refused for it |
| `WalletService.WalletService.ExecuteTrade` | src/wallet/wallet.service.ts:545-782 | the same for a trade: a replay leaves the quote alone, otherwise the quote is spent whatever follows; a booking moves the quote's two amounts, journals its rate to eight decimals and adds a filled order, a refusal leaves at most a rejected order row |
| `WalletService.WalletService.GetWallet` | src/wallet/wallet.service.ts:41-87 | answers from the cache or the tables; from the tables, and on a true cache always, exactly the user's rows with their stored balances, and the cache stays true |
| `WalletService.FundVerdictMeans` | src/wallet/wallet.service.ts:93-262 | the exact-arithmetic reference of a funding, booked on sound books, is what `Outcomes` says of one |
| `WalletService.ConvertVerdictMeans` | src/wallet/wallet.service.ts:264-502 | and that of a conversion |
| `WalletService.TradeMeans` | src/wallet/wallet.service.ts:604-732 | and that of a trade on a redeemed quote |
| `WalletService.AcceptsIsChecks` | src/wallet/wallet.service.ts:369-418 | on conserved books, acceptance is exactly: fresh key, storable rate, and the two machine checks at the ends of the plan |
| `WalletService.RefusalIsFirst` | src/wallet/wallet.service.ts:604-646 | which error a refused operation gets: the seller's shortage before the house's |
| `WalletService.ExchangeNumbers` | src/wallet/wallet.service.ts:390-413 | with both checks passed, all eight balances and both amounts are exact in doubles and storable |
| `WalletService.RoundedPayout` | src/wallet/wallet.service.ts:328-335 | turning the payout into a double changes neither acceptance nor refusal, and an accepted payout not at all |
| `WalletService.BookedPayoutIsOwed` | src/wallet/wallet.service.ts:322-335 | a conversion the books accept, at rates a provider can quote, pays the whole subunits owed at the true ratio of the two rates, never more, and one less only when a whole number is owed |
| `WalletService.RetriesAnswerTheJournal` | src/wallet/wallet.service.ts:292-315 | after a booking, every valid later funding or conversion with its key, whatever its amount, currencies and rates, answers with that journal and changes nothing |
| `Database.Database.Migrated` | src/migrations/1748880000000-HouseAccount.ts:38-69 | seeding currency by currency ends in one house row of 9000000000000000 for each of the twelve and nothing else |
| `Database.Database.RecordJournalEntry` | src/transactions/transactions.service.ts:39-92 | journal, legs and an outbox row with the same identifier, key, purpose, status, rate and legs are written together or not at all, exactly when key, rate and legs satisfy the constraints |
| `Database.FindByIdempotencyKey` | src/transactions/transactions.service.ts:118-126 | finds a stored journal with the key, and none exactly when the key is fresh |
| `Money.ConversionExact` | src/wallet/utils/money.ts:79-88 | the conversion is the floor of the exact product whenever the major amount and major times rate fit 40 digits |
| `Money.ConversionRoundsOnce` | src/wallet/utils/money.ts:32-46 | for any amount of at most 40 digits the conversion is one 40-digit rounding of the exact value, then a floor: the division and scaling by subunit factors cost nothing |
| `Money.ConversionWithinOne` | src/wallet/utils/money.ts:79-88 | below 1e39 it pays the whole subunits of the exact value, or one more exactly when the next whole subunit is at most half a unit of the 40th digit away |
| `Money.ConversionCanOverpay` | src/wallet/utils/money.ts:22-31 | at the cross rate of three to one, 3300 cents pay 1100 although the exact product has only 1099 whole subunits |
| `FairPayouts.PaysWhatIsOwed` | src/wallet/utils/money.ts:60-88 | for rates of at most 17 digits and amounts and payouts up to 9e15, after all roundings the conversion pays the floor of amount times to over from, or one less than it when that is whole; it never overpays |
| `FairPayouts.UnderpaysExactlyWhen` | src/wallet/utils/money.ts:60-88 | it pays the one less exactly when what is owed is whole and the product with the rounded cross rate falls short of it by more than half a unit of the 40th digit |
| `FairPayouts.ConversionCanUnderpay` | src/wallet/utils/money.ts:22-31 | an input that pays one less: 8100 cents at nine to one are owed 900 and paid 899 |
| `Money.ConversionMonotone` | src/wallet/utils/money.ts:79-88 | a larger amount or a better rate never pays less |
| `Money.SpreadAroundMid` | src/wallet/utils/money.ts:100-110 | 0 <= bid <= mid <= ask for spreads of 0 to 20000 basis points, after all roundings |
| `Spreads.SpreadIsOneRounding` | src/wallet/utils/money.ts:100-110 | for whole basis points bid and ask are each one 40-digit rounding of mid times one minus, and one plus, the basis points over 20000 |
| `Spreads.SpreadIsExact` | src/wallet/utils/money.ts:100-110 | and equal to it where the product fits 40 digits |
| `Spreads.SpreadNearExact` | src/wallet/utils/money.ts:100-110 | for any spread from 0 to 20000 basis points they are within four and six half units of the 40th digit of it |
| `Spreads.QuoteChargesSpread` | src/fx/quote.service.ts:102-118 | a quote pays the whole subunits of the amount at the true ratio of the two rates less half the spread, up to twelve half units of the 40th digit |
| `Money.QuoteNeverBeatsMid` | src/fx/quote.service.ts:102-118 | a quote never offers more than a conversion of the same amount at the same rates |
| `ConversionLoops.HopGains` | src/wallet/utils/money.ts:60-88 | one conversion at a cross rate raises an amount's worth by at most two half-ulp factors and fits 40 digits |
| `ConversionLoops.ChainGains` | src/wallet/utils/money.ts:60-88 | n conversions raise it by at most 2n such factors |
| `ConversionLoops.NoGainLoop` | src/wallet/utils/money.ts:60-88 | a loop of n conversions back to the first currency returns at most the amount x it started with whenever n times x is below 1e38 |
| `Decimal40.RndError` | src/wallet/utils/money.ts:14-17 | a rounding is off by at most half a unit in the 40th digit, 5e-40 of the value |
| `Decimal40.RndIdentity` | src/wallet/utils/money.ts:14-17 | rounding leaves a value alone exactly when it is an integer below 1e40 times a power of ten |
| `Decimal40.RndNearest` | src/wallet/utils/money.ts:14-17 | no value of 40 digits is nearer than the rounded one |
| `Decimal40.RoundMonotone` | src/wallet/utils/money.ts:14-17 | rounding keeps order, for all signs |
| `Doubles.NumberExact` | src/wallet/wallet.service.ts:178-189 | converting a whole number to a double changes nothing up to 2^53 |
| `Doubles.NumberNearest` | src/wallet/wallet.service.ts:178-189 | beyond, it gives a number of 53 bits times a power of two, and none is nearer |
| `Doubles.NumberSign` | src/wallet/wallet.service.ts:199-205 | converting keeps the sign of every whole number, so a difference is negative in doubles exactly when it is |
| `QuoteStore.QuoteTokenConserved` | src/fx/quote.service.ts:171-233 | in every run, the copies of a quote the fallback never read, in the store, in clients' hands and redeemed, total at most one |
| `QuoteStore.FallbackRedeemsTwice` | src/fx/quote.service.ts:180-190 | with get-then-delete, two clients redeem any live quote twice |
| `QuoteStore.FallbackRedeemsLate` | src/fx/quote.service.ts:188-190 | and one client redeems it any number of milliseconds after its expiry |
| `QuoteStore.QuoteLifetimeBounded` | src/fx/quote.service.ts:137-146 | after any number of wrong-user attempts a stored quote dies between its expiry and 999 ms plus the write latency later; until it expires an issued quote is redeemed, stored, in a hand, or lost to a failed write |
| `QuoteStore.DeliveredInTime` | src/fx/quote.service.ts:171-233 | what an atomic redemption hands out is the user's own quote of that id, at most 999 ms plus the write latency past its expiry; and the owner of a stored unexpired quote gets it |
| `QuoteOrders.OneOrderPerQuote` | src/wallet/wallet.service.ts:650-661 | in every run a quote the fallback never read has at most one order row, with the issued quote's owner, currencies and amounts; if filled, one journal moved exactly those amounts and has the quote's rate to eight decimals |
| `Duplicates.FallbackFillsTwice` | src/fx/quote.service.ts:180-190 | from any idle reachable state with a live quote its owner can pay for twice, the fallback can have it traded twice: two filled orders with its identifier, settled by two journals |
| `QuoteService.QuoteService.CreateQuote` | src/fx/quote.service.ts:77-161 | each error exactly under its condition and without a trace, no rates to be had and a store that refuses the write included; otherwise distinct supported currencies, positive amounts, the payout and the recorded rate at the true ratio less half the spread, within stated errors, never above mid, and the stored cell with its lifetime |
| `QuoteService.QuoteService.ConsumeQuote` | src/fx/quote.service.ts:171-233 | with the atomic command and with get-then-delete alike: only the owner of a live quote gets it and it is then gone; a wrong user's attempt puts it back for the seconds left |
| `QuoteService.ConsumedIsStoreSteps` | src/fx/quote.service.ts:171-233 | in every case, missing, owner, wrong user in time and wrong user too late, the method does what the concurrent store's steps do when nobody comes between them |
| `Outbox.OutboxService.ClaimPendingEntries` | src/common/outbox/outbox.service.ts:37-57 | returns at most `limit` distinct pending unlocked rows, none younger than one left behind and none left behind unless the batch is full; each becomes PROCESSING as of now with its retry count kept, and no other row changes |
| `Outbox.OutboxProcessor.PublishEntry` | src/common/outbox/outbox.processor.ts:92-132 | sent and marked, the row is published; if sending or marking fails, one attempt is used up or, at the limit, the row fails; if that cannot be recorded either, the row stays as claimed and the batch ends |
| `Outbox.OutboxProcessor.ProcessOutbox` | src/common/outbox/outbox.processor.ts:74-90 | one poll claims the oldest batch and settles its entries in order up to the first that breaks |
| `Outbox.PollSettles` | src/common/outbox/outbox.processor.ts:74-132 | an unbroken poll leaves no claim open, uses up an attempt of every row it took, and takes nothing only when nothing is pending |
| `Outbox.OutboxProcessor.PollUntilSettled` | src/common/outbox/outbox.processor.ts:36-45 | polling again and again ends, for any answers of the broker, with every row published or failed |
| `OutboxProtocol.OutboxSafe` | src/common/outbox/outbox.service.ts:37-109 | under any timing, swept live claims included: PROCESSING exactly with a claim time, rows in progress have attempts left, FAILED rows have used all, PUBLISHED rows were accepted by the broker |
| `OutboxProtocol.ExactlyOneOwner` | src/common/outbox/outbox.processor.ts:74-90 | a row the sweep never took from a live worker has exactly one owner while PROCESSING, a live worker or a dead one's claim, and none otherwise |
| `OutboxProtocol.ClaimsDisjoint` | src/common/outbox/outbox.service.ts:44-50 | concurrent claims never share a row while selecting, and afterwards only rows the sweep took from a live worker |
| `OutboxProtocol.ClaimsBounded` | src/common/outbox/outbox.processor.ts:92-131 | a row the sweep never took from a live worker is claimed at most maxRetries times plus once per recovery |
| `OutboxSends.SendsBounded` | src/common/outbox/outbox.processor.ts:74-132 | under any timing a row goes to the broker at most once per claim, and if the sweep never took it from a live worker at most maxRetries times plus once per recovery |
| `OutboxTermination.WorkBounded` | src/common/outbox/outbox.processor.ts:58-132 | all workers together take at most seven steps per row and attempt, five more per recovered row and one per row of a cancelled claim |
| `OutboxSettles.EveryRowSettles` | src/common/outbox/outbox.processor.ts:36-132 | from any state of any number of workers, whatever crashed, failed, was cancelled or was swept from under a live worker, the run goes on without new rows to one in which every row is published or out of attempts |
| `OutboxSettles.StuckIsDrained` | src/common/outbox/outbox.processor.ts:74-132 | under any timing, where no worker can take a step other than crashing, every row is finished except those dead workers left behind |
| `OutboxFinality.FinalIffUndisturbed` | src/common/outbox/outbox.service.ts:83-109 | a PUBLISHED or FAILED row stays as it is in every continuation of the run if and only if no worker still has it to do, but for recording once more the failure that ended it |
| `OutboxFinality.FinalUnlessSwept` | src/common/outbox/outbox.service.ts:91-95 | a PUBLISHED or FAILED row the sweep never took from a live worker stays as it is in every continuation |
| `OutboxFinality.TwoOwners` | src/common/outbox/outbox.service.ts:64-81 | a run in which the sweep takes a row from a slow worker and a second worker claims it: both have it |
| `OutboxFinality.FailedIsNotTerminal` | src/common/outbox/outbox.service.ts:83-109 | the run goes on: the second worker ends the last attempt, the row is FAILED, and the first marks it PUBLISHED |
| `Delivery.EveryEventTracked` | src/transactions/transactions.service.ts:71-86 | with engine and workers on one database, in every run every committed journal's event has its row, with attempts left while PENDING or PROCESSING, accepted by the broker when PUBLISHED, all attempts used when FAILED |
| `Delivery.EveryEventEnds` | src/common/outbox/outbox.processor.ts:36-132 | from there, under any timing, the workers can bring every committed event to its end, accepted by the broker or out of attempts |
| `Delivery.CommitNeverCollides` | src/transactions/transactions.service.ts:71-86 | the outbox row a commit adds never meets one with its identifier, so engine and workers together can do whatever the engine can alone |
| `Pagination.PageIsCut` | src/transactions/transactions.service.ts:142-232 | loading by id and re-ordering loses nothing: a page is the sorted filtered list cut at the limit, with the last kept row as cursor exactly when more follow |
| `Pagination.PageNewestFirst` | src/transactions/transactions.service.ts:177-178 | on a page creation times never rise, and on equal ones identifiers fall |
| `Pagination.PageHolds` | src/transactions/transactions.service.ts:149-190 | every item is the user's own, has the purpose asked for, one leg with both the currency and the side asked for, and lies past the cursor |
| `Pagination.PageMissesNothing` | src/transactions/transactions.service.ts:166-232 | every such row is on the page, or the page is full and the row lies after its last item, which is the next cursor |
| `Pagination.WalkIsSortedList` | src/transactions/transactions.service.ts:166-232 | on a fixed table the pages put together are exactly the filtered journals in strict (createdAt, id) descending order, over max(1, ceil(n / limit)) pages |
| `Pagination.LiveWalkExactlyOnce` | src/transactions/transactions.service.ts:180-190 | with journals inserted between requests, a walk that reaches its end returns every matching journal present at the start, nothing that does not match, and nothing twice |
| `Pagination.DescendingUnique` | src/transactions/transactions.service.ts:177-178 | the order is strict: a set of journals has one descending list only |
| `Pagination.CursorRoundTrip` | src/transactions/transactions.service.ts:235-259 | decoding undoes encoding exactly for a dated timestamp without a bar and a non-empty id |
| `Pagination.DecodedCursorEncodesBack` | src/transactions/transactions.service.ts:239-259 | whatever decodes encodes back to the same text |

## Left out

- Wallet rows: created on first use by getWallet and the flows; the model identifies a wallet with its user.
- `Money.ConversionWithinOne`: asks for amounts of at most 40 digits and an exact value below 1e39; beyond that a subunit is finer than the 40th digit.
- `QuoteOrders.OneOrderPerQuote`: asks that the get-then-delete fallback never read the quote, since then the claim is false (`Duplicates.FallbackFillsTwice`).
- `OutboxProtocol.ExactlyOneOwner`: asks, as `ClaimsBounded` does, that the sweep never took the row from a live worker, since then two workers can hold it (`OutboxFinality.TwoOwners`).
- `OutboxProtocol.ClaimsBounded`: asks the same; that sends stay below claims holds without it (`OutboxSends.SendsBounded`).
- `OutboxTermination.WorkBounded`: asks that the sweep took no row at all from a live worker; a stale mark can give a row attempts back.
- `OutboxSettles.EveryRowSettles`: says that the run can go on to such a state, not that a scheduler takes it there.
- `FairPayouts.PaysWhatIsOwed`: rates of at most 17 digits, as doubles print, and amounts and payouts up to 9e15, as the books hold.
- `WalletService.WalletService.GetWallet`: does not create the wallet row, and its cache entry does not expire; losing an entry only makes the next view read the tables.
- `Database.Database.RecordJournalEntry`: its inserts are one step; a failure between them is the rollback of the transaction around it.
- `QuoteStore.DeliveredInTime`: the atomic take only, since with the fallback it is false (`QuoteStore.FallbackRedeemsLate`).
- `QuoteService.QuoteService.ConsumeQuote`: a stored payload that does not parse, and a store that fails in the fallback's own read or delete.
- `Outbox.OutboxProcessor.PollUntilSettled`: one processor whose batches never break; `OutboxSettles.EveryRowSettles` has many workers and crashes.
- `Doubles.NumberExact`: `Number` is modelled on whole values and without an upper end; infinities, NaN and values from 2^1024 on are not part of this model.
- `Pagination.CursorRoundTrip`: the base64url layer around the text is not part of this model, and what counts as a date is a parameter.
- Rates as the tables keep them: `toFixed` followed by `Number` is modelled as one rounding to the column's decimals; order.executedRate only by whether its column takes it.
- Case folding of currency codes: codes are taken as already upper-case.
- Decimal exponents: the decimal library's exponent limits.
- The lease's clock: a lease may lapse at any step; its ten seconds and Redlock's retries are not modelled, and acquiring it is a step of the engine, not a method.
- Waiting: the engine's blocked steps are disabled steps, and Postgres choosing a deadlock victim is an abort that may happen at any time.
- The flows as classes run one request at a time; how they interleave is in the engine, on values.
- Outbox payloads in the worker model; the journal's outbox row with its content is in the books, and `Delivery` ties the two by identifier.
- Scheduling: when polls and sweeps happen; both are steps or calls that may happen at any time.
- tradeFunds, updateJournalStatus, toSubunit, fromSubunit, getFailedEntries: thin or without callers, easy members only.
- HTTP controllers, validation classes, authentication, users, mail, logging, throttling, and fetching rates: the rate table is a parameter.
